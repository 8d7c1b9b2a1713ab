# pitch-frequency-converter, modelled in Dafny

pitch-frequency-converter is a pair of browser scripts that convert between
note names such as `C#4` and frequencies. `js/index.js` also listens to the
microphone and names the loudest frequency it hears. `index.js` is a
copy without the microphone part; it rounds to the nearest semitone where
`js/index.js` rounds up.

This project models the integer logic under the floating-point surface.

- **Note names to semitone offsets** (`calculateFrequency`). The twelve-symbol
  chromatic scale, `indexOf` on it, and reading the octave from the last
  character only. The frequency `reference * 2^(offset / 12)` is represented
  by its integer exponent `offset = 12 * (octave - 4) + (keyNumber - 9)`.
- **Semitone distances back to note text** (`getMusicalNote`). The input is
  the real distance `12 * log2(frequency / 440)`. The model covers the
  ceiling (`js/index.js`) and nearest (`index.js`) rounding, the base note
  number 57 = 4 * 12 + indexOf('A'), `Math.floor(n / 12)`, and JavaScript's
  truncating `n % 12`. It also follows what JavaScript does past the scale's
  ends:
  - `-12 % 12` is `-0` and indexes `C`;
  - a negative remainder indexes `undefined`, and `undefined + octave` is NaN.
- **Note text back to its parts** (`parseMusicalNote`). The first `-?\d+`
  match read by `parseInt`, then `String.prototype.replace` of that number's
  decimal text. The two ways it throws are modelled as errors:
  - `null[0]` when there is no match;
  - `.match` on NaN.
- **Strongest-bin tracking** (`analyzeFrequencies` inside
  `acousticSoundToHertz`). A class whose two fields are updated by a `for`
  loop over 1024 byte magnitudes per poll (fftSize 2048). It is fed an
  explicit sequence of polls, and the bin index stands for its frequency.

Modules:
- `Numerals`: `String(n)` and `parseInt` of digit runs.
- `NoteParsing`: `parseMusicalNote`.
- `Chromatic`: the scale, `calculateFrequency` and the note-number decomposition.
- `PeakTracking`: the running maximum.
- `BrowserScript`: the `js/index.js` handlers, ceiling rounding.
- `PageScript`: the `index.js` handler, nearest rounding.
- `RoundingVariants`: how the two roundings compare.

`BrowserScript` and `PageScript` mirror the two files on purpose. Their
`WholeSemitoneNote`, `NoteRoundTrip` and `ForeignReferenceNotRecovered`
lemmas state the same facts, one with each rounding.

## Model

| member | source | states |
|---|---|---|
| Numerals.NatToString | js/index.js:82 | the decimal text of a natural number is non-empty and all digits, one character exactly when the number is below 10, and starts with '0' only for 0 itself (no leading zeros) |
| Numerals.IntToString | js/index.js:82 | `String(i)`: non-empty; starts with '-' exactly when i < 0; every other character is a digit; one character exactly when 0 <= i < 10; no leading zeros (starts with '0' only for 0, and no '0' right after the minus sign) |
| Numerals.DigitsValueOfNatToString | js/index.js:90 | reading back with `parseInt` the digits that `String(n)` writes gives n again |
| Numerals.IntToStringOfDigit | js/index.js:82 | a one-digit octave is written as exactly that digit |
| NoteParsing.FirstMatchFrom | js/index.js:90 | the leftmost place where a `-?\d+` match begins, or none when no place qualifies |
| NoteParsing.DigitRunEnd | js/index.js:90 | the greedy `\d+` run: all digits, stopped by a non-digit or the end |
| NoteParsing.FindFrom | js/index.js:91 | the first occurrence of a pattern at or after a position, or none |
| NoteParsing.RemoveFirst | js/index.js:91 | `replace(pattern, '')`: a string without the pattern is unchanged; otherwise exactly the first occurrence is cut out |
| NoteParsing.MatchValue | js/index.js:90 | `parseInt` of the match: no contract of its own; NoteParsing.ParseWordThenOctave states that it reads String(octave) back as octave |
| NoteParsing.ParseMusicalNote | js/index.js:89-96 | fails (`null[0]`) exactly when the text has no `-?\d+` match |
| NoteParsing.ParseWordThenOctave | js/index.js:89-96 | for every letter text with no '-' or digit and every integer octave, negative ones included, parsing letter + String(octave) gives back that letter and that octave |
| Chromatic.IndexFrom | js/index.js:69 | the first position at or after i that holds the symbol, or -1 when no later position does |
| Chromatic.IndexOf | js/index.js:69 | `cromaticScale.indexOf`: -1 exactly when the symbol is not in the scale, otherwise a position that holds it |
| Chromatic.SymbolsDistinct | js/index.js:11 | the twelve scale symbols are pairwise different |
| Chromatic.IndexOfSymbol | js/index.js:11 | indexOf finds every scale symbol at its own position |
| Chromatic.SymbolsAreWords | js/index.js:11 | no scale symbol holds a '-' or a digit, so `-?\d+` never captures part of the letter, '#' included |
| Chromatic.RefNoteNumberIsIndexOfA | js/index.js:77-78 | indexOf('A') is 9, and refNoteNumber = 4 * 12 + 9 = 57 |
| Chromatic.SemitoneOffset | js/index.js:73 | the exponent times twelve: no contract of its own; Chromatic.SemitoneOffsetOrder states its values and order, Chromatic.DescribeOffset its inverse |
| Chromatic.CalculateFrequency | js/index.js:67-74 | `null` exactly when the text is empty or the part before its last character is not a scale symbol; NaN exactly when that part is a symbol but the last character is not a digit |
| Chromatic.CalculateFrequencyOfNote | js/index.js:67-74 | a scale symbol followed by one digit d gives the offset 12 * (d - 4) + (its index - 9) |
| Chromatic.CalculateFrequencyRejectsWideOctave | js/index.js:68-72 | a scale symbol followed by a negative or multi-digit octave gives `null` |
| Chromatic.CalculateFrequencyOfAMinus1 | js/index.js:68-72 | "A-1" gives `null` (prefix "A-") |
| Chromatic.CalculateFrequencyOfC10 | js/index.js:68-72 | "C10" gives `null` (prefix "C1") |
| Chromatic.CalculateFrequencyOfA4 | js/index.js:73 | "A4" has offset 0, so the result is the reference frequency |
| Chromatic.CalculateFrequencyOfCSharp4 | index.js:11-17 | "C#4" lies eight semitones below A4 |
| Chromatic.SemitoneOffsetOrder | js/index.js:73 | the offset of A4 is 0; one octave up adds 12 (double the frequency); offsets are strictly ordered by octave, then by scale index |
| Chromatic.Ceil | js/index.js:79 | `Math.ceil`: the least integer not below x |
| Chromatic.Round | index.js:23 | `Math.round`: the integer c with x in [c - 1/2, c + 1/2), so halves go up |
| Chromatic.JsRemainder12 | js/index.js:81 | JavaScript's `n % 12`: strictly between -12 and 12, congruent to n, with the sign of n |
| Chromatic.DescribeNoteNumber | js/index.js:80-82 | the last three lines of getMusicalNote: no contract of its own; Chromatic.DescribeThenParse, Chromatic.DescribeNonNegative and Chromatic.DescribeNegative state what it yields |
| Chromatic.DescribeNonNegative | js/index.js:80-82 | for a note number n >= 0 the letter is a scale symbol, the text is letter + String(floor(n / 12)), and 12 * octave + indexOf(letter) == n |
| Chromatic.DescribeNegative | js/index.js:80-82 | for n < 0 the result is NaN exactly when n is not a multiple of 12; a negative multiple of 12 gives "C" and its octave |
| Chromatic.DescribeThenParse | js/index.js:80-82 | getMusicalNote's text parses back to the letter at n mod 12 and the octave floor(n / 12), which give n back; NaN exactly when n < 0 and not a multiple of 12, and parsing NaN fails |
| Chromatic.DescribeInjective | js/index.js:80-82 | two different note numbers never yield the same text |
| Chromatic.DescribeOffset | js/index.js:73 | round trip: decomposing 57 + offset(L, O) gives back the text of L and O, for every scale symbol L and octave O >= 0 |
| Chromatic.DescribeShifted | js/index.js:77-82 | the text of L and O comes from the note number 57 + offset(L, O) and from no other |
| Chromatic.WholeSemitones | js/index.js:79 | both roundings leave a whole number of semitones as it is |
| Chromatic.CeilAndRound | index.js:23 | ceiling and nearest rounding agree on integers and differ by at most one; the ceiling is one higher exactly when the fractional part is strictly between 0 and 1/2 |
| PeakTracking.Scan | js/index.js:29-35 | after one pass over a poll the magnitude is at least the old one and at least every byte; either nothing changed or the new pair is the first bin strictly louder than everything before it |
| PeakTracking.Track | js/index.js:39-45 | the pair after a sequence of polls: no contract of its own; PeakTracking.TrackIsFirstMaximum states what it is |
| PeakTracking.TrackIsFirstMaximum | js/index.js:24-35 | after any polls the magnitude is the largest byte seen (or the start value), and the bin is where it was first reached: earliest poll, then lowest bin |
| PeakTracking.TrackNeverDecreases | js/index.js:24-35 | more polls never lower the tracked magnitude |
| PeakTracking.TrackBinInRange | js/index.js:21-23 | with polls of frequencyBinCount = fftSize / 2 = 1024 bins, the bin is in 0..1023 |
| PeakTracking.SilenceStaysAtBinZero | js/index.js:24-35 | a capture whose magnitudes are all 0 ends at magnitude 0 and bin 0, because `0 > -Infinity` at the first bin and nothing later is strictly louder |
| PeakTracking.StrongestBinTracker.constructor | js/index.js:24-25 | maxDecibel starts below every byte and the bin at 0, before any poll |
| PeakTracking.StrongestBinTracker.Poll | js/index.js:27-36 | one poll updates the pair to the scan of the old pair over that poll's bins and keeps the pair equal to the tracking of all polls so far |
| BrowserScript.GetMusicalNote | js/index.js:76-83 | getMusicalNote with `Math.ceil`: no contract of its own; BrowserScript.HandleGetMusicalNote and BrowserScript.WholeSemitoneNote state what it yields |
| BrowserScript.HandleGetMusicalNote | js/index.js:110-118 | fails exactly when the ceiling note number is negative and not a multiple of 12; otherwise it yields a scale symbol and an octave with 12 * octave + index == the note number |
| BrowserScript.WholeSemitoneNote | js/index.js:79 | a whole number m of semitones from A4 is note number 57 + m |
| BrowserScript.NoteRoundTrip | js/index.js:67-83 | for every scale symbol and one-digit octave, the offset calculateFrequency gives leads getMusicalNote back to the same note text |
| BrowserScript.ForeignReferenceNotRecovered | js/index.js:77-79 | getMusicalNote measures from 440 Hz: a note computed from a reference d != 0 semitones away comes back as a different note |
| BrowserScript.AcousticSoundToHertz | js/index.js:13-64 | the report carries the tracked maximum of all polls, its bin in 1..1023, and the parsed note of that bin's frequency; it is the error report exactly when the peak is at bin 0 (0 Hz) or naming the peak's frequency fails; a silent capture is always the error report |
| PageScript.GetMusicalNote | index.js:20-27 | getMusicalNote with `Math.round`: no contract of its own; PageScript.HandleGetMusicalNote and PageScript.WholeSemitoneNote state what it yields |
| PageScript.HandleGetMusicalNote | index.js:45-54 | fails exactly when the nearest note number is negative and not a multiple of 12; otherwise it yields a scale symbol and an octave with 12 * octave + index == the note number |
| PageScript.WholeSemitoneNote | index.js:23 | a whole number m of semitones from A4 is note number 57 + m |
| PageScript.NoteRoundTrip | index.js:11-27 | for every scale symbol and one-digit octave, the offset calculateFrequency gives leads getMusicalNote back to the same note text |
| PageScript.ForeignReferenceNotRecovered | index.js:21-23 | getMusicalNote measures from 440 Hz: a note computed from a reference d != 0 semitones away comes back as a different note |
| PageScript.ParseExamples | index.js:49-50 | the inline parse reads "C#4" as C# and 4, and "A-1" as A and -1 |
| RoundingVariants.AgreeOnWholeSemitones | index.js:23 | on a whole number of semitones, the ceiling and the nearest variants name the same note |
| RoundingVariants.DifferBelowHalf | js/index.js:79 | the variants agree unless the fractional part is strictly between 0 and 1/2; there, when the nearest note number is not negative, they name different notes |
| RoundingVariants.QuarterAboveA4 | index.js:23 | a quarter semitone above A4 is A#4 with the ceiling and A4 with the nearest rounding |

## Left out

- Floating-point arithmetic is not modelled: `Math.pow`, `Math.log2`,
  `toFixed(2)` and `i * sampleRate / fftSize`. Frequencies are represented
  by their distance in semitones from 440 Hz, and peak frequencies by their bin.
- A reference frequency other than 440 Hz is represented as a shift of d
  semitones. Shifts that are not whole semitones are not modelled.
- A frequency of 0 Hz or below typed into the note-lookup form is not
  modelled, because the handlers take a semitone distance. For such a
  frequency `Math.log2` gives -Infinity or NaN, getMusicalNote returns NaN,
  and `.match` throws outside any try. In the acoustic capture, the 0 Hz
  peak at bin 0 is modelled: AcousticSoundToHertz reports the error.
- `maxDecibel`'s start value `-Infinity` is represented by -1. Every byte
  magnitude beats both in the same way.
- Audio capture is not modelled: `getUserMedia`, the `AudioContext`, the
  analyser wiring and stopping the tracks. These are browser I/O. The polls
  are given to `AcousticSoundToHertz` as a sequence of byte arrays.
- BrowserScript.NoteRoundTrip holds for exact semitone counts only. In the
  page, `handleGetFrecuency` writes the frequency rounded by `toFixed(2)`,
  and `handleGetMusicalNote` reads that text back. When `toFixed` rounds up,
  the distance lands just above the whole semitone, and `Math.ceil` names
  the next note. For example, C#5 (554.3653 Hz) is written as 554.37, which
  is 4.00015 semitones above A4, so the result is D5. The nearest variant
  gives C#5 back. RoundingVariants.DifferBelowHalf states when the two
  variants part.
- The sample rate is a property of the audio device. AcousticSoundToHertz
  takes the semitone distance of each non-zero bin's frequency as a
  parameter.
- The capture loop's timing is not modelled: `Date.now`, the 5000 ms cutoff
  and `setTimeout`. The number of polls is given instead, with at least one.
- The DOM is not modelled: reading form fields, writing results,
  `handleChange`, the `blink` class, the event listeners and the error text.
- `handleGetFrecuency` is not modelled beyond `calculateFrequency`. The
  extra step, `toFixed(2)` on the result, is floating-point formatting and
  throws on `null`.
- `parseInt` is modelled with exact integers. JavaScript numbers lose
  precision on digit runs longer than 15 digits.
- Strings are sequences of Dafny characters, not UTF-16 code units. The
  texts involved are ASCII.
- A negative note number is not wrapped into the scale with a floored
  modulo. The scripts use JavaScript's truncating `%`, so the model gives
  NaN there (and "C" for negative multiples of 12).
- An unknown letter gives `null` and an unreadable octave character gives
  NaN. They are not given one common error.
