/** Pitch arithmetic shared by both scripts (js/index.js and index.js define
    the same scale and the same calculateFrequency): note names to semitone
    offsets from A4 and note numbers back to note text. Frequencies are
    represented by their distance in semitones; the floating-point `Math.pow`
    and `Math.log2` around that distance are not part of this model. */
module Chromatic {
  import opened Wrappers
  import opened Numerals
  import opened NoteParsing

  /** cromaticScale: the twelve pitch classes of an octave, from C. */
  const CromaticScale: seq<string> := ["C", "C#", "D", "D#", "E", "F", "F#", "G", "G#", "A", "A#", "B"]

  /** Octave and scale position of the reference note A4, and its note number. */
  const RefOctave := 4
  const RefName := "A"

  /** First position at or after i of symbol in the scale, or -1 (Array.prototype.indexOf). */
  function IndexFrom(symbol: string, i: nat): (k: int)
    requires i <= |CromaticScale|
    ensures k == -1 || i <= k < |CromaticScale|
    ensures k == -1 <==> forall j :: i <= j < |CromaticScale| ==> CromaticScale[j] != symbol
    ensures k >= 0 ==> CromaticScale[k] == symbol && forall j :: i <= j < k ==> CromaticScale[j] != symbol
    decreases |CromaticScale| - i
  {
    if i == |CromaticScale| then -1
    else if CromaticScale[i] == symbol then i
    else IndexFrom(symbol, i + 1)
  }

  /** cromaticScale.indexOf(symbol). */
  function IndexOf(symbol: string): (k: int)
    ensures -1 <= k < |CromaticScale|
    ensures k == -1 <==> symbol !in CromaticScale
    ensures k >= 0 ==> CromaticScale[k] == symbol
  {
    IndexFrom(symbol, 0)
  }

  /** The twelve symbols are distinct. */
  lemma SymbolsDistinct()
    ensures forall i, j :: 0 <= i < j < |CromaticScale| ==> CromaticScale[i] != CromaticScale[j]
  {
    assert forall i, j :: 0 <= i < j < |CromaticScale| ==> |CromaticScale[i]| != |CromaticScale[j]| || CromaticScale[i][0] != CromaticScale[j][0];
  }

  /** So indexOf finds each symbol at its own position. */
  lemma IndexOfSymbol(k: int)
    requires 0 <= k < |CromaticScale|
    ensures IndexOf(CromaticScale[k]) == k
  {
    var r := IndexOf(CromaticScale[k]);
    assert r >= 0 && CromaticScale[r] == CromaticScale[k];
    SymbolsDistinct();
  }

  /** No scale symbol holds a minus sign or a digit. */
  lemma SymbolsAreWords()
    ensures forall k :: 0 <= k < |CromaticScale| ==> IsWord(CromaticScale[k])
  {
  }

  /** Scale position of the reference letter A, and refNoteNumber = 4 * 12 + 9. */
  const RefKeyNumber := 9
  const RefNoteNumber := 4 * 12 + RefKeyNumber

  /** refNoteNumber is computed as 4 * 12 + indexOf('A'): that is 57. */
  lemma RefNoteNumberIsIndexOfA()
    ensures IndexOf(RefName) == RefKeyNumber
    ensures RefOctave * 12 + IndexOf(RefName) == RefNoteNumber == 57
  {
    var a := CromaticScale[9];
    IndexOfSymbol(9);
    assert a == RefName;
  }

  /** The exponent of calculateFrequency times twelve: semitones from A4 of
      the note at scale position keyNumber in the given octave. */
  function SemitoneOffset(keyNumber: int, octave: int): int {
    12 * (octave - 4) + (keyNumber - 9)
  }

  /** What calculateFrequency returns: `null`, NaN (an unreadable octave
      character), or referenceFrequency * 2^(semitones / 12). */
  datatype Frequency = Null | NotANumber | Scaled(semitones: int)

  /** `parseInt` of the single last character: a digit or NaN. */
  function ParseDigit(c: char): Option<int> {
    if IsDigit(c) then Some(DigitValue(c)) else None
  }

  /** calculateFrequency(note): the octave is the last character alone and
      the letter is everything before it. */
  function CalculateFrequency(note: string): (r: Frequency)
    ensures r.Null? <==> note == [] || note[..|note| - 1] !in CromaticScale
    ensures r.NotANumber? <==> note != [] && note[..|note| - 1] in CromaticScale && !IsDigit(note[|note| - 1])
  {
    var octave := if note == [] then None else ParseDigit(note[|note| - 1]);
    var keyNumber := IndexOf(if note == [] then note else note[..|note| - 1]);
    if keyNumber < 0 then Null
    else match octave
      case None => NotANumber
      case Some(o) => Scaled(SemitoneOffset(keyNumber, o))
  }

  /** Math.ceil. */
  function Ceil(x: real): (c: int)
    ensures c as real - 1.0 < x <= c as real
  {
    -((-x).Floor)
  }

  /** Math.round: the nearest integer, halves going up. */
  function Round(x: real): (c: int)
    ensures c as real - 0.5 <= x < c as real + 0.5
  {
    (x + 0.5).Floor
  }

  /** JavaScript's `n % 12`, whose remainder takes the sign of n. */
  function JsRemainder12(n: int): (r: int)
    ensures -12 < r < 12
    ensures (n - r) % 12 == 0
    ensures n >= 0 ==> r >= 0
    ensures n < 0 ==> r <= 0
  {
    if n >= 0 then n % 12 else -((-n) % 12)
  }

  /** `cromaticScale[i]`, `undefined` outside the array. */
  function ScaleAt(i: int): Option<string> {
    if 0 <= i < |CromaticScale| then Some(CromaticScale[i]) else None
  }

  /** What getMusicalNote returns: text, or NaN when `undefined + octave` is a numeric addition. */
  datatype NoteOutput = Text(s: string) | NaN

  /** The last steps of getMusicalNote for a note number n: `Math.floor(n / 12)`,
      `cromaticScale[n % 12]` and `note + octave`. */
  function DescribeNoteNumber(n: int): NoteOutput {
    var octave := n / 12;
    match ScaleAt(JsRemainder12(n))
    case Some(letter) => Text(letter + IntToString(octave))
    case None => NaN
  }

  /** Reading the text of a note back into its parts, as the handlers do:
      `.match` on NaN throws. */
  function ParseNoteOutput(out: NoteOutput): Result<ParsedNote, NoteError> {
    match out
    case NaN => Failure(NotAString)
    case Text(s) => ParseMusicalNote(s)
  }

  // ----- calculateFrequency -----

  /** A scale symbol followed by one digit is accepted, and its semitone offset
      is 12 per octave from octave 4 plus the scale distance from A. */
  lemma CalculateFrequencyOfNote(k: int, d: int)
    requires 0 <= k < |CromaticScale| && 0 <= d < 10
    ensures CalculateFrequency(CromaticScale[k] + [DigitChar(d)]) == Scaled(12 * (d - 4) + k - 9)
  {
    var note := CromaticScale[k] + [DigitChar(d)];
    assert note[..|note| - 1] == CromaticScale[k];
    IndexOfSymbol(k);
  }

  /** Only the last character is read as the octave, so a negative or
      multi-digit octave leaves a prefix that is no scale symbol: `null`. */
  lemma CalculateFrequencyRejectsWideOctave(k: int, octave: int)
    requires 0 <= k < |CromaticScale|
    requires octave < 0 || octave > 9
    ensures CalculateFrequency(CromaticScale[k] + IntToString(octave)).Null?
  {
    var t := IntToString(octave);
    var note := CromaticScale[k] + t;
    var prefix := note[..|note| - 1];
    assert prefix[|CromaticScale[k]|] == t[0];
    SymbolsAreWords();
  }

  /** "A-1" leaves the prefix "A-", which is no scale symbol. */
  lemma CalculateFrequencyOfAMinus1()
    ensures CalculateFrequency("A-1") == Null
  {
    var note := CromaticScale[9] + IntToString(-1);
    CalculateFrequencyRejectsWideOctave(9, -1);
    assert IntToString(-1) == "-1";
    assert note == "A-1";
  }

  /** "C10" leaves the prefix "C1", which is no scale symbol. */
  lemma CalculateFrequencyOfC10()
    ensures CalculateFrequency("C10") == Null
  {
    var note := CromaticScale[0] + IntToString(10);
    CalculateFrequencyRejectsWideOctave(0, 10);
    assert IntToString(10) == "10";
    assert note == "C10";
  }

  /** "A4" is the reference itself. */
  lemma CalculateFrequencyOfA4()
    ensures CalculateFrequency("A4") == Scaled(0)
  {
    var note := CromaticScale[9] + [DigitChar(4)];
    CalculateFrequencyOfNote(9, 4);
    assert note == "A4";
  }

  /** "C#4" lies eight semitones below A4. */
  lemma CalculateFrequencyOfCSharp4()
    ensures CalculateFrequency("C#4") == Scaled(-8)
  {
    var note := CromaticScale[1] + [DigitChar(4)];
    CalculateFrequencyOfNote(1, 4);
    assert note == "C#4";
  }

  /** A4 is the reference itself; one octave up adds twelve semitones (twice
      the frequency); the offset orders notes by octave, then by scale position. */
  lemma SemitoneOffsetOrder(k1: int, o1: int, k2: int, o2: int)
    requires 0 <= k1 < |CromaticScale| && 0 <= k2 < |CromaticScale|
    ensures SemitoneOffset(9, 4) == 0
    ensures SemitoneOffset(k1, o1 + 1) == SemitoneOffset(k1, o1) + 12
    ensures SemitoneOffset(k1, o1) < SemitoneOffset(k2, o2) <==> o1 < o2 || (o1 == o2 && k1 < k2)
  {
  }

  // ----- getMusicalNote -----

  /** For a note number n >= 0 the letter is a scale symbol, the octave is
      floor(n / 12), and octave and letter position give n back. */
  lemma DescribeNonNegative(n: int)
    requires n >= 0
    ensures ScaleAt(JsRemainder12(n)).Some?
    ensures var letter := ScaleAt(JsRemainder12(n)).value;
      && letter in CromaticScale
      && DescribeNoteNumber(n) == Text(letter + IntToString(n / 12))
      && n / 12 >= 0
      && 12 * (n / 12) + IndexOf(letter) == n
  {
    IndexOfSymbol(n % 12);
  }

  /** For a negative n the remainder is negative unless n is a multiple of 12
      (then `-0`, which indexes "C"); a negative remainder finds `undefined`,
      and `undefined + octave` is NaN. */
  lemma DescribeNegative(n: int)
    requires n < 0
    ensures DescribeNoteNumber(n).NaN? <==> n % 12 != 0
    ensures n % 12 == 0 ==> DescribeNoteNumber(n) == Text("C" + IntToString(n / 12))
  {
  }

  /** Whenever getMusicalNote yields text, reading it back gives the letter at
      position n mod 12 and the octave floor(n / 12), which together give n. */
  lemma {:induction false} DescribeThenParse(n: int)
    ensures DescribeNoteNumber(n).NaN? <==> n < 0 && n % 12 != 0
    ensures DescribeNoteNumber(n).Text? ==>
      && ParseNoteOutput(DescribeNoteNumber(n)) == Success(ParsedNote(CromaticScale[n % 12], n / 12))
      && 12 * (n / 12) + IndexOf(CromaticScale[n % 12]) == n
    ensures DescribeNoteNumber(n).NaN? ==> ParseNoteOutput(DescribeNoteNumber(n)) == Failure(NotAString)
  {
    if n >= 0 || n % 12 == 0 {
      assert ScaleAt(JsRemainder12(n)) == Some(CromaticScale[n % 12]);
      SymbolsAreWords();
      ParseWordThenOctave(CromaticScale[n % 12], n / 12);
      IndexOfSymbol(n % 12);
    }
  }

  /** Note text determines the note number: two different numbers never share a text. */
  lemma DescribeInjective(n: int, m: int)
    requires DescribeNoteNumber(n).Text? && n != m
    ensures DescribeNoteNumber(n) != DescribeNoteNumber(m)
  {
    DescribeThenParse(n);
    DescribeThenParse(m);
  }

  /** Decomposing 57 + offset(L, O) gives back L and O for every scale symbol
      L and every octave O >= 0. */
  lemma DescribeOffset(k: int, o: int, n: int)
    requires 0 <= k < |CromaticScale| && o >= 0 && n == RefNoteNumber + SemitoneOffset(k, o)
    ensures DescribeNoteNumber(n) == Text(CromaticScale[k] + IntToString(o))
  {
    assert n == 12 * o + k;
    assert n / 12 == o && n % 12 == k;
  }

  /** A whole number of semitones is left as it is by both roundings. */
  lemma WholeSemitones(m: int)
    ensures Ceil(m as real) == m && Round(m as real) == m
  {
    CeilAndRound(m as real);
  }

  /** The text of L and O comes from one note number only: every other note
      number n yields something else. */
  lemma DescribeShifted(k: int, o: int, n: int)
    requires 0 <= k < |CromaticScale| && o >= 0 && n != RefNoteNumber + SemitoneOffset(k, o)
    ensures DescribeNoteNumber(n) != Text(CromaticScale[k] + IntToString(o))
  {
    var n0 := RefNoteNumber + SemitoneOffset(k, o);
    DescribeOffset(k, o, n0);
    DescribeInjective(n0, n);
  }

  /** Ceiling and nearest rounding agree on whole semitone counts and differ by
      at most one; the ceiling is one higher exactly when the fractional part
      lies strictly between 0 and 1/2. */
  lemma CeilAndRound(x: real)
    ensures x == x.Floor as real ==> Ceil(x) == Round(x) == x.Floor
    ensures 0 <= Ceil(x) - Round(x) <= 1
    ensures Ceil(x) - Round(x) == 1 <==> x.Floor as real < x < x.Floor as real + 0.5
  {
    var c, r, f := Ceil(x), Round(x), x.Floor;
    assert f as real <= x < f as real + 1.0;
    assert c == f || c == f + 1 by {
      assert (c - f) as real - 1.0 < 1.0 && (c - f) as real > -1.0;
    }
    assert r == f || r == f + 1 by {
      assert (r - f) as real - 0.5 < 1.0 && (r - f) as real + 0.5 > 0.0;
    }
    assert c == f <==> x == f as real;
    assert r == f + 1 <==> x >= f as real + 0.5;
  }
}
