/** index.js: getMusicalNote with nearest rounding and the handler that
    parses its result inline. */
module PageScript {
  import opened Wrappers
  import opened Numerals
  import opened NoteParsing
  import opened Chromatic

  /** getMusicalNote, for a frequency given by its distance in semitones from
      A4 = 440 Hz: `Math.round` of that distance plus 57 is the note number. */
  function GetMusicalNote(semitones: real): NoteOutput {
    DescribeNoteNumber(Round(semitones) + RefNoteNumber)
  }

  /** handleGetMusicalNote: getMusicalNote, then the first `-?\d+` run as the
      octave and the text without it as the note. It fails exactly when the
      note number is negative and not a multiple of 12; otherwise it yields a
      scale symbol and an octave that together give the note number back. */
  function HandleGetMusicalNote(semitones: real): (r: Result<ParsedNote, NoteError>)
    ensures var n := Round(semitones) + 57;
      && (r.Failure? <==> n < 0 && n % 12 != 0)
      && (r.Success? ==> r.value.note in CromaticScale && 12 * r.value.acousticIndex + IndexOf(r.value.note) == n)
  {
    DescribeThenParse(Round(semitones) + RefNoteNumber);
    ParseNoteOutput(GetMusicalNote(semitones))
  }

  /** A whole number m of semitones from A4 is note number 57 + m. */
  lemma WholeSemitoneNote(m: int)
    ensures GetMusicalNote(m as real) == DescribeNoteNumber(RefNoteNumber + m)
  {
    var c := Round(m as real);
    WholeSemitones(m);
    assert c == m;
    var n := c + RefNoteNumber;
    assert GetMusicalNote(m as real) == DescribeNoteNumber(n);
  }

  /** Round trip with the 440 Hz reference, for every scale symbol and
      one-digit octave. */
  lemma NoteRoundTrip(k: int, d: int)
    requires 0 <= k < |CromaticScale| && 0 <= d < 10
    ensures CalculateFrequency(CromaticScale[k] + [DigitChar(d)]).Scaled?
    ensures GetMusicalNote(CalculateFrequency(CromaticScale[k] + [DigitChar(d)]).semitones as real)
            == Text(CromaticScale[k] + [DigitChar(d)])
  {
    var offset := SemitoneOffset(k, d);
    CalculateFrequencyOfNote(k, d);
    WholeSemitoneNote(offset);
    DescribeOffset(k, d, RefNoteNumber + offset);
    IntToStringOfDigit(d);
  }

  /** getMusicalNote always measures from 440 Hz: a note computed forward from
      a reference a whole number d != 0 of semitones away comes back as a
      different note. */
  lemma ForeignReferenceNotRecovered(k: int, o: int, d: int)
    requires 0 <= k < |CromaticScale| && o >= 0 && d != 0
    ensures GetMusicalNote((SemitoneOffset(k, o) + d) as real) != Text(CromaticScale[k] + IntToString(o))
  {
    var x := SemitoneOffset(k, o) + d;
    WholeSemitoneNote(x);
    DescribeShifted(k, o, RefNoteNumber + x);
  }

  /** The inline parse of the handler reads "C#4" as C# and 4, and "A-1" as A and -1. */
  lemma ParseExamples()
    ensures ParseMusicalNote("C#4") == Success(ParsedNote("C#", 4))
    ensures ParseMusicalNote("A-1") == Success(ParsedNote("A", -1))
  {
    SymbolsAreWords();
    assert IsWord(CromaticScale[1]) && IsWord(CromaticScale[9]);
    assert "C#4" == "C#" + IntToString(4);
    ParseWordThenOctave("C#", 4);
    assert "A-1" == "A" + IntToString(-1);
    ParseWordThenOctave("A", -1);
  }
}
