/** The two getMusicalNote variants side by side: ceiling (js/index.js) and
    nearest (index.js) rounding of the semitone distance. */
module RoundingVariants {
  import opened Numerals
  import opened Chromatic
  import BrowserScript
  import PageScript

  /** On a whole number of semitones both variants name the same note. */
  lemma AgreeOnWholeSemitones(m: int)
    ensures BrowserScript.GetMusicalNote(m as real) == PageScript.GetMusicalNote(m as real)
  {
    CeilAndRound(m as real);
  }

  /** Both variants agree unless the fractional part of the distance lies
      strictly between 0 and 1/2; there, whenever the nearest note number is
      not negative, the ceiling names the note one semitone higher. */
  lemma {:induction false} DifferBelowHalf(x: real)
    ensures !(x.Floor as real < x < x.Floor as real + 0.5) ==>
              BrowserScript.GetMusicalNote(x) == PageScript.GetMusicalNote(x)
    ensures x.Floor as real < x < x.Floor as real + 0.5 && Round(x) + 57 >= 0 ==>
              BrowserScript.GetMusicalNote(x) != PageScript.GetMusicalNote(x)
  {
    CeilAndRound(x);
    var c, r := Ceil(x) + RefNoteNumber, Round(x) + RefNoteNumber;
    assert BrowserScript.GetMusicalNote(x) == DescribeNoteNumber(c);
    assert PageScript.GetMusicalNote(x) == DescribeNoteNumber(r);
    if x.Floor as real < x < x.Floor as real + 0.5 && r >= 0 {
      DescribeNonNegative(r);
      DescribeInjective(r, c);
    }
  }

  /** A quarter semitone above A4: the ceiling variant says A#4, the nearest says A4. */
  lemma QuarterAboveA4()
    ensures BrowserScript.GetMusicalNote(0.25) == Text("A#4")
    ensures PageScript.GetMusicalNote(0.25) == Text("A4")
  {
    assert Ceil(0.25) == 1 && Round(0.25) == 0;
    DescribeOffset(10, 4, 58);
    DescribeOffset(9, 4, 57);
    IntToStringOfDigit(4);
  }
}
