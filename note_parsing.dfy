/** Splitting a note string such as "C#4" or "A-1" into its letter and its
    octave: the first run matching `-?\d+` is the octave, and the note is what
    remains once the octave's text is removed (js/index.js parseMusicalNote,
    inlined in index.js handleGetMusicalNote). */
module NoteParsing {
  import opened Wrappers
  import opened Numerals

  /** A match of the pattern `-?\d+` begins at position i of s. */
  predicate MatchStartsAt(s: string, i: int) {
    0 <= i < |s| && (IsDigit(s[i]) || (s[i] == '-' && i + 1 < |s| && IsDigit(s[i + 1])))
  }

  /** Leftmost position at or after i where a `-?\d+` match begins. */
  function FirstMatchFrom(s: string, i: nat): (r: Option<nat>)
    requires i <= |s|
    ensures r.None? ==> forall j :: i <= j < |s| ==> !MatchStartsAt(s, j)
    ensures r.Some? ==> i <= r.value < |s| && MatchStartsAt(s, r.value)
    ensures r.Some? ==> forall j :: i <= j < r.value ==> !MatchStartsAt(s, j)
    decreases |s| - i
  {
    if i == |s| then None
    else if MatchStartsAt(s, i) then Some(i)
    else FirstMatchFrom(s, i + 1)
  }

  /** End of the greedy run of digits that starts at j. */
  function DigitRunEnd(s: string, j: nat): (e: nat)
    requires j <= |s|
    ensures j <= e <= |s| && AllDigits(s[j..e])
    ensures e < |s| ==> !IsDigit(s[e])
    decreases |s| - j
  {
    if j < |s| && IsDigit(s[j]) then DigitRunEnd(s, j + 1) else j
  }

  predicate OccursAt(s: string, pat: string, j: int) {
    0 <= j && j + |pat| <= |s| && s[j..j + |pat|] == pat
  }

  /** First position at or after i where pat occurs in s. */
  function FindFrom(s: string, pat: string, i: nat): (r: Option<nat>)
    ensures r.Some? ==> i <= r.value && OccursAt(s, pat, r.value)
    ensures forall j :: i <= j && (r.None? || j < r.value) ==> !OccursAt(s, pat, j)
    decreases |s| - i
  {
    if i + |pat| > |s| then None
    else if s[i..i + |pat|] == pat then Some(i)
    else FindFrom(s, pat, i + 1)
  }

  /** `s.replace(pat, '')` with a string pattern: only the first occurrence
      goes; a string without one comes back unchanged. */
  function RemoveFirst(s: string, pat: string): (r: string)
    ensures (forall j :: !OccursAt(s, pat, j)) ==> r == s
    ensures forall p :: OccursAt(s, pat, p) && (forall j :: 0 <= j < p ==> !OccursAt(s, pat, j)) ==>
              r == s[..p] + s[p + |pat|..]
  {
    match FindFrom(s, pat, 0)
    case None => s
    case Some(p) => s[..p] + s[p + |pat|..]
  }

  datatype ParsedNote = ParsedNote(note: string, acousticIndex: int)

  /** The TypeErrors the scripts raise on the way from a note number to its parts:
      `null[0]` when no octave digits are found, and `.match` called on NaN. */
  datatype NoteError = NoOctaveDigits | NotAString

  /** `parseInt` of the `-?\d+` match that begins at m: its sign, then the value of its digit run. */
  function MatchValue(s: string, m: nat): int
    requires MatchStartsAt(s, m)
  {
    var negative := s[m] == '-';
    var digits := if negative then m + 1 else m;
    var magnitude: int := DigitsValue(s[digits..DigitRunEnd(s, digits)]);
    if negative then -magnitude else magnitude
  }

  /** parseMusicalNote: the first `-?\d+` run read as an integer, and the text
      with the first occurrence of that integer's decimal form removed. */
  function ParseMusicalNote(fullNote: string): (r: Result<ParsedNote, NoteError>)
    ensures r.Failure? <==> forall i :: 0 <= i < |fullNote| ==> !MatchStartsAt(fullNote, i)
    ensures r.Failure? ==> r.error == NoOctaveDigits
  {
    match FirstMatchFrom(fullNote, 0)
    case None => Failure(NoOctaveDigits)
    case Some(m) =>
      var acousticIndex := MatchValue(fullNote, m);
      Success(ParsedNote(RemoveFirst(fullNote, IntToString(acousticIndex)), acousticIndex))
  }

  /** Text that can neither start nor extend an octave match: no minus sign, no digit. */
  predicate IsWord(w: string) {
    forall i :: 0 <= i < |w| ==> w[i] != '-' && !IsDigit(w[i])
  }

  /** In a word followed by an integer's text, the first octave match is where the integer begins. */
  lemma FirstMatchAfterWord(word: string, t: string)
    requires IsWord(word) && 0 < |t| && (t[0] == '-' || IsDigit(t[0])) && AllDigits(t[1..])
    requires t[0] == '-' ==> 1 < |t|
    ensures FirstMatchFrom(word + t, 0) == Some(|word|)
  {
    var s := word + t;
    forall j | 0 <= j < |word|
      ensures !MatchStartsAt(s, j)
    {
      assert s[j] == word[j];
    }
    assert s[|word|] == t[0];
    assert |word| + 1 < |s| ==> s[|word| + 1] == t[1..][0];
    assert MatchStartsAt(s, |word|);
  }

  /** In a word followed by an integer's text, the integer's text occurs first where it was appended. */
  lemma RemoveFirstAfterWord(word: string, t: string)
    requires IsWord(word) && 0 < |t| && (t[0] == '-' || IsDigit(t[0]))
    ensures RemoveFirst(word + t, t) == word
  {
    var s := word + t;
    var w := |word|;
    forall j | 0 <= j < w
      ensures !OccursAt(s, t, j)
    {
      assert s[j] == word[j];
    }
    assert s[w..w + |t|] == t;
    assert OccursAt(s, t, w);
    assert s[..w] + s[w + |t|..] == word;
  }

  /** A run of digits that reaches the end of the text ends there. */
  lemma DigitRunToEnd(s: string, j: nat)
    requires j <= |s| && AllDigits(s[j..])
    ensures DigitRunEnd(s, j) == |s|
  {
    var e := DigitRunEnd(s, j);
    assert forall k :: j <= k < |s| ==> s[k] == s[j..][k - j];
  }

  /** The match that begins where an integer's text was appended reads back that integer. */
  lemma MatchValueAfterWord(word: string, octave: int)
    requires MatchStartsAt(word + IntToString(octave), |word|)
    ensures MatchValue(word + IntToString(octave), |word|) == octave
  {
    var t := IntToString(octave);
    var s := word + t;
    var w := |word|;
    assert s[w] == t[0];
    var digits := if octave < 0 then w + 1 else w;
    var magnitude := if octave < 0 then -octave else octave;
    assert s[digits..] == NatToString(magnitude);
    DigitRunToEnd(s, digits);
    assert s[digits..|s|] == NatToString(magnitude);
    DigitsValueOfNatToString(magnitude);
  }

  /** Parsing a word followed by the decimal form of any integer, negative ones
      included, gives back that word and that integer. */
  lemma ParseWordThenOctave(word: string, octave: int)
    requires IsWord(word)
    ensures ParseMusicalNote(word + IntToString(octave)) == Success(ParsedNote(word, octave))
  {
    var t := IntToString(octave);
    FirstMatchAfterWord(word, t);
    MatchValueAfterWord(word, octave);
    RemoveFirstAfterWord(word, t);
  }
}
