/** The strongest-bin search of acousticSoundToHertz (js/index.js): an
    analyser with fftSize 2048 fills 1024 byte magnitudes per poll, and a
    running maximum keeps the loudest magnitude seen and the bin where it was
    first reached. The bin index stands for its frequency
    `bin * sampleRate / fftSize`. */
module PeakTracking {

  newtype byte = x: int | 0 <= x < 256

  const FftSize := 2048
  /** frequencyBinCount of an AnalyserNode is half its fftSize. */
  const FrequencyBinCount := FftSize / 2

  /** maxDecibel starts at -Infinity; every byte magnitude exceeds -1 just as
      it exceeds -Infinity, so -1 stands for it. */
  const Silence := -1

  /** The pair (maxDecibel, bin of maxFrequency) the loop keeps. */
  datatype Peak = Peak(decibel: int, bin: nat)

  const Initial := Peak(Silence, 0)

  /** The inner `for` loop over one poll's bins, as a function of the pair
      before the poll: with a strict `>`, a bin replaces the pair only when it
      is louder than everything before it. */
  function Scan(p: Peak, data: seq<byte>): (r: Peak)
    ensures p.decibel <= r.decibel
    ensures forall j :: 0 <= j < |data| ==> data[j] as int <= r.decibel
    ensures r == p || (r.bin < |data| && data[r.bin] as int == r.decibel && p.decibel < r.decibel
                       && forall j :: 0 <= j < r.bin ==> data[j] as int < r.decibel)
    decreases |data|
  {
    if data == [] then p
    else
      var q := Scan(p, data[..|data| - 1]);
      var i := |data| - 1;
      if data[i] as int > q.decibel then Peak(data[i] as int, i) else q
  }

  /** The pair after a sequence of polls, from the start of a capture. */
  function Track(polls: seq<seq<byte>>): Peak
    decreases |polls|
  {
    if polls == [] then Initial else Scan(Track(polls[..|polls| - 1]), polls[|polls| - 1])
  }

  /** The peak r is reached at bin r.bin of poll q, by nothing earlier in that
      poll and by nothing in an earlier poll. */
  ghost predicate FirstReachedIn(polls: seq<seq<byte>>, q: int, r: Peak) {
    && 0 <= q < |polls|
    && r.bin < |polls[q]|
    && polls[q][r.bin] as int == r.decibel
    && (forall j :: 0 <= j < r.bin ==> polls[q][j] as int < r.decibel)
    && (forall q', j :: 0 <= q' < q && 0 <= j < |polls[q']| ==> polls[q'][j] as int < r.decibel)
  }

  /** After any polls the tracked magnitude is the largest byte seen, and the
      tracked bin is where it was first reached: earliest poll, then lowest bin. */
  lemma {:induction false} TrackIsFirstMaximum(polls: seq<seq<byte>>)
    ensures Silence <= Track(polls).decibel
    ensures forall q, j :: 0 <= q < |polls| && 0 <= j < |polls[q]| ==> polls[q][j] as int <= Track(polls).decibel
    ensures Track(polls) == Initial || exists q :: FirstReachedIn(polls, q, Track(polls))
  {
    if polls != [] {
      var n := |polls| - 1;
      var before := polls[..n];
      TrackIsFirstMaximum(before);
      var p, r := Track(before), Track(polls);
      assert forall q :: 0 <= q < n ==> polls[q] == before[q];
      if r != p {
        assert FirstReachedIn(polls, n, r);
      } else if p != Initial {
        var q :| FirstReachedIn(before, q, p);
        assert FirstReachedIn(polls, q, r);
      }
    }
  }

  /** The tracked magnitude never decreases as polls are added. */
  lemma {:induction false} TrackNeverDecreases(polls: seq<seq<byte>>, later: seq<seq<byte>>)
    ensures Track(polls).decibel <= Track(polls + later).decibel
    decreases |later|
  {
    if later != [] {
      var n := |later| - 1;
      TrackNeverDecreases(polls, later[..n]);
      assert (polls + later)[..|polls + later| - 1] == polls + later[..n];
      assert (polls + later)[|polls + later| - 1] == later[n];
    } else {
      assert polls + later == polls;
    }
  }

  /** With polls of frequencyBinCount bins, the tracked bin is one of 0..1023. */
  lemma {:induction false} TrackBinInRange(polls: seq<seq<byte>>)
    requires forall q :: 0 <= q < |polls| ==> |polls[q]| == FrequencyBinCount
    ensures Track(polls).bin < FrequencyBinCount
    decreases |polls|
  {
    if polls != [] {
      TrackBinInRange(polls[..|polls| - 1]);
    }
  }

  /** A silent capture (every magnitude 0) stops at bin 0: the first bin beats
      the start value, and no later bin is strictly louder. */
  lemma SilenceStaysAtBinZero(polls: seq<seq<byte>>)
    requires 0 < |polls| && 0 < |polls[0]|
    requires forall q, j :: 0 <= q < |polls| && 0 <= j < |polls[q]| ==> polls[q][j] == 0
    ensures Track(polls) == Peak(0, 0)
  {
    TrackIsFirstMaximum(polls);
    var r := Track(polls);
    assert polls[0][0] as int <= r.decibel;
    assert r != Initial;
    var q :| FirstReachedIn(polls, q, r);
  }

  /** The captured variables maxDecibel and maxFrequency of acousticSoundToHertz. */
  class StrongestBinTracker {
    var maxDecibel: int
    var maxBin: nat
    /** The polls made so far. */
    ghost var polls: seq<seq<byte>>

    ghost predicate Valid()
      reads this
    {
      Peak(maxDecibel, maxBin) == Track(polls)
    }

    constructor ()
      ensures Valid() && polls == []
      ensures maxDecibel == Silence && maxBin == 0
    {
      maxDecibel := Silence;
      maxBin := 0;
      polls := [];
    }

    /** analyzeFrequencies: one pass over the bins of one poll. */
    method Poll(data: seq<byte>)
      requires Valid()
      requires |data| == FrequencyBinCount
      modifies this
      ensures Valid() && polls == old(polls) + [data]
      ensures Peak(maxDecibel, maxBin) == Scan(old(Peak(maxDecibel, maxBin)), data)
    {
      ghost var start := Peak(maxDecibel, maxBin);
      for i := 0 to FrequencyBinCount
        invariant Peak(maxDecibel, maxBin) == Scan(start, data[..i])
        invariant polls == old(polls)
      {
        assert data[..i + 1][..i] == data[..i];
        var decibel := data[i] as int;
        if decibel > maxDecibel {
          maxDecibel := decibel;
          maxBin := i;
        }
      }
      assert data[..FrequencyBinCount] == data;
      polls := polls + [data];
      assert polls[..|polls| - 1] == old(polls);
    }
  }
}
