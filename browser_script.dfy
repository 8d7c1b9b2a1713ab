/** js/index.js: getMusicalNote with ceiling rounding, its note-lookup
    handler, and the acoustic capture that reports the strongest bin. */
module BrowserScript {
  import opened Wrappers
  import opened Numerals
  import opened NoteParsing
  import opened Chromatic
  import opened PeakTracking

  /** getMusicalNote, for a frequency given by its distance in semitones from
      A4 = 440 Hz (12 * log2(frequency / 440)): `Math.ceil` of that distance
      plus 57 is the note number. */
  function GetMusicalNote(semitones: real): NoteOutput {
    DescribeNoteNumber(Ceil(semitones) + RefNoteNumber)
  }

  /** handleGetMusicalNote: getMusicalNote then parseMusicalNote. It fails
      exactly when the note number is negative and not a multiple of 12;
      otherwise it yields a scale symbol and an octave that together give the
      note number back. */
  function HandleGetMusicalNote(semitones: real): (r: Result<ParsedNote, NoteError>)
    ensures var n := Ceil(semitones) + 57;
      && (r.Failure? <==> n < 0 && n % 12 != 0)
      && (r.Success? ==> r.value.note in CromaticScale && 12 * r.value.acousticIndex + IndexOf(r.value.note) == n)
  {
    DescribeThenParse(Ceil(semitones) + RefNoteNumber);
    ParseNoteOutput(GetMusicalNote(semitones))
  }

  /** A whole number m of semitones from A4 is note number 57 + m. */
  lemma WholeSemitoneNote(m: int)
    ensures GetMusicalNote(m as real) == DescribeNoteNumber(RefNoteNumber + m)
  {
    var c := Ceil(m as real);
    WholeSemitones(m);
    assert c == m;
    var n := c + RefNoteNumber;
    assert GetMusicalNote(m as real) == DescribeNoteNumber(n);
  }

  /** Round trip with the 440 Hz reference: the semitone count that
      calculateFrequency gives for a scale symbol and a one-digit octave leads
      getMusicalNote back to the same note text. */
  lemma NoteRoundTrip(k: int, d: int)
    requires 0 <= k < |CromaticScale| && 0 <= d < 10
    ensures CalculateFrequency(CromaticScale[k] + [DigitChar(d)]).Scaled?
    ensures GetMusicalNote(CalculateFrequency(CromaticScale[k] + [DigitChar(d)]).semitones as real)
            == Text(CromaticScale[k] + [DigitChar(d)])
  {
    var offset := SemitoneOffset(k, d);
    CalculateFrequencyOfNote(k, d);
    WholeSemitoneNote(offset);
    DescribeOffset(k, d, RefNoteNumber + offset);
    IntToStringOfDigit(d);
  }

  /** getMusicalNote always measures from 440 Hz. A note computed forward from
      a reference a whole number d != 0 of semitones away from 440 Hz reaches
      it as offset + d semitones, and comes back as a different note. */
  lemma ForeignReferenceNotRecovered(k: int, o: int, d: int)
    requires 0 <= k < |CromaticScale| && o >= 0 && d != 0
    ensures GetMusicalNote((SemitoneOffset(k, o) + d) as real) != Text(CromaticScale[k] + IntToString(o))
  {
    var x := SemitoneOffset(k, o) + d;
    WholeSemitoneNote(x);
    DescribeShifted(k, o, RefNoteNumber + x);
  }

  /** What acousticSoundToHertz shows: the strongest magnitude, its bin, and
      the note of its frequency; or the error text when a step throws. */
  datatype AcousticReport = Report(decibel: int, bin: nat, note: string, acousticIndex: int) | CaptureFailed

  /** acousticSoundToHertz after the microphone is opened: polls the
      analyser once per snapshot, then names the note of the peak bin. Bin b
      lies at `b * sampleRate / fftSize` Hz, rounded by toFixed(2); for b > 0,
      semitonesOf(b) is that frequency's distance in semitones from 440 Hz
      (sampleRate comes from the audio device). Bin 0 is 0 Hz: `Math.log2`
      gives -Infinity, getMusicalNote returns NaN, `.match` throws, and the
      catch block shows the error text. */
  method AcousticSoundToHertz(snapshots: seq<seq<byte>>, semitonesOf: nat -> real) returns (r: AcousticReport)
    requires |snapshots| > 0
    requires forall q :: 0 <= q < |snapshots| ==> |snapshots[q]| == FrequencyBinCount
    ensures var bin := Track(snapshots).bin;
      r.CaptureFailed? <==> bin == 0 || HandleGetMusicalNote(semitonesOf(bin)).Failure?
    ensures r.Report? ==> Peak(r.decibel, r.bin) == Track(snapshots) && 0 < r.bin < FrequencyBinCount
    ensures r.Report? ==> HandleGetMusicalNote(semitonesOf(r.bin)) == Success(ParsedNote(r.note, r.acousticIndex))
    ensures (forall q, j :: 0 <= q < |snapshots| && 0 <= j < |snapshots[q]| ==> snapshots[q][j] == 0) ==> r.CaptureFailed?
  {
    var tracker := new StrongestBinTracker();
    for q := 0 to |snapshots|
      invariant tracker.Valid() && tracker.polls == snapshots[..q]
    {
      tracker.Poll(snapshots[q]);
      assert snapshots[..q + 1] == snapshots[..q] + [snapshots[q]];
    }
    assert snapshots[..|snapshots|] == snapshots;
    TrackBinInRange(snapshots);
    if forall q, j :: 0 <= q < |snapshots| && 0 <= j < |snapshots[q]| ==> snapshots[q][j] == 0 {
      SilenceStaysAtBinZero(snapshots);
    }
    if tracker.maxBin == 0 {
      r := CaptureFailed;
    } else {
      match HandleGetMusicalNote(semitonesOf(tracker.maxBin))
      case Failure(_) =>
        r := CaptureFailed;
      case Success(parsed) =>
        r := Report(tracker.maxDecibel, tracker.maxBin, parsed.note, parsed.acousticIndex);
    }
  }
}
