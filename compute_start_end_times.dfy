/** Performance-span detection over per-frame class activations
    (scripts/compute_start_end_times.py). */
module StartEndTimes {

  import Metadata

  /** The three channels of the frame classifier, in the order the source
      stacks them: speech = 0, applause = 1, music = 2. */
  datatype ClassLabel = Speech | Applause | Music

  function Index(c: ClassLabel): nat {
    match c
    case Speech => 0
    case Applause => 1
    case Music => 2
  }

  /** One frame of a class-activation table. The source keeps three parallel
      arrays; frame i is the i-th entry of each. */
  datatype Frame = Frame(speech: real, applause: real, music: real)

  function Confidence(f: Frame, c: ClassLabel): real {
    match c
    case Speech => f.speech
    case Applause => f.applause
    case Music => f.music
  }

  /** `c` is what an argmax over (speech, applause, music) returns: a maximum,
      and the first index that reaches it. */
  ghost predicate IsFirstArgmax(f: Frame, c: ClassLabel) {
    && (forall k :: Confidence(f, k) <= Confidence(f, c))
    && (forall k :: Index(k) < Index(c) ==> Confidence(f, k) < Confidence(f, c))
  }

  /** The dominant class of one frame. */
  function DominantClass(f: Frame): (c: ClassLabel)
    ensures IsFirstArgmax(f, c)
  {
    if f.speech >= f.applause && f.speech >= f.music then Speech
    else if f.applause >= f.music then Applause
    else Music
  }

  /** max_class_vector: the dominant class of every frame. */
  function MaxClassVector(frames: seq<Frame>): (labels: seq<ClassLabel>)
    ensures |labels| == |frames|
    ensures forall i :: 0 <= i < |frames| ==> IsFirstArgmax(frames[i], labels[i])
  {
    seq(|frames|, i requires 0 <= i < |frames| => DominantClass(frames[i]))
  }

  /** The argmax characterisation pins the label down: on a tie speech beats
      applause and music, and applause beats music. */
  lemma FirstArgmaxUnique(f: Frame, a: ClassLabel, b: ClassLabel)
    requires IsFirstArgmax(f, a) && IsFirstArgmax(f, b)
    ensures a == b
  {
    assert Confidence(f, b) <= Confidence(f, a) && Confidence(f, a) <= Confidence(f, b);
    assert Index(a) == Index(b);
  }

  /** The two-branch inclusion rule: a music-dominated frame tolerates some
      applause and speech, any other frame must be nearly silent on both. */
  predicate Clean(f: Frame) {
    var dominant := DominantClass(f);
    (dominant == Music && f.applause < 0.4 && f.speech < 0.5)
    || (dominant != Music && f.applause < 0.1 && f.speech < 0.1)
  }

  /** frames[start .. start + len] is a contiguous run of clean frames. */
  ghost predicate IsCleanRun(frames: seq<Frame>, start: int, len: int) {
    && 0 <= start && 0 <= len && start + len <= |frames|
    && forall i :: start <= i < start + len ==> Clean(frames[i])
  }

  /** What longest_clean_section promises: the longest run of clean frames,
      the leftmost one among runs of that length, or (-1, 0) when no frame
      is clean. */
  ghost predicate IsLongestCleanSection(frames: seq<Frame>, start: int, len: int) {
    && (len == 0 ==> start == -1 && forall i :: 0 <= i < |frames| ==> !Clean(frames[i]))
    && (len > 0 ==> IsCleanRun(frames, start, len))
    && (forall s, l :: IsCleanRun(frames, s, l) ==> l <= len)
    && (forall s :: 0 <= s < start ==> !IsCleanRun(frames, s, len))
  }

  /** `start` is the left edge of a maximal run: it is the first frame, or
      the frame before it is unclean. */
  ghost predicate StartsRun(frames: seq<Frame>, start: int) {
    0 <= start <= |frames| && (start == 0 || !Clean(frames[start - 1]))
  }

  /** (maxStart, maxRun) is the longest clean run among those that end by
      frame `end`, the leftmost of that length, or (-1, 0) if there is none. */
  ghost predicate BestBefore(frames: seq<Frame>, end: int, maxStart: int, maxRun: int) {
    && (maxRun == 0 ==> maxStart == -1)
    && (maxRun > 0 ==> IsCleanRun(frames, maxStart, maxRun) && maxStart + maxRun <= end)
    && (forall s, l :: IsCleanRun(frames, s, l) && s + l <= end ==> l <= maxRun)
    && (forall s :: 0 <= s < maxStart ==> !IsCleanRun(frames, s, maxRun))
  }

  /** The scan's state after frames 0 .. i-1: the open run is the cur
      frames before frame i (none when curStart is -1), and the best run
      is the best among the runs that ended before the open one. */
  ghost predicate ScanState(frames: seq<Frame>, i: int, cur: int, curStart: int, maxStart: int, maxRun: int) {
    && 0 <= cur <= i <= |frames|
    && (curStart == -1 <==> cur == 0)
    && (cur > 0 ==> curStart == i - cur && StartsRun(frames, curStart) && IsCleanRun(frames, curStart, cur))
    && (cur == 0 ==> i == 0 || !Clean(frames[i - 1]))
    && BestBefore(frames, i - cur, maxStart, maxRun)
  }

  /** A clean frame extends the open run, or opens one. */
  lemma ExtendRun(frames: seq<Frame>, i: int, cur: int, curStart: int, maxStart: int, maxRun: int)
    requires ScanState(frames, i, cur, curStart, maxStart, maxRun)
    requires i < |frames| && Clean(frames[i])
    ensures ScanState(frames, i + 1, cur + 1, if cur == 0 then i else curStart, maxStart, maxRun)
  {
  }

  /** Closing the open run at frame `end` (an unclean frame, or the end of
      the table) makes it the best run when it is strictly longer. */
  lemma CloseRun(frames: seq<Frame>, end: int, cur: int, curStart: int, maxStart: int, maxRun: int)
    requires ScanState(frames, end, cur, curStart, maxStart, maxRun)
    requires end == |frames| || !Clean(frames[end])
    ensures var (ms, mr) := if cur > maxRun then (curStart, cur) else (maxStart, maxRun);
      BestBefore(frames, if end < |frames| then end + 1 else end, ms, mr)
  {
  }

  /** The best run over the whole table is the longest clean section. */
  lemma BestIsLongest(frames: seq<Frame>, maxStart: int, maxRun: int)
    requires BestBefore(frames, |frames|, maxStart, maxRun)
    ensures maxStart >= -1 && maxRun >= 0
    ensures maxRun > 0 ==> 0 <= maxStart && maxStart + maxRun <= |frames|
    ensures IsLongestCleanSection(frames, maxStart, maxRun)
  {
    assert IsCleanRun(frames, 0, 0);
    if maxRun == 0 {
      forall i | 0 <= i < |frames|
        ensures !Clean(frames[i])
      {
        assert !IsCleanRun(frames, i, 1);
      }
    }
  }

  /** longest_clean_section: one left-to-right scan. */
  method LongestCleanSection(frames: seq<Frame>) returns (maxStart: int, maxRun: int)
    ensures maxStart >= -1 && maxRun >= 0
    ensures maxRun > 0 ==> 0 <= maxStart && maxStart + maxRun <= |frames|
    ensures IsLongestCleanSection(frames, maxStart, maxRun)
  {
    var labels := MaxClassVector(frames);
    maxRun := 0;
    var cur := 0;
    var curStart := -1;
    maxStart := -1;
    for i := 0 to |labels|
      invariant ScanState(frames, i, cur, curStart, maxStart, maxRun)
    {
      var x := labels[i];
      assert x == DominantClass(frames[i]) by {
        FirstArgmaxUnique(frames[i], x, DominantClass(frames[i]));
      }
      if (x == Music && frames[i].applause < 0.4 && frames[i].speech < 0.5)
         || (x != Music && frames[i].applause < 0.1 && frames[i].speech < 0.1)
      {
        ExtendRun(frames, i, cur, curStart, maxStart, maxRun);
        cur := cur + 1;
        if curStart == -1 {
          curStart := i;
        }
      } else {
        CloseRun(frames, i, cur, curStart, maxStart, maxRun);
        if cur > maxRun {
          maxRun := cur;
          maxStart := curStart;
        }
        cur := 0;
        curStart := -1;
      }
    }
    CloseRun(frames, |frames|, cur, curStart, maxStart, maxRun);
    if cur > maxRun {
      maxRun := cur;
      maxStart := curStart;
    }
    BestIsLongest(frames, maxStart, maxRun);
  }

  /** There is only one answer: the specification fixes both the start and
      the length. */
  lemma LongestCleanSectionUnique(frames: seq<Frame>, s1: int, l1: int, s2: int, l2: int)
    requires IsLongestCleanSection(frames, s1, l1) && IsLongestCleanSection(frames, s2, l2)
    ensures s1 == s2 && l1 == l2
  {
    assert IsCleanRun(frames, 0, 0);
    if l1 > 0 {
      assert IsCleanRun(frames, s1, l1);
      assert l1 <= l2;
    }
    if l2 > 0 {
      assert IsCleanRun(frames, s2, l2);
      assert l2 <= l1;
    }
    if l1 > 0 {
      // each start is a clean run of the other's length, so neither is
      // left of the other
      assert IsCleanRun(frames, s1, l2) && IsCleanRun(frames, s2, l1);
    }
  }

  /** A table with no clean frame, the empty table included, gives (-1, 0). */
  lemma NoCleanFrame(frames: seq<Frame>)
    requires forall i :: 0 <= i < |frames| ==> !Clean(frames[i])
    ensures IsLongestCleanSection(frames, -1, 0)
  {
    forall s, l | 0 <= s && 0 < l && s + l <= |frames|
      ensures !IsCleanRun(frames, s, l)
    {
      assert !Clean(frames[s]);
    }
  }

  /** A table whose every frame is clean gives (0, N). */
  lemma AllFramesClean(frames: seq<Frame>)
    requires |frames| > 0
    requires forall i :: 0 <= i < |frames| ==> Clean(frames[i])
    ensures IsLongestCleanSection(frames, 0, |frames|)
  {
  }

  /** A frame the detector always keeps and one it always drops. */
  const QuietMusic := Frame(0.0, 0.0, 1.0)
  const Applauding := Frame(0.0, 0.8, 0.2)

  /** Two maximal clean runs of length 2, at 0 and at 3: the earlier wins. */
  lemma EarlierRunWinsExample()
    ensures IsLongestCleanSection(
              [QuietMusic, QuietMusic, Applauding, QuietMusic, QuietMusic, Applauding], 0, 2)
  {
    var frames := [QuietMusic, QuietMusic, Applauding, QuietMusic, QuietMusic, Applauding];
    assert !Clean(frames[2]) && !Clean(frames[5]);
    forall s, l | 0 <= s && 2 < l && s + l <= |frames|
      ensures !IsCleanRun(frames, s, l)
    {
      if s <= 2 {
        assert !Clean(frames[2]);
      } else {
        assert !Clean(frames[5]);
      }
    }
  }

  /** A clean run at the end of the table is closed by the final comparison. */
  lemma TrailingRunExample()
    ensures IsLongestCleanSection([Applauding, Applauding, QuietMusic, QuietMusic, QuietMusic], 2, 3)
  {
    var frames := [Applauding, Applauding, QuietMusic, QuietMusic, QuietMusic];
    assert !Clean(frames[1]);
    forall s, l | 0 <= s < 2 && 3 <= l && s + l <= |frames|
      ensures !IsCleanRun(frames, s, l)
    {
      assert !Clean(frames[1]);
    }
  }

  /** The clean rule for a frame whose argmax is music: applause below 0.4
      and speech below 0.5, whatever the three confidences are otherwise. */
  lemma MusicFrameRule(f: Frame)
    requires IsFirstArgmax(f, Music)
    ensures Clean(f) <==> f.applause < 0.4 && f.speech < 0.5
  {
    FirstArgmaxUnique(f, Music, DominantClass(f));
  }

  /** The clean rule for a frame whose argmax is speech or applause: both
      below 0.1, whatever its music confidence. */
  lemma OtherFrameRule(f: Frame)
    requires !IsFirstArgmax(f, Music)
    ensures Clean(f) <==> f.applause < 0.1 && f.speech < 0.1
  {
  }

  /** The thresholds of the music branch are strict: applause 0.39 with
      speech 0.49 is kept, applause 0.4 is not. */
  lemma MusicThresholdsAreStrict()
    ensures Clean(Frame(0.49, 0.39, 0.9))
    ensures !Clean(Frame(0.49, 0.4, 0.9))
    ensures !Clean(Frame(0.5, 0.39, 0.9))
  {
  }

  /** Outside the music branch both confidences must stay under 0.1. */
  lemma OtherThresholds()
    ensures Clean(Frame(0.09, 0.09, 0.0))
    ensures !Clean(Frame(0.1, 0.09, 0.0))
    ensures !Clean(Frame(0.6, 0.0, 0.3))
  {
  }

  /** The root of the class-activation table's keys, as path components. */
  const ResampledRoot: seq<string> := ["/", "import", "c4dm-datasets", "PiJAMA", "data", "resampled"]

  /** The components a path keeps once its first two are discarded. */
  function KeptComponents(parts: seq<string>): seq<string> {
    if |parts| <= 2 then [] else parts[2..]
  }

  /** audio_path_to_dict_key over path components: the fixed root followed
      by the path's components from the third one on. */
  function AudioPathToDictKey(parts: seq<string>): (key: seq<string>)
    ensures |key| == |ResampledRoot| + (if |parts| <= 2 then 0 else |parts| - 2)
    ensures key[..|ResampledRoot|] == ResampledRoot
    ensures forall i :: 2 <= i < |parts| ==> key[|ResampledRoot| + i - 2] == parts[i]
  {
    ResampledRoot + KeptComponents(parts)
  }

  /** Two paths share a key exactly when they agree from the third
      component on. */
  lemma SameKeyIffSameTail(p: seq<string>, q: seq<string>)
    ensures AudioPathToDictKey(p) == AudioPathToDictKey(q) <==> KeptComponents(p) == KeptComponents(q)
  {
  }

  /** The first two components never matter. */
  lemma FirstTwoDiscarded(p: seq<string>, a: string, b: string)
    requires |p| >= 2
    ensures AudioPathToDictKey([a, b] + p[2..]) == AudioPathToDictKey(p)
  {
  }

  /** The track's performance bounds are the frame bounds of the longest
      clean section of the given activation table. */
  ghost predicate HasCleanSection(t: Metadata.Track, frames: seq<Frame>)
    reads t
  {
    exists s: int, l: int :: IsLongestCleanSection(frames, s, l)
      && t.performanceStartSec == Metadata.Some(s as real)
      && t.performanceEndSec == Metadata.Some((s + l) as real)
  }

  /** The body of the main loop for a track whose key is in the table. */
  method SetPerformanceBounds(t: Metadata.Track, frames: seq<Frame>) returns (start: int, length: int)
    modifies t`performanceStartSec, t`performanceEndSec
    ensures IsLongestCleanSection(frames, start, length)
    ensures t.performanceStartSec == Metadata.Some(start as real)
    ensures t.performanceEndSec == Metadata.Some((start + length) as real)
    ensures HasCleanSection(t, frames)
    ensures t.PerformanceDurationSec() == length as real
  {
    start, length := LongestCleanSection(frames);
    t.performanceStartSec := Metadata.Some(start as real);
    t.performanceEndSec := Metadata.Some((start + length) as real);
  }

  predicate Found(t: Metadata.Track, scores: map<seq<string>, seq<Frame>>) {
    AudioPathToDictKey(t.mp3Filepath) in scores
  }

  /** The durations of the first n tracks whose key is in the table. */
  function FoundDuration(ts: seq<Metadata.Track>, scores: map<seq<string>, seq<Frame>>, n: nat): (total: real)
    requires n <= |ts|
    ensures (forall j :: 0 <= j < n ==> ts[j].durationSec >= 0.0) ==>
              0.0 <= total <= Metadata.SumRange(Metadata.Durations(ts), 0, n)
    ensures (forall j :: 0 <= j < n ==> Found(ts[j], scores)) ==>
              total == Metadata.SumRange(Metadata.Durations(ts), 0, n)
  {
    if n == 0 then 0.0
    else FoundDuration(ts, scores, n - 1) + (if Found(ts[n - 1], scores) then ts[n - 1].durationSec else 0.0)
  }

  /** The performance durations of the first n tracks whose key is in the
      table. */
  ghost function FoundPerformance(ts: seq<Metadata.Track>, scores: map<seq<string>, seq<Frame>>, n: nat): real
    requires n <= |ts|
    reads set j | 0 <= j < n :: ts[j]
  {
    if n == 0 then 0.0
    else FoundPerformance(ts, scores, n - 1)
         + (if Found(ts[n - 1], scores) then ts[n - 1].PerformanceDurationSec() else 0.0)
  }

  /** Every one of the first n tracks whose key is in the table has the
      bounds of the longest clean section of its activations. */
  ghost predicate BoundsSet(ts: seq<Metadata.Track>, scores: map<seq<string>, seq<Frame>>, n: nat)
    requires n <= |ts|
    reads set j | 0 <= j < n :: ts[j]
  {
    n > 0 ==>
      && BoundsSet(ts, scores, n - 1)
      && (Found(ts[n - 1], scores) ==>
            HasCleanSection(ts[n - 1], scores[AudioPathToDictKey(ts[n - 1].mp3Filepath)]))
  }

  lemma {:induction false} BoundsSetAll(ts: seq<Metadata.Track>, scores: map<seq<string>, seq<Frame>>, n: nat)
    requires n <= |ts| && BoundsSet(ts, scores, n)
    ensures forall j :: 0 <= j < n && Found(ts[j], scores) ==>
              HasCleanSection(ts[j], scores[AudioPathToDictKey(ts[j].mp3Filepath)])
  {
    if n > 0 {
      BoundsSetAll(ts, scores, n - 1);
    }
  }

  /** The body of the main loop for the i-th track: look its activations
      up, and when they are there set its bounds. Tracks before it keep
      theirs. */
  method UpdateTrack(tracks: seq<Metadata.Track>, i: nat, t: Metadata.Track, scores: map<seq<string>, seq<Frame>>)
    returns (found: bool, length: int)
    requires i < |tracks| && t == tracks[i] && Metadata.Distinct(tracks)
    modifies t`performanceStartSec, t`performanceEndSec
    ensures found == Found(t, scores)
    ensures found ==> HasCleanSection(t, scores[AudioPathToDictKey(t.mp3Filepath)])
    ensures found ==> t.PerformanceDurationSec() == length as real
    ensures !found ==> unchanged(t)
    ensures BoundsSet(tracks, scores, i) == old(BoundsSet(tracks, scores, i))
    ensures FoundPerformance(tracks, scores, i) == old(FoundPerformance(tracks, scores, i))
  {
    var k := AudioPathToDictKey(t.mp3Filepath);
    if k !in scores {
      return false, 0;
    }
    assert forall j :: 0 <= j < i ==> tracks[j] != t;
    var start: int;
    start, length := SetPerformanceBounds(t, scores[k]);
    found := true;
  }

  /** The main loop: every track with class activations gets the bounds of
      its longest clean section; the others are skipped and keep theirs. The
      two totals cover the tracks that were not skipped. */
  method UpdatePerformanceBounds(tracks: seq<Metadata.Track>, scores: map<seq<string>, seq<Frame>>)
    returns (totalDuration: real, totalPerformanceDuration: int)
    requires Metadata.Distinct(tracks)
    modifies set j | 0 <= j < |tracks| :: tracks[j]`performanceStartSec
    modifies set j | 0 <= j < |tracks| :: tracks[j]`performanceEndSec
    ensures forall j :: 0 <= j < |tracks| && Found(tracks[j], scores) ==>
              HasCleanSection(tracks[j], scores[AudioPathToDictKey(tracks[j].mp3Filepath)])
    ensures forall j :: 0 <= j < |tracks| && !Found(tracks[j], scores) ==>
              && tracks[j].performanceStartSec == old(tracks[j].performanceStartSec)
              && tracks[j].performanceEndSec == old(tracks[j].performanceEndSec)
    ensures totalDuration == FoundDuration(tracks, scores, |tracks|)
    ensures totalPerformanceDuration as real == FoundPerformance(tracks, scores, |tracks|)
  {
    totalDuration := 0.0;
    totalPerformanceDuration := 0;
    for i := 0 to |tracks|
      invariant BoundsSet(tracks, scores, i)
      invariant forall j :: 0 <= j < |tracks| && (i <= j || !Found(tracks[j], scores)) ==>
                  && tracks[j].performanceStartSec == old(tracks[j].performanceStartSec)
                  && tracks[j].performanceEndSec == old(tracks[j].performanceEndSec)
      invariant totalDuration == FoundDuration(tracks, scores, i)
      invariant totalPerformanceDuration as real == FoundPerformance(tracks, scores, i)
    {
      var found, length := UpdateTrack(tracks, i, tracks[i], scores);
      if found {
        totalDuration := totalDuration + tracks[i].durationSec;
        totalPerformanceDuration := totalPerformanceDuration + length;
      }
    }
    BoundsSetAll(tracks, scores, |tracks|);
  }
}
