/** Track records and the random dataset split (scripts/metadata.py). */
module Metadata {

  datatype Option<T> = None | Some(value: T)

  datatype Result<T, E> = Success(value: T) | Failure(error: E)

  /** The dataset partitions, in the order the assigner fills them. */
  datatype Split = Train | Test | Val

  function Rank(s: Split): nat {
    match s
    case Train => 0
    case Test => 1
    case Val => 2
  }

  /** Python's truth test on an optional number: None and zero are false. */
  predicate IsFalsy(x: Option<real>) {
    x == None || x == Some(0.0)
  }

  /** A piano performance. The descriptive fields never change once the
      record is built; the performance bounds and the split label are
      updated in place. The audio path is kept as its list of components. */
  class Track {
    const title: string
    const artist: string
    const album: string
    const recordingCondition: string
    const midiFilepath: Option<string>
    const mp3Filepath: seq<string>
    const youtubeUrl: string
    const durationSec: real
    var performanceStartSec: Option<real>
    var performanceEndSec: Option<real>
    var split: Option<Split>

    /** The end of the performance defaults to the whole track when the
        argument is missing or zero. */
    constructor (title: string, artist: string, album: string, recordingCondition: string,
                 midiFilepath: Option<string>, mp3Filepath: seq<string>, youtubeUrl: string,
                 durationSec: real, performanceStartSec: Option<real> := Some(0.0),
                 performanceEndSec: Option<real> := None, split: Option<Split> := None)
      ensures this.title == title && this.artist == artist && this.album == album
      ensures this.recordingCondition == recordingCondition
      ensures this.midiFilepath == midiFilepath && this.mp3Filepath == mp3Filepath
      ensures this.youtubeUrl == youtubeUrl && this.durationSec == durationSec
      ensures this.performanceStartSec == performanceStartSec
      ensures IsFalsy(performanceEndSec) ==> this.performanceEndSec == Some(durationSec)
      ensures !IsFalsy(performanceEndSec) ==> this.performanceEndSec == performanceEndSec
      ensures this.split == split
      ensures performanceStartSec == Some(0.0) && IsFalsy(performanceEndSec) ==>
                PerformanceDurationSec() == durationSec
    {
      this.title := title;
      this.artist := artist;
      this.album := album;
      this.recordingCondition := recordingCondition;
      this.midiFilepath := midiFilepath;
      this.mp3Filepath := mp3Filepath;
      this.youtubeUrl := youtubeUrl;
      this.durationSec := durationSec;
      this.performanceStartSec := performanceStartSec;
      this.performanceEndSec := if IsFalsy(performanceEndSec) then Some(durationSec) else performanceEndSec;
      this.split := split;
    }

    /** Length of the performance: the distance between its bounds, or the
        whole track when a bound is unknown. */
    function PerformanceDurationSec(): (d: real)
      reads this
      ensures performanceStartSec.Some? && performanceEndSec.Some? ==>
                performanceStartSec.value + d == performanceEndSec.value
      ensures performanceStartSec.None? || performanceEndSec.None? ==> d == durationSec
    {
      if performanceEndSec.None? || performanceStartSec.None? then durationSec
      else performanceEndSec.value - performanceStartSec.value
    }
  }

  /** The running total d[lo] + ... + d[hi - 1], added left to right as
      Python's sum and the assigner's accumulators do. */
  function SumRange(d: seq<real>, lo: nat, hi: nat): real
    requires lo <= hi <= |d|
    decreases hi - lo
  {
    if lo == hi then 0.0 else SumRange(d, lo, hi - 1) + d[hi - 1]
  }

  /** Python's sum: the running total of the whole list, from 0. */
  function Sum(s: seq<real>): (r: real)
    ensures |s| == 3 ==> r == s[0] + s[1] + s[2]
  {
    SumRange(s, 0, |s|)
  }

  function Durations(tracks: seq<Track>): (d: seq<real>)
    ensures |d| == |tracks|
    ensures forall i :: 0 <= i < |tracks| ==> d[i] == tracks[i].durationSec
  {
    seq(|tracks|, i requires 0 <= i < |tracks| => tracks[i].durationSec)
  }

  predicate Distinct<T(==)>(s: seq<T>) {
    forall i, j :: 0 <= i < j < |s| ==> s[i] != s[j]
  }

  /** The split_ratios argument as the caller passed it: whether it is a
      tuple, and its items. */
  datatype SplitRatios = SplitRatios(isTuple: bool, items: seq<real>)

  /** The two configuration errors (both raised as TypeError). */
  datatype SplitError = NotATuple | NotThreeSummingToOne

  /** The ratios assign_random_splits uses when the caller gives none. */
  const DefaultSplitRatios := SplitRatios(true, [0.8, 0.1, 0.1])

  /** The default ratios pass validation: 80% train and 10% test by
      duration, the rest val. */
  lemma DefaultSplitRatiosValid()
    ensures CheckSplitRatios(DefaultSplitRatios) == Success((0.8, 0.1))
  {
  }

  /** Validation of split_ratios; on success, the train and test ratios. */
  function CheckSplitRatios(ratios: SplitRatios): (r: Result<(real, real), SplitError>)
    ensures r.Success? <==>
              ratios.isTuple && |ratios.items| == 3
              && ratios.items[0] + ratios.items[1] + ratios.items[2] == 1.0
    ensures !ratios.isTuple ==> r == Failure(NotATuple)
    ensures r.Success? ==> r.value == (ratios.items[0], ratios.items[1])
  {
    if !ratios.isTuple then Failure(NotATuple)
    else if |ratios.items| != 3 then Failure(NotThreeSummingToOne)
    else if Sum(ratios.items) != 1.0 then Failure(NotThreeSummingToOne)
      else Success((ratios.items[0], ratios.items[1]))
  }

  /** The first index r at or after k where the running total of d[base..r]
      exceeds the limit, or |d| if it never does. */
  function FirstOver(d: seq<real>, base: nat, k: nat, limit: real): (r: nat)
    requires base <= k <= |d|
    ensures k <= r <= |d|
    ensures forall j :: k <= j < r ==> SumRange(d, base, j) <= limit
    ensures r < |d| ==> SumRange(d, base, r) > limit
    decreases |d| - k
  {
    if k == |d| || SumRange(d, base, k) > limit then k else FirstOver(d, base, k + 1, limit)
  }

  /** The boundary track: the first whose preceding train total is over the
      train limit. Every track before it is train. */
  function TrainEnd(d: seq<real>, trainLimit: real): nat {
    FirstOver(d, 0, 0, trainLimit)
  }

  /** The first val track. The test total starts with the boundary track's
      own duration. */
  function TestEnd(d: seq<real>, trainLimit: real, testLimit: real): (r: nat)
    ensures TrainEnd(d, trainLimit) <= r <= |d|
    ensures TrainEnd(d, trainLimit) < |d| ==> TrainEnd(d, trainLimit) < r
  {
    var b := TrainEnd(d, trainLimit);
    if b == |d| then |d| else FirstOver(d, b, b + 1, testLimit)
  }

  /** The labels the three passes give to tracks of durations d, in order. */
  function SplitLabels(d: seq<real>, trainLimit: real, testLimit: real): (labels: seq<Split>)
    ensures |labels| == |d|
  {
    var b, e := TrainEnd(d, trainLimit), TestEnd(d, trainLimit, testLimit);
    seq(|d|, i requires 0 <= i < |d| => if i < b then Train else if i < e then Test else Val)
  }

  /** The labels read train*, then test*, then val*. */
  lemma SplitLabelsMonotone(d: seq<real>, trainLimit: real, testLimit: real, i: nat, j: nat)
    requires i <= j < |d|
    ensures Rank(SplitLabels(d, trainLimit, testLimit)[i]) <= Rank(SplitLabels(d, trainLimit, testLimit)[j])
  {
  }

  /** A track is train exactly when no train total before it, up to and
      including its own predecessors, went over the train limit. */
  lemma TrainIffWithinLimit(d: seq<real>, trainLimit: real, testLimit: real, i: nat)
    requires i < |d|
    ensures SplitLabels(d, trainLimit, testLimit)[i] == Train <==>
              forall j :: 0 <= j <= i ==> SumRange(d, 0, j) <= trainLimit
  {
    Boundaries(d, trainLimit, testLimit);
    var b := TrainEnd(d, trainLimit);
    if b <= i {
      assert SumRange(d, 0, b) > trainLimit;
    }
  }

  /** The first track whose preceding train total is over the limit opens
      the test split instead of closing the train split. */
  lemma BoundaryTrackIsTest(d: seq<real>, trainLimit: real, testLimit: real, i: nat)
    requires i < |d|
    requires SumRange(d, 0, i) > trainLimit
    requires forall j :: 0 <= j < i ==> SumRange(d, 0, j) <= trainLimit
    ensures SplitLabels(d, trainLimit, testLimit)[i] == Test
  {
  }

  /** Past the boundary track, a track is test exactly when no test total
      before it (the boundary track's duration included) went over the test
      limit. */
  lemma TestIffWithinLimit(d: seq<real>, trainLimit: real, testLimit: real, i: nat)
    requires TrainEnd(d, trainLimit) < i < |d|
    ensures SplitLabels(d, trainLimit, testLimit)[i] == Test <==>
              forall j :: TrainEnd(d, trainLimit) < j <= i ==> SumRange(d, TrainEnd(d, trainLimit), j) <= testLimit
  {
    var b, e := TrainEnd(d, trainLimit), TestEnd(d, trainLimit, testLimit);
    Boundaries(d, trainLimit, testLimit);
    if e <= i {
      assert SplitLabels(d, trainLimit, testLimit)[i] == Val;
      assert b < e <= i && SumRange(d, b, e) > testLimit;
    } else {
      assert SplitLabels(d, trainLimit, testLimit)[i] == Test;
    }
  }

  /** The split sizes overshoot their limits: whenever a test track exists,
      the train tracks together last longer than the train limit, though the
      train total before the last train track was within it. */
  lemma TrainSplitOvershoots(d: seq<real>, trainLimit: real, testLimit: real)
    requires exists i :: 0 <= i < |d| && SplitLabels(d, trainLimit, testLimit)[i] != Train
    ensures var b := TrainEnd(d, trainLimit);
      && b < |d|
      && SumRange(d, 0, b) > trainLimit
      && (b > 0 ==> SumRange(d, 0, b - 1) <= trainLimit)
  {
  }

  /** Durations 10, 10, 10, 10 with ratios (0.5, 0.25, 0.25): the limits
      are 20 and 10, and the fourth track, whose preceding train total of 30
      is the first over 20, becomes the only test track. */
  lemma FourEqualTracksExample()
    ensures SplitLabels([10.0, 10.0, 10.0, 10.0], 0.5 * 40.0, 0.25 * 40.0) == [Train, Train, Train, Test]
  {
    var d := [10.0, 10.0, 10.0, 10.0];
    assert SumRange(d, 0, 3) == 30.0;
    assert TrainEnd(d, 20.0) == 3;
  }

  /** `order` is a permutation of 0 .. n-1: the order a seeded shuffle
      puts the list in. */
  ghost predicate IsPermutation(order: seq<nat>, n: nat) {
    && |order| == n
    && (forall i :: 0 <= i < n ==> order[i] < n)
    && (forall i, j :: 0 <= i < j < n ==> order[i] != order[j])
    && (forall k :: 0 <= k < n ==> k in order)
  }

  /** The list rearranged so that position i holds the old element order[i]. */
  function Permuted<T>(s: seq<T>, order: seq<nat>): (r: seq<T>)
    requires forall i :: 0 <= i < |order| ==> order[i] < |s|
    ensures |r| == |order|
    ensures forall i :: 0 <= i < |order| ==> r[i] == s[order[i]]
  {
    seq(|order|, i requires 0 <= i < |order| => s[order[i]])
  }

  lemma PermutedAppend<T>(s: seq<T>, a: seq<nat>, b: seq<nat>)
    requires forall i :: 0 <= i < |a| ==> a[i] < |s|
    requires forall i :: 0 <= i < |b| ==> b[i] < |s|
    ensures Permuted(s, a + b) == Permuted(s, a) + Permuted(s, b)
  {
  }

  lemma PermutedPrefix<T>(s: seq<T>, a: seq<nat>, m: nat)
    requires m <= |s|
    requires forall i :: 0 <= i < |a| ==> a[i] < m
    ensures Permuted(s, a) == Permuted(s[..m], a)
  {
  }

  /** Taking the largest index out of a permutation of 0 .. m leaves a
      permutation of 0 .. m-1. */
  lemma RemoveLargest(order: seq<nat>, k: nat, m: nat)
    requires IsPermutation(order, m + 1) && k < |order| && order[k] == m
    ensures IsPermutation(order[..k] + order[k + 1..], m)
  {
    var rest := order[..k] + order[k + 1..];
    forall i | 0 <= i < |rest|
      ensures rest[i] < m
    {
      if i < k {
        assert rest[i] == order[i];
      } else {
        assert rest[i] == order[i + 1];
      }
    }
    forall j | 0 <= j < m
      ensures j in rest
    {
      assert j in order;
      var i :| 0 <= i < |order| && order[i] == j;
      if i < k {
        assert rest[i] == j;
      } else {
        assert rest[i - 1] == j;
      }
    }
  }

  /** Where the largest index sits in a permutation of 0 .. m, and what is
      left around it. */
  lemma PositionOfLargest(order: seq<nat>, m: nat) returns (k: nat)
    requires IsPermutation(order, m + 1)
    ensures k < |order| && order[k] == m
    ensures order == order[..k] + [m] + order[k + 1..]
    ensures IsPermutation(order[..k] + order[k + 1..], m)
    ensures forall i :: 0 <= i < k ==> order[i] < m
    ensures forall i :: k < i < |order| ==> order[i] < m
  {
    assert m in order;
    k :| 0 <= k < |order| && order[k] == m;
    RemoveLargest(order, k, m);
  }

  /** Rearranging around the last index splits into the two halves. */
  lemma PermutedAroundLast<T>(s: seq<T>, left: seq<nat>, right: seq<nat>)
    requires |s| > 0
    requires forall i :: 0 <= i < |left| ==> left[i] < |s| - 1
    requires forall i :: 0 <= i < |right| ==> right[i] < |s| - 1
    ensures Permuted(s, left + [|s| - 1] + right) == Permuted(s, left) + [s[|s| - 1]] + Permuted(s, right)
    ensures Permuted(s[..|s| - 1], left + right) == Permuted(s, left) + Permuted(s, right)
  {
    var m := |s| - 1;
    PermutedAppend(s, left + [m], right);
    PermutedAppend(s, left, [m]);
    PermutedAppend(s, left, right);
    PermutedPrefix(s, left + right, m);
  }

  /** The induction step: putting the last element back in between two
      halves that already rearrange the rest. */
  lemma PermutedInsertLast<T>(s: seq<T>, left: seq<nat>, right: seq<nat>)
    requires |s| > 0
    requires forall i :: 0 <= i < |left| ==> left[i] < |s| - 1
    requires forall i :: 0 <= i < |right| ==> right[i] < |s| - 1
    requires multiset(Permuted(s[..|s| - 1], left + right)) == multiset(s[..|s| - 1])
    ensures multiset(Permuted(s, left + [|s| - 1] + right)) == multiset(s)
  {
    var m := |s| - 1;
    PermutedAroundLast(s, left, right);
    var pl, pr := Permuted(s, left), Permuted(s, right);
    assert multiset(pl + [s[m]] + pr) == multiset(pl + pr) + multiset{s[m]};
    assert s == s[..m] + [s[m]];
  }

  /** Rearranging by a permutation keeps every element and its count. */
  lemma {:induction false} PermutedMultiset<T>(s: seq<T>, order: seq<nat>)
    requires IsPermutation(order, |s|)
    ensures multiset(Permuted(s, order)) == multiset(s)
  {
    if |s| > 0 {
      var m := |s| - 1;
      var k := PositionOfLargest(order, m);
      var left, right := order[..k], order[k + 1..];
      PermutedMultiset(s[..m], left + right);
      PermutedInsertLast(s, left, right);
    }
  }

  lemma PermutedDistinct<T>(s: seq<T>, order: seq<nat>)
    requires IsPermutation(order, |s|) && Distinct(s)
    ensures Distinct(Permuted(s, order))
  {
  }

  /** random.Random(seed).shuffle(tracks), with the generator's choice of
      order given as `order`. */
  method Shuffle(tracks: array<Track>, order: seq<nat>)
    requires IsPermutation(order, tracks.Length)
    modifies tracks
    ensures tracks[..] == Permuted(old(tracks[..]), order)
    ensures multiset(tracks[..]) == multiset(old(tracks[..]))
  {
    var before := tracks[..];
    forall i | 0 <= i < tracks.Length {
      tracks[i] := before[order[i]];
    }
    PermutedMultiset(before, order);
  }

  /** The facts about the two boundaries that the passes rely on. */
  lemma Boundaries(d: seq<real>, trainLimit: real, testLimit: real)
    ensures var b, e := TrainEnd(d, trainLimit), TestEnd(d, trainLimit, testLimit);
      && b <= e <= |d| && (b < |d| ==> b < e)
      && (forall j :: 0 <= j < b ==> SumRange(d, 0, j) <= trainLimit)
      && (b < |d| ==> SumRange(d, 0, b) > trainLimit)
      && (b < |d| ==> forall j :: b < j < e ==> SumRange(d, b, j) <= testLimit)
      && (b < |d| && e < |d| ==> SumRange(d, b, e) > testLimit)
      && (b == |d| ==> e == |d|)
      && forall j :: 0 <= j < |d| ==>
           SplitLabels(d, trainLimit, testLimit)[j] == if j < b then Train else if j < e then Test else Val
  {
  }

  /** The first pass: label train while the train total before the track is
      within the limit. The first track past it becomes test, its duration
      opens the test total, and the pass stops just after it. */
  method TrainPass(tracks: array<Track>, ghost d: seq<real>, ghost b: nat, trainDurationLimit: real)
    returns (i: nat, testDuration: real)
    requires Distinct(tracks[..]) && d == Durations(tracks[..])
    requires b <= tracks.Length
    requires forall j :: 0 <= j < b ==> SumRange(d, 0, j) <= trainDurationLimit
    requires b < tracks.Length ==> SumRange(d, 0, b) > trainDurationLimit
    modifies set j | 0 <= j < tracks.Length :: tracks[j]`split
    ensures i == (if b < tracks.Length then b + 1 else b)
    ensures testDuration == SumRange(d, b, i)
    ensures forall j :: 0 <= j < i ==> tracks[j].split == Some(if j < b then Train else Test)
    ensures forall j :: i <= j < tracks.Length ==> tracks[j].split == old(tracks[j].split)
  {
    ghost var ts := tracks[..];
    var n := tracks.Length;
    var trainDuration := 0.0;
    testDuration := 0.0;
    i := 0;
    while i < n
      invariant 0 <= i <= b
      invariant trainDuration == SumRange(d, 0, i) && testDuration == 0.0
      invariant forall j :: 0 <= j < i ==> ts[j].split == Some(Train)
      invariant forall j :: i <= j < n ==> ts[j].split == old(ts[j].split)
    {
      var track := tracks[i];
      assert forall j :: 0 <= j < n && j != i ==> ts[j] != track;
      i := i + 1;
      if trainDuration > trainDurationLimit {
        testDuration := testDuration + track.durationSec;
        track.split := Some(Test);
        return;
      }
      trainDuration := trainDuration + track.durationSec;
      track.split := Some(Train);
    }
  }

  /** The second pass, from position i0 on, with the test total so far:
      label test while the test total before the track is within the limit.
      The first track past it becomes val and the pass stops just after it. */
  method TestPass(tracks: array<Track>, ghost d: seq<real>, i0: nat, testDuration0: real,
                  ghost b: nat, ghost e: nat, testDurationLimit: real) returns (i: nat)
    requires Distinct(tracks[..]) && d == Durations(tracks[..])
    requires b <= i0 <= e <= tracks.Length
    requires testDuration0 == SumRange(d, b, i0)
    requires forall j :: i0 <= j < e ==> SumRange(d, b, j) <= testDurationLimit
    requires e < tracks.Length ==> SumRange(d, b, e) > testDurationLimit
    modifies set j | 0 <= j < tracks.Length :: tracks[j]`split
    ensures i == (if e < tracks.Length then e + 1 else e)
    ensures forall j :: i0 <= j < i ==> tracks[j].split == Some(if j < e then Test else Val)
    ensures forall j :: 0 <= j < i0 ==> tracks[j].split == old(tracks[j].split)
    ensures forall j :: i <= j < tracks.Length ==> tracks[j].split == old(tracks[j].split)
  {
    ghost var ts := tracks[..];
    var n := tracks.Length;
    var testDuration := testDuration0;
    i := i0;
    while i < n
      invariant i0 <= i <= e
      invariant testDuration == SumRange(d, b, i)
      invariant forall j :: 0 <= j < n ==> ts[j].split == if i0 <= j < i then Some(Test) else old(ts[j].split)
    {
      var track := tracks[i];
      assert forall j :: 0 <= j < n && j != i ==> ts[j] != track;
      assert SumRange(d, b, i + 1) == testDuration + track.durationSec;
      assert testDuration <= testDurationLimit ==> i < e;
      i := i + 1;
      if testDuration > testDurationLimit {
        track.split := Some(Val);
        return;
      }
      testDuration := testDuration + track.durationSec;
      track.split := Some(Test);
    }
  }

  /** The third pass: every remaining track is val. */
  method ValPass(tracks: array<Track>, i0: nat)
    requires Distinct(tracks[..])
    requires i0 <= tracks.Length
    modifies set j | 0 <= j < tracks.Length :: tracks[j]`split
    ensures forall j :: i0 <= j < tracks.Length ==> tracks[j].split == Some(Val)
    ensures forall j :: 0 <= j < i0 ==> tracks[j].split == old(tracks[j].split)
  {
    ghost var ts := tracks[..];
    var i := i0;
    while i < tracks.Length
      invariant i0 <= i <= tracks.Length
      invariant forall j :: i0 <= j < i ==> ts[j].split == Some(Val)
      invariant forall j :: 0 <= j < i0 ==> ts[j].split == old(ts[j].split)
    {
      var track := tracks[i];
      i := i + 1;
      track.split := Some(Val);
    }
  }

  /** The three passes of assign_random_splits over the shuffled list,
      sharing one position as the source shares one iterator. */
  method LabelInOrder(tracks: array<Track>, trainDurationLimit: real, testDurationLimit: real)
    requires Distinct(tracks[..])
    modifies set j | 0 <= j < tracks.Length :: tracks[j]`split
    ensures forall j :: 0 <= j < tracks.Length ==>
              tracks[j].split == Some(SplitLabels(Durations(tracks[..]), trainDurationLimit, testDurationLimit)[j])
  {
    ghost var d := Durations(tracks[..]);
    ghost var b := TrainEnd(d, trainDurationLimit);
    ghost var e := TestEnd(d, trainDurationLimit, testDurationLimit);
    Boundaries(d, trainDurationLimit, testDurationLimit);
    var i, testDuration := TrainPass(tracks, d, b, trainDurationLimit);
    i := TestPass(tracks, d, i, testDuration, b, e, testDurationLimit);
    ValPass(tracks, i);
    assert forall j :: 0 <= j < tracks.Length ==>
             tracks[j].split == Some(if j < b then Train else if j < e then Test else Val);
  }

  /** assign_random_splits: validate the ratios, shuffle in place, then label
      the tracks in three passes over one shared position. Returns the list
      it was given. */
  method AssignRandomSplits(tracks: array<Track>, order: seq<nat>, ratios: SplitRatios := DefaultSplitRatios)
    returns (result: Result<array<Track>, SplitError>)
    requires IsPermutation(order, tracks.Length)
    requires Distinct(tracks[..])
    modifies tracks, set j | 0 <= j < tracks.Length :: tracks[j]`split
    ensures CheckSplitRatios(ratios).Failure? ==>
              && result == Failure(CheckSplitRatios(ratios).error)
              && tracks[..] == old(tracks[..])
              && forall j :: 0 <= j < tracks.Length ==> tracks[j].split == old(tracks[j].split)
    ensures CheckSplitRatios(ratios).Success? ==>
              var total := Sum(Durations(old(tracks[..])));
              var trainLimit := CheckSplitRatios(ratios).value.0 * total;
              var testLimit := CheckSplitRatios(ratios).value.1 * total;
              && result == Success(tracks)
              && tracks[..] == Permuted(old(tracks[..]), order)
              && multiset(tracks[..]) == multiset(old(tracks[..]))
              && forall j :: 0 <= j < tracks.Length ==>
                   tracks[j].split == Some(SplitLabels(Durations(tracks[..]), trainLimit, testLimit)[j])
  {
    var checked := CheckSplitRatios(ratios);
    if checked.Failure? {
      return Failure(checked.error);
    }
    var (trainRatio, testRatio) := checked.value;

    var totalDuration := Sum(Durations(tracks[..]));
    var trainDurationLimit := trainRatio * totalDuration;
    var testDurationLimit := testRatio * totalDuration;
    assert trainDurationLimit == CheckSplitRatios(ratios).value.0 * Sum(Durations(old(tracks[..])));
    assert testDurationLimit == CheckSplitRatios(ratios).value.1 * Sum(Durations(old(tracks[..])));

    ghost var before := tracks[..];
    Shuffle(tracks, order);
    PermutedDistinct(before, order);
    LabelInOrder(tracks, trainDurationLimit, testDurationLimit);
    return Success(tracks);
  }
}
