# PiJAMA performance spans and dataset splits

PiJAMA is a dataset of solo jazz piano performances. This project models
two pieces of its tooling, with the properties they promise proved in Dafny.

- **Performance-span detection** (`StartEndTimes`, from
  `scripts/compute_start_end_times.py`). An audio classifier scores every
  frame of a recording for speech, applause and music. Each frame's
  dominant class is its first argmax. A frame is *clean* when one of two
  rules holds:
  - its dominant class is music, applause is below 0.4 and speech below 0.5;
  - its dominant class is anything else, and applause and speech are both below 0.1.

  The performance is the longest run of consecutive clean frames. Among
  runs of equal length the earliest wins, and `(-1, 0)` means there is no
  clean frame. The main loop looks up each track's class-activation table
  by a key derived from the track's audio path. It sets the track's
  performance bounds to the span it finds and adds up two totals: the
  duration and the performance duration of the tracks it found.
- **Track records and the random split** (`Metadata`, from
  `scripts/metadata.py`). A `Track` is a class:
  - its descriptive fields never change;
  - its performance bounds and split label are updated in place;
  - its end bound defaults to the whole track.

  `assign_random_splits` does the following:
  - it validates the split ratios;
  - it shuffles the list in place;
  - it walks the list once, in three passes that share one iterator;
  - it labels tracks train until the train total exceeds its limit;
  - the boundary track becomes test;
  - it labels tracks test until the test total exceeds its limit;
  - the rest are val.

The pure parts are functions with lemmas. The loops are methods proved
against reference definitions:
- the scan is specified by `IsLongestCleanSection`;
- the labelling is specified by `SplitLabels`;
- the shuffle is specified by `Permuted`;
- the main loop is specified by `HasCleanSection`, `FoundDuration` and `FoundPerformance`.

## Model

| member | source | states |
|---|---|---|
| StartEndTimes.DominantClass | scripts/compute_start_end_times.py:7-10 | the class returned for a frame has the largest confidence, and every class with a lower index has a strictly smaller one (numpy's first-argmax tie rule) |
| StartEndTimes.MaxClassVector | scripts/compute_start_end_times.py:7-10 | one label per frame, and each label is the first argmax of its frame's (speech, applause, music) confidences |
| StartEndTimes.FirstArgmaxUnique | scripts/compute_start_end_times.py:8-10 | the first-argmax characterisation determines the label uniquely, so ties resolve speech before applause before music |
| StartEndTimes.Clean | scripts/compute_start_end_times.py:20-22 | the two-branch inclusion rule on a frame and its dominant class; its meaning is stated by MusicFrameRule and OtherFrameRule |
| StartEndTimes.MusicFrameRule | scripts/compute_start_end_times.py:20 | for every frame whose argmax is music, the frame is clean exactly when applause < 0.4 and speech < 0.5 |
| StartEndTimes.OtherFrameRule | scripts/compute_start_end_times.py:21 | for every frame whose argmax is speech or applause, the frame is clean exactly when applause < 0.1 and speech < 0.1, whatever its music confidence |
| StartEndTimes.LongestCleanSection | scripts/compute_start_end_times.py:13-37 | the scan returns a run of consecutive clean frames that is at least as long as every other clean run, is the leftmost of that length, and is (-1, 0) when no frame is clean |
| StartEndTimes.CloseRun | scripts/compute_start_end_times.py:26-35 | closing the current run at a non-clean frame or at the end keeps the best run seen so far the longest and leftmost of all runs ending before that point; a strictly longer current run replaces it |
| StartEndTimes.BestIsLongest | scripts/compute_start_end_times.py:33-37 | once the whole table has been scanned, the best run is the longest leftmost clean section, with -1 <= start and start + length <= number of frames |
| StartEndTimes.LongestCleanSectionUnique | scripts/compute_start_end_times.py:13-37 | the longest leftmost clean section of a table is unique, so the scan's result is fully determined |
| StartEndTimes.NoCleanFrame | scripts/compute_start_end_times.py:14-17 | a table without a clean frame (the empty table included) yields (-1, 0) |
| StartEndTimes.AllFramesClean | scripts/compute_start_end_times.py:19-35 | a table whose frames are all clean yields (0, number of frames) |
| StartEndTimes.EarlierRunWinsExample | scripts/compute_start_end_times.py:27 | two clean runs of equal length, each followed by applause: the strict comparison keeps the earlier one |
| StartEndTimes.TrailingRunExample | scripts/compute_start_end_times.py:33-35 | a run that reaches the last frame is still counted by the final comparison |
| StartEndTimes.MusicThresholdsAreStrict | scripts/compute_start_end_times.py:20 | boundary examples of the music branch: applause 0.39 with speech 0.49 is kept; applause at 0.4, or speech at 0.5, is dropped |
| StartEndTimes.OtherThresholds | scripts/compute_start_end_times.py:21 | boundary examples of the other branch: speech and applause at 0.09 are kept, speech at 0.1 is dropped, and a speech-dominated frame at 0.6 is dropped |
| StartEndTimes.AudioPathToDictKey | scripts/compute_start_end_times.py:41-44 | the key is the resampled-data root followed by the path's components from the third one on, position by position |
| StartEndTimes.SameKeyIffSameTail | scripts/compute_start_end_times.py:41-44 | two paths map to the same key exactly when they agree from their third component on |
| StartEndTimes.FirstTwoDiscarded | scripts/compute_start_end_times.py:43 | replacing a path's first two components never changes its key |
| StartEndTimes.SetPerformanceBounds | scripts/compute_start_end_times.py:63-66 | the track's start is the longest clean section's start and its end is start + length, so its performance duration equals the section length |
| StartEndTimes.Found | scripts/compute_start_end_times.py:58-61 | a track is processed exactly when the key of its audio path is in the activation table; otherwise it is skipped |
| StartEndTimes.FoundDuration | scripts/compute_start_end_times.py:55-67 | the duration total over the processed tracks among the first n; with non-negative durations it lies between 0 and the total duration of those n tracks, and it equals that total when every one was found |
| StartEndTimes.FoundPerformance | scripts/compute_start_end_times.py:54-68 | reference for the performance total: the sum of the performance durations of the processed tracks among the first n |
| StartEndTimes.UpdateTrack | scripts/compute_start_end_times.py:58-66 | a track is processed exactly when its key is in the table; a skipped track is unchanged; a processed one gets the clean-section bounds; the tracks before it keep theirs |
| StartEndTimes.BoundsSetAll | scripts/compute_start_end_times.py:57-66 | the loop invariant, built up track by track, gives the clean-section bounds for every processed track in the prefix |
| StartEndTimes.UpdatePerformanceBounds | scripts/compute_start_end_times.py:57-68 | after the loop, every track found in the table has the bounds of its longest clean section and every other track keeps its bounds; the totals are the summed durations and the summed performance durations of the found tracks |
| Metadata.Track.constructor | scripts/metadata.py:19-43 | the fields take the arguments; a missing or zero end bound becomes the track's duration; the start defaults to 0 and the split to none; so by default the performance covers the whole track |
| Metadata.Track.PerformanceDurationSec | scripts/metadata.py:45-49 | with both bounds set, start + duration = end; with either bound unset, the duration is the whole track's |
| Metadata.SumRange | scripts/metadata.py:162-183 | the running total of a range of durations, added left to right as `sum` and the pass accumulators do |
| Metadata.Sum | scripts/metadata.py:158-162 | Python's `sum` of a list from 0; for three items it is their sum, the quantity the ratio check compares with 1 |
| Metadata.Durations | scripts/metadata.py:162 | one duration per track, in list order |
| Metadata.CheckSplitRatios | scripts/metadata.py:156-164 | validation succeeds exactly for a tuple of three ratios summing to 1; a non-tuple gives the not-a-tuple error; on success the train and test ratios are the first two items |
| Metadata.DefaultSplitRatiosValid | scripts/metadata.py:155-159 | the default ratios (0.8, 0.1, 0.1) pass validation, with train ratio 0.8 and test ratio 0.1 |
| Metadata.FirstOver | scripts/metadata.py:171-183 | the first position where the running total from the pass's base exceeds the limit: every earlier total is within the limit and the total there is over it, or the end of the list if none is |
| Metadata.TestEnd | scripts/metadata.py:178-183 | the first val track comes after the boundary track whenever a boundary track exists, and never before the train tracks |
| Metadata.SplitLabelsMonotone | scripts/metadata.py:169-185 | the labels read train, then test, then val, never going back |
| Metadata.TrainIffWithinLimit | scripts/metadata.py:171-177 | a track is train exactly when the running train total checked before it, and every one checked before its predecessors, is within the train limit |
| Metadata.BoundaryTrackIsTest | scripts/metadata.py:172-175 | the first track whose preceding train total is over the limit becomes test, not train |
| Metadata.TestIffWithinLimit | scripts/metadata.py:173-183 | past the boundary track, a track is test exactly when every test total before it, which starts with the boundary track's duration, is within the test limit |
| Metadata.TrainSplitOvershoots | scripts/metadata.py:171-177 | when any track is not train, the train tracks together exceed the train limit, while the total before the last train track was within it |
| Metadata.FourEqualTracksExample | scripts/metadata.py:162-185 | four tracks of 10 s with ratios (0.5, 0.25, 0.25) are labelled train, train, train, test |
| Metadata.PermutedMultiset | scripts/metadata.py:168 | reordering a list by a permutation keeps the same elements with the same multiplicities |
| Metadata.PermutedDistinct | scripts/metadata.py:168 | reordering a list of distinct tracks keeps them distinct |
| Metadata.Shuffle | scripts/metadata.py:168 | the array afterwards holds the old contents in the generator's order, a permutation of the old contents |
| Metadata.Boundaries | scripts/metadata.py:171-185 | the train boundary comes before the first val track, and each is the first position where its pass's running total exceeds its limit; the labels are train before the one, test up to the other and val after |
| Metadata.TrainPass | scripts/metadata.py:171-177 | the first loop labels train up to the boundary, labels the boundary track test, and stops after it, with the test total equal to that track's duration; the tracks after the stopping position keep their labels |
| Metadata.TestPass | scripts/metadata.py:178-183 | the second loop labels test up to the first val track, labels that one val and stops after it; the tracks before its start and after its stopping position keep their labels |
| Metadata.ValPass | scripts/metadata.py:184-185 | the third loop labels every remaining track val and leaves earlier labels unchanged |
| Metadata.LabelInOrder | scripts/metadata.py:169-185 | the three passes over one shared position give every track the label the reference labelling assigns to its position |
| Metadata.AssignRandomSplits | scripts/metadata.py:155-187 | the ratios default to (0.8, 0.1, 0.1); invalid ratios fail and leave the list and labels unchanged; valid ones shuffle the list by the given permutation and label every track as the reference labelling does with limits ratio × total duration; the result is the same list |

## Left out

- Random number generation: the seeded shuffle (default seed 42) takes its order as a permutation argument, so the model holds for any order the generator produces.
- Floating point: durations, confidences and ratios are exact reals. IEEE rounding is not modelled, nor the exact `== 1` test on a float sum. `CheckSplitRatios` compares an exact sum.
- CheckSplitRatios: a ratios argument is a tuple flag plus numeric items. Non-numeric items, and the error message texts, are not modelled. Both errors are raised as one exception type in the source.
- Paths are lists of components. The string parsing done by `pathlib` is not modelled, nor the trailing-slash handling of the root.
- The class-activation tables are a map from keys to sequences of frames. The pickle file, numpy arrays and their loading are not modelled.
- The main loop writes the frame index of the section's start and end into the seconds fields, with no frame-rate conversion, exactly as the source does. The model also writes them as reals where the source stores integers.
- Distinct: the loops require the tracks in the list to be distinct objects. A list that holds one track twice is not modelled.
- UpdatePerformanceBounds: the list of tracks is a sequence of references. The Python list itself is never mutated by the loop.
- Printing is not modelled:
  - the "no inference found" message;
  - the "Excessive gap" report at scripts/compute_start_end_times.py:70-82, which only prints;
  - the hour totals.
- Writing the metadata back, `read_tracks_from_csv` and the CSV format are file I/O, and are not modelled.
- Audio download, MIDI transcription and note-sequence generation are not part of this model.
