# A verified model of the dashcam server

Dafny models of the hardest algorithms and protocols of a dashcam analysis server, with proofs of what
each is for. `dafny verify dfyconfig.toml` checks everything.

| files | what they model |
|---|---|
| `EditDistance`, `PlateAlphabet`, `PlateClean`, `PlateCleanLaws`, `PlatePatterns`, `PlateProject`, `PlateNormalise`, `PlateNormaliseLaws` | plate matching: the weighted edit distance, cleaning, projecting a reading onto plate masks, choosing a pattern |
| `NativeLanes`, `NativeLaneLaws` | the exclusive and shared native lanes around OpenVINO and the one-way failure latch, as thread steps |
| `ChordDistance`, `DouglasPeucker`, `Polylines` | route geometry: simplification with an explicit stack, splitting into drawable lines |
| `GreedyMatch`, `GreedyMatchLaws`, `TrackerModel`, `ByteTracker`, `TrackerLaws`, `TrackerOverlap`, `TrackerRuns` | multi-object tracking: greedy assignment and the tracker over whole runs |
| `MediaGate`, `MediaGateRuns`, `IterFrames` | the Intel media slot with its straggling children, and decoding with retry and fallback |
| `SettingCoercion`, `SettingFits`, `SettingsService`, `SettingsLaws`, `SettingsWait` | validated settings, the cache against its table, waiting for a change |
| `LogSink`, `LogSinkLaws`, `LogSinkHistory` | the deduplicating log buffer |
| `RateLimit`, `RateLimitLaws` | the sliding-window limiter on sign-in failures |
| `Retry` | retrying transactions while SQLite is locked |
| `VehicleViews`, `TemporalVote`, `VoteSpacing` | choosing source frames, and agreeing on a plate across them |
| `TreeSize`, `TreeMeasure` | sizing a tree, and remembering the size until the tree changes |
| `Options`, `Reals`, `Runs`, `Sequences`, `StableSort`, `Text` | shared small pieces; `Runs` is what all runs of a state machine have in common |

Code that works in place is a class or a method with loops, proved equal to a specification function;
the properties are lemmas about that function and about every run of it. Concurrency is a state machine
over the steps between which control can change hands.

## Conventions

Floating-point values are reals. Edit costs are counted in halves and confidence adjustments in
ten-thousandths, so both are integers. Text is ASCII; a character outside it separates tokens. An unset
region is the empty string. Clocks, random jitter, decoder output, IoU, the great-circle distance, database
errors and the like are parameters, and the theorems hold for all of them.

## Where the code and what is said about it differ

- `simplify_indices` measures to the infinite line through the chord (`ChordDistance.DistanceIsToTheLine`),
  while the segment is what is drawn. `DouglasPeucker.DroppedFixIsNear` says exactly when a dropped fix is near
  what is drawn; `DouglasPeucker.OutAndBackDisappears` is a spur that is not.
- `_project` is documented as able to differ from a greedy choice. It never does
  (`PlateProject.Project`), and its cap is never reached by a shipped mask.
- `greedy_match` never ends when the threshold is -1 or less and a cell meets it
  (`GreedyMatchLaws.TurnWithoutEnd`, `GreedyMatchLaws.OneCellNeverEnds`), and ends on every other input
  (`GreedyMatch.Match`). The tracker only uses thresholds above zero.
- A path setting such as "/a /" is moved by the next reload (`SettingCoercion.PathIsStable` gives the exact
  condition, `SettingsLaws.ReloadMovesUnstableValue` the consequence).
- The limiter returns too short a wait when more than ten failures are live
  (`RateLimitLaws.WaitIsExact` gives the exact condition). A full bucket drops the newest failure, so enough
  of them need not refuse a key (`RateLimitLaws.FullBucketForgets`); `RateLimitLaws.StaysExactIff` says exactly
  which steps lose a failure.
- `write_with_retry` discards work that was pending before the call when the first attempt fails, and can
  commit work twice if a rollback fails and leaves the session usable (`Retry.FailedRollbackCommitsTwice`;
  `Retry.WriteCommits` gives the exact condition).
- Readings out of time order can leave supporters of one vote closer than half a second
  (`VoteSpacing.UnsortedReadingsCrowd`). `VoteSpacing.VoteIsSpacedIff` gives the exact condition for the vote,
  `VoteSpacing.SupportersAreDistinctIff` the one for every prefix of the readings, and
  `VoteSpacing.LaterReadingMends` separates the two.
- `settle` can run out of time after the last child it waits for has exited. The slot then stays unhealthy with
  nothing alive to blame, until the next child exits (`MediaGateRuns.StaysSoundIff`,
  `MediaGateRuns.LateTimeoutCondemnsForNothing`, `MediaGateRuns.SlotRecovers`).
- `_remember_hwaccel_failure` says oldest-out; the entry it evicts is arbitrary, which is how it is modelled.

## Model

| member | source | states |
|---|---|---|
| `EditDistance.WeightedLevenshtein` | `backend/app/ai/normalise_au.py:554-573` | The rolling-row loop returns the edit distance (in halves: 2 per insertion, deletion or substitution, 1 per look-alike substitution), which DistanceIsCheapestScript shows to be the least over all edits |
| `EditDistance.NoScriptIsCheaper` | `backend/app/ai/normalise_au.py:554-573` | No sequence of insertions, deletions and replacements that turns one string into the other costs less than the distance, whatever order the edits come in |
| `EditDistance.DistanceIsCheapestScript` | `backend/app/ai/normalise_au.py:554-573` | Some sequence of edits costs exactly the distance and none costs less: the dynamic program is optimal |
| `EditDistance.EditCosts` | `backend/app/ai/normalise_au.py:193-213` | An insertion or deletion costs a whole edit, as does an exchange for a character of another shape; within one of the six look-alike groups an exchange costs half of one |
| `EditDistance.DistanceIsMetric` | `backend/app/ai/normalise_au.py:549-573` | The distance is zero exactly between equal strings, is symmetric, and obeys the triangle inequality |
| `EditDistance.ComputeSimilarity` | `backend/app/ai/normalise_au.py:576-592` | The early returns and the clip never change the value: similarity is 1 minus distance over the longer length |
| `EditDistance.SimilarityLaws` | `backend/app/ai/normalise_au.py:576-592` | Similarity is symmetric, lies in [0, 1] before clipping, and is 1 exactly for equal texts |
| `PlateClean.Tokenise` | `backend/app/ai/normalise_au.py:270-281` | One pass over the upper-cased text yields exactly its maximal runs of letters and digits |
| `PlateClean.TokensAreTokens` | `backend/app/ai/normalise_au.py:270-281` | Every token is non-empty and made only of letters and digits |
| `PlateCleanLaws.RunIsToken` | `backend/app/ai/normalise_au.py:270-281` | The tokens are exactly the maximal runs of letters and digits: each such run is the token whose place is the number of runs that start before it |
| `PlateCleanLaws.TokensCountRuns` | `backend/app/ai/normalise_au.py:270-281` | There are as many tokens as runs |
| `PlateCleanLaws.SizeDoesNotMatter` | `backend/app/ai/normalise_au.py:270-281` | Readings that differ only in the size of their letters are cleaned to the same text |
| `PlateClean.CleanIsPlateText` | `backend/app/ai/normalise_au.py:284-305` | A cleaned reading has only letters and digits, and is empty exactly when the reading had none; which tokens it keeps is what the next three say |
| `PlateCleanLaws.PlainTokensAreKept` | `backend/app/ai/normalise_au.py:284-305` | If some token is neither a slogan word nor a state, the cleaned text is exactly those tokens joined in order |
| `PlateCleanLaws.StatesAreKept` | `backend/app/ai/normalise_au.py:284-305` | Otherwise, if some token is no slogan word, it is exactly those joined in order, and they are all states |
| `PlateCleanLaws.SlogansAreKept` | `backend/app/ai/normalise_au.py:284-305` | Otherwise it is all the tokens joined in order |
| `PlateClean.CleanIsIdempotent` | `backend/app/ai/normalise_au.py:284-305` | Cleaning a cleaned reading changes nothing |
| `PlatePatterns.ShippedMasksAreSound` | `backend/app/ai/normalise_au.py:134-156` | Every shipped mask has five to seven places, all letters or digit slots, and is anchored by a digit slot (two in the longest) |
| `PlateProject.SlotOptionsSpec` | `backend/app/ai/normalise_au.py:403-425` | The options of a slot all fit it and look like the character; a fitting character is the only option and costs nothing, and every other costs one change |
| `PlateProject.LikeliestLetterFirst` | `backend/app/ai/normalise_au.py:169-176` | The letters a digit may stand for come in the order of their likelihood: O before D before Q |
| `PlateProject.FirstCombinationIsBest` | `backend/app/ai/normalise_au.py:428-456` | Over all combinations of options, the slot-by-slot first choice has the fewest changes and the best rank, and it is enumerated first |
| `PlateProject.Project` | `backend/app/ai/normalise_au.py:428-456` | The enumeration succeeds exactly when every slot has an option and the cap allows it, and then returns the slot-by-slot first choice with its number of changed characters |
| `PlateNormaliseLaws.CapNeverFires` | `backend/app/ai/normalise_au.py:134-156` | For every shipped mask and every reading the enumeration stays within 243 combinations, so the cap of 512 never refuses one |
| `PlateNormaliseLaws.SlotwiseTextIsClosest` | `backend/app/ai/normalise_au.py:428-456` | No text that fits the mask differs from the reading in fewer characters than the projected one |
| `PlateNormalise.Normalise` | `backend/app/ai/normalise_au.py:464-540` | Collecting candidates and taking the least is: the reading as the best of the patterns it is eligible for, or unmatched when there is none |
| `PlateNormaliseLaws.SomeCandidateIsBest` | `backend/app/ai/normalise_au.py:500-540` | Whenever some pattern is a candidate, one of them is best by changes, then priority, then table order |
| `PlateNormaliseLaws.NormaliseExplains` | `backend/app/ai/normalise_au.py:464-540` | A match fits an enabled mask of the same length, changes only look-alikes, and reports exactly how many characters it changed |
| `PlateNormaliseLaws.NormaliseChangesFewest` | `backend/app/ai/normalise_au.py:464-540` | No enabled, digit-eligible mask has a fitting look-alike text with fewer changes, and if any has one the reading is matched |
| `PlateNormaliseLaws.MostSpecificWins` | `backend/app/ai/normalise_au.py:500-540` | Among the formats that explain the reading with as few changes as the match, the winner has the least priority number, and of those it comes first in the table |
| `PlateNormaliseLaws.MatchShowsADigit` | `backend/app/ai/normalise_au.py:464-540` | Only a reading with a digit in it is matched |
| `PlateNormaliseLaws.ConfidenceIsEarned` | `backend/app/ai/normalise_au.py:459-461` | A match earns 0.05 when it names states and 0.025 when not, less 0.02 a change, and never loses more than 0.1; a miss loses 0.1, or 0.15 for its length. A state is hinted at exactly when it is the only one |
| `PlateNormaliseLaws.FittingTextIsKept` | `backend/app/ai/normalise_au.py:464-540` | A text that already fits an enabled mask is returned as it is, with no changes |
| `PlateNormaliseLaws.NormaliseIsFixpoint` | `backend/app/ai/normalise_au.py:464-540` | Normalising a normalised plate changes nothing |
| `PlateNormaliseLaws.ChangesAreLookAlikes` | `backend/app/ai/normalise_au.py:193-213` | Every changed character stays inside one confusable group |
| `PlateNormaliseLaws.NormaliseStaysSimilar` | `backend/app/ai/normalise_au.py:464-592` | The similarity of the cleaned reading to its match is at least 1 - substitutions / (2 * length) |
| `PlateNormaliseLaws.RegionScopingKeepsMatches` | `backend/app/ai/normalise_au.py:367-400` | Between any two regions that enable patterns, what matches and with how many changes is the same |
| `PlateNormaliseLaws.ScopedFormat` | `backend/app/ai/normalise_au.py:367-400` | In the region of one state every format has its shipped shape; it keeps its states and priority exactly when that state is one of them, and otherwise names none and ranks last |
| `PlateNormaliseLaws.OtherRegions` | `backend/app/ai/normalise_au.py:367-400` | The whole country has the shipped formats, an unset or switched-off region none, and no other region but that of a state has any |
| `PlateNormaliseLaws.OnlyOwnStateIsNamed` | `backend/app/ai/normalise_au.py:367-400` | In the region of one state a match never names states without that one, and never hints at another |
| `PlateNormaliseLaws.PlateSimilarity` | `backend/app/ai/normalise_au.py:576-592` | Both sides are cleaned first; the result is symmetric, lies in [0, 1], and is 1 exactly when the cleaned texts are equal |
| `NativeLanes.ActKeeps` | `backend/app/ai/openvino_session.py:40-76` | Every step of every thread keeps the whole invariant: lock ownership, writer and CPU-call counts, the latch and the sessions |
| `NativeLanes.AloneInBody` | `backend/app/ai/openvino_session.py:47-59` | While a thread is in an exclusive body no other is in one, or in the CPU lane |
| `NativeLaneLaws.RunKeepsInv` | `backend/app/ai/openvino_session.py:40-76` | Every state reachable by any number of threads in any interleaving satisfies the invariant |
| `NativeLaneLaws.LanesExclude` | `backend/app/ai/openvino_session.py:47-76` | An exclusive body never overlaps another exclusive body or a CPU inference |
| `NativeLaneLaws.CountersAreExact` | `backend/app/ai/openvino_session.py:47-76` | The two counters equal the numbers of threads actually waiting for or in each lane |
| `NativeLaneLaws.FailureIsForGood` | `backend/app/ai/openvino_session.py:125-152` | Once a durable failure is latched it stays latched |
| `NativeLaneLaws.LatchedIff` | `backend/app/ai/openvino_session.py:125-152` | The latch is set exactly by a context failure of a GPU inference, compile or query; the GPU is off exactly since such a failure, or since a session was taken off it, or from the start |
| `NativeLaneLaws.ContextFailureEndsNativeCalls` | `backend/app/ai/openvino_session.py:771-780` | From such a failure on, along every run, the latch is set, the GPU is off, and no thread is in native code or admitted to it |
| `NativeLaneLaws.NobodyGoesOntoGpu` | `backend/app/ai/openvino_session.py:765-775` | No thread goes into a GPU compile, query or inference once the GPU is off |
| `NativeLaneLaws.InferenceIsMadeIff` | `backend/app/ai/openvino_session.py:765-775` | A thread in the lane for an inference makes the native call exactly while the GPU is on and the session has no fallback |
| `NativeLaneLaws.NoNativeCallAfterFailure` | `backend/app/ai/openvino_session.py:611-660` | Once the latch is set no thread is ever inside a native read, compile, query or inference again, nor admitted to one; what sets it is said by LatchedIff |
| `NativeLaneLaws.DemotedSessionAvoidsNativeCpu` | `backend/app/ai/openvino_session.py:719-795` | A session that began on the GPU never takes the native CPU branch, and its fallback is there by the time its device reads CPU |
| `NativeLaneLaws.RunGoesToItsLane` | `backend/app/ai/openvino_session.py:757-787` | A run is served by the fallback if there is one; otherwise it goes to the lane of its device, and looks again before native CPU code |
| `NativeLaneLaws.CpuRunIsAdmittedIff` | `backend/app/ai/openvino_session.py:62-76` | A run is admitted to native CPU code exactly while no writer is in the lane and nothing has failed; after a failure it is moved to the fallback |
| `NativeLaneLaws.RebuildsIff` | `backend/app/ai/openvino_session.py:719-755` | A demotion rebuilds exactly a session without fallback that is on the GPU or shares a failed context |
| `NativeLaneLaws.DemotionPublishes` | `backend/app/ai/openvino_session.py:719-740` | A rebuilt fallback is published before the device changes; a failed rebuild leaves the session as it was |
| `NativeLaneLaws.OneRebuilderEach` | `backend/app/ai/openvino_session.py:719-740` | No two threads rebuild one session at once |
| `NativeLaneLaws.DemotionIsForGood` | `backend/app/ai/openvino_session.py:719-740` | Along every run a session never loses its fallback and never goes back to the GPU |
| `NativeLaneLaws.SessionsComeFromQueries` | `backend/app/ai/openvino_session.py:617-699` | Sessions come from queries that end without a context failure, one each, on the device the load was then for |
| `NativeLaneLaws.LoadGoesOnIff` | `backend/app/ai/openvino_session.py:617-699` | A load reads its model exactly while nothing has failed, compiles it exactly while nothing has failed and, for the GPU, it is not off, falls back to the CPU exactly after such a compile error, and queries what compiled |
| `NativeLaneLaws.PlaceFollowsFromEvents` | `backend/app/ai/openvino_session.py:617-795` | Along every run each thread is where its own events brought it: a load is of a model that was read and then compiled, for the device asked for or the CPU after a fallback; a run or a demotion is of the session it was called for |
| `NativeLaneLaws.WritersAreNotOvertaken` | `backend/app/ai/openvino_session.py:62-76` | For as long as a writer is in the lane, CPU inferences only drain |
| `NativeLaneLaws.SomeThreadCanMove` | `backend/app/ai/openvino_session.py:40-76` | No reachable state with an unfinished thread is a deadlock |
| `ChordDistance.DistanceIsToTheLine` | `backend/app/api/geometry.py:61-72` | The compared distance is the least distance to the whole line through the chord, not only to the segment |
| `ChordDistance.SegmentIsNearIff` | `backend/app/api/geometry.py:61-72` | A point within tolerance of the line is within tolerance of some point of the segment exactly when the foot of its perpendicular falls on the segment or one end is near; also for a chord that has shrunk to a point |
| `DouglasPeucker.FindWorst` | `backend/app/api/geometry.py:67-74` | The scan returns the first of the interior points farthest from the chord |
| `DouglasPeucker.SimplifyIndices` | `backend/app/api/geometry.py:37-79` | The loop with an explicit stack terminates and returns, in order, exactly what the recursive definition keeps |
| `DouglasPeucker.KeptIndicesSpec` | `backend/app/api/geometry.py:37-79` | The result is strictly increasing and begins and ends with the first and last index |
| `DouglasPeucker.DroppedPointIsNear` | `backend/app/api/geometry.py:52-79` | For any distance, a dropped point is within tolerance, by that distance, of the chord of the two kept points around it |
| `DouglasPeucker.DroppedFixIsNear` | `backend/app/api/geometry.py:37-79` | A fix the loop drops lies between two neighbouring kept fixes and within tolerance of the infinite line through them; within tolerance of the segment drawn between them exactly when that segment covers it |
| `DouglasPeucker.DroppedFixIsWithinMetres` | `backend/app/api/geometry.py:37-79` | In metres, at 111320 to a degree, a dropped fix is no farther from that line than the tolerance |
| `DouglasPeucker.SpurDisappears` | `backend/app/api/geometry.py:37-79` | Every out-and-back spur of three fixes in a line, its far end beyond both others by more than the tolerance, is dropped, and nothing that is drawn is near it |
| `DouglasPeucker.OutAndBackDisappears` | `backend/app/api/geometry.py:37-79` | (0,0), (2,0), (1,0) at five metres, or any tolerance below a degree: the loop keeps the first and last, and no point drawn is within tolerance of the dropped one |
| `DouglasPeucker.SimplificationIsNested` | `backend/app/api/geometry.py:52-79` | A larger tolerance keeps a subset, since the split points do not depend on the tolerance |
| `DouglasPeucker.CoarserKeepsFewer` | `backend/app/api/geometry.py:37-79` | The same for the indices the loop returns |
| `DouglasPeucker.SimplificationIsIdempotent` | `backend/app/api/geometry.py:82-97` | Among the kept points the recursion keeps every one again |
| `DouglasPeucker.SimplifyIsIdempotent` | `backend/app/api/geometry.py:82-97` | Simplifying a simplified line at the same tolerance gives it back |
| `Polylines.SplitIndices` | `backend/app/api/geometry.py:100-146` | The loop returns the maximal uncut runs of two or more samples, in order |
| `Polylines.RunsAreMaximal` | `backend/app/api/geometry.py:126-146` | A run is returned exactly when it has two or more samples, no cut inside it and a cut or an end on either side |
| `Polylines.JoinedIff` | `backend/app/api/geometry.py:100-123` | A sample and the one before it are drawn on one line exactly when their known times are not too far apart, nor their places, and the pipeline has not marked the later one |
| `Polylines.RunsAreInOrder` | `backend/app/api/geometry.py:126-146` | Runs come in order and never overlap |
| `Polylines.OnlyIsolatedSamplesAreDropped` | `backend/app/api/geometry.py:126-146` | A sample is drawn unless it is cut off from both neighbours |
| `Polylines.BuildPolylineIndices` | `backend/app/api/geometry.py:149-169` | Each run simplified; the filter on short lines never drops one |
| `Polylines.BuildPolylines` | `backend/app/api/geometry.py:172-193` | Draws, for exactly the lines that build_polyline_indices names, the latitudes and longitudes of their samples |
| `Polylines.NoSegmentCrossesACut` | `backend/app/api/geometry.py:149-193` | Two samples joined by a drawn segment have no cut between them |
| `GreedyMatch.Match` | `backend/app/ai/tracker.py:52-74` | Wiping rows and columns of a copy computes repeated choice of the best free cell, on every input the loop ends on: the threshold is above -1 or nothing meets it |
| `GreedyMatchLaws.FirstPairIsTaken` | `backend/app/ai/tracker.py:52-74` | On every other input the first best cell meets the threshold, so a first pair is taken |
| `GreedyMatchLaws.WipedCellsStayEligible` | `backend/app/ai/tracker.py:66-73` | On every other input, before and after any wiping, the best cell meets the threshold and the test for an early end fails |
| `GreedyMatchLaws.TurnWithoutEnd` | `backend/app/ai/tracker.py:66-73` | So a turn of the loop on the wiped copy takes a pair, does not stop, and leaves a state of the same kind: it never ends |
| `GreedyMatchLaws.OneCellNeverEnds` | `backend/app/ai/tracker.py:52-74` | One cell scoring 0 with threshold -1 is such an input |
| `GreedyMatchLaws.FreshCopyIsEndless` | `backend/app/ai/tracker.py:60-66` | On every input the loop does not end on, the copy it starts from is already a state of that kind |
| `GreedyMatchLaws.GreedyIsAMatching` | `backend/app/ai/tracker.py:52-74` | No two pairs share a row or column and every pair meets the threshold |
| `GreedyMatchLaws.EligiblePairIsBlocked` | `backend/app/ai/tracker.py:52-74` | Every eligible pair left out shares a row or column with a chosen pair that scores higher, or as high and comes first in row-major order |
| `GreedyMatchLaws.GreedyIsHalfOptimal` | `backend/app/ai/tracker.py:52-74` | For thresholds of at least zero, the total is at least half that of any other matching of eligible pairs |
| `ByteTracker.Track.Absorb` | `backend/app/ai/tracker.py:283-302` | Adds one sample and brings the running figures up to date |
| `ByteTracker.ByteTracker.Associate` | `backend/app/ai/tracker.py:235-281` | One association pass, updating the tracks in place, is the pass on values; what that has to do with overlap is said by PassGivesOverlapping and OverlappingIsGivenOrLoses |
| `TrackerOverlap.PassGivesOverlapping` | `backend/app/ai/tracker.py:235-281` | Whatever a pass gives a track is of its class and overlaps it by at least the threshold; a track given nothing is left as it was |
| `TrackerOverlap.OverlappingIsGivenOrLoses` | `backend/app/ai/tracker.py:235-281` | For every candidate and detection of one class that overlap by at least the threshold, one of the two is in a pair that was given, of overlap at least theirs |
| `ByteTracker.ByteTracker.Update` | `backend/app/ai/tracker.py:201-233` | One update in place leaves exactly the state of the specification |
| `TrackerOverlap.UpdateGivesOverlapping` | `backend/app/ai/tracker.py:201-233` | In one update an active track is given a high-confidence detection of its class with overlap 0.25 or more, or a low-confidence one with 0.15 or more, or is missed |
| `TrackerOverlap.ConfidentOverlapIsGivenOrLoses` | `backend/app/ai/tracker.py:201-233` | For every active track and high-confidence detection of its class with overlap 0.25 or more, some track of the new state has absorbed a detection of overlap at least theirs, and the track or the detection is one of the two |
| `TrackerOverlap.LeftOverIff` | `backend/app/ai/tracker.py:201-218` | A track is left for the second pass exactly when the first gave it nothing |
| `TrackerOverlap.FaintOverlapIsGivenOrLoses` | `backend/app/ai/tracker.py:214-218` | The same of the tracks left over and the low-confidence detections with overlap 0.15 or more |
| `ByteTracker.ByteTracker.Finish` | `backend/app/ai/tracker.py:328-332` | Hands over, in order, the tracks with enough samples and forgets all tracks |
| `TrackerRuns.HandedOverIff` | `backend/app/ai/tracker.py:328-332` | The tracks handed over are exactly those seen often enough, finished ones first, each part in order |
| `TrackerLaws.ActiveTrackMoves` | `backend/app/ai/tracker.py:201-302` | In one update an active track gains exactly one sample, of its own class, or is missed once |
| `TrackerLaws.NewTracksAreHigh` | `backend/app/ai/tracker.py:235-281` | Only a high-confidence detection starts a track, numbered on from the next key |
| `TrackerLaws.PartsAddUp` | `backend/app/ai/tracker.py:211-212` | Every detection goes to one of the two passes, as often as it was made |
| `TrackerLaws.SamplesAreConserved` | `backend/app/ai/tracker.py:201-281` | An update adds one sample for every high-confidence detection, at most one for each other, and loses none |
| `TrackerRuns.UpdateKeepsInv` | `backend/app/ai/tracker.py:138-233` | Every update keeps: figures agree with samples, samples are of the track class, keys are unique, active misses within the buffer, closed tracks missed exactly one more |
| `TrackerRuns.RunKeepsInv` | `backend/app/ai/tracker.py:192-233` | The same over every run of updates |
| `TrackerRuns.KeysAreUnique` | `backend/app/ai/tracker.py:304-326` | No two tracks, active or finished, share a key |
| `TrackerRuns.RunKeepsEveryHighDetection` | `backend/app/ai/tracker.py:201-281` | Over any run the tracks hold each high-confidence detection exactly as often as it was seen, and otherwise only low-confidence ones, each at most as often as seen |
| `TrackerRuns.MissesCountUpdates` | `backend/app/ai/tracker.py:201-302` | The miss counter is the number of updates since the last sample |
| `TrackerRuns.SamplesAreCloseTogether` | `backend/app/ai/tracker.py:201-233` | The last sample of an active track came at most buffer + 1 updates before its next one |
| `TrackerRuns.ClosedForGood` | `backend/app/ai/tracker.py:224-233` | A finished track is never touched again |
| `MediaGate.MediaGate.Retire` | `backend/app/hardware/ffmpeg.py:189-198` | A child leaves; the slot becomes healthy exactly when no gated child is left |
| `MediaGate.MediaGate.Settle` | `backend/app/hardware/ffmpeg.py:223-264` | Comes good exactly when every gated child alive at the start has exited during the wait and the clock did not run out first; then none is left. Given up, the slot is unhealthy and names them, soundly exactly when one of them still lives |
| `MediaGate.MediaGate.Close` | `backend/app/hardware/ffmpeg.py:582-619` | A child that was seen to exit is retired, any other stays registered |
| `MediaGate.MediaGate.RunProcess` | `backend/app/hardware/ffmpeg.py:627-648` | A process seen to exit leaves the gate as it was, or heals one condemned for nothing; one that was not stays registered and, if gated, is waited for by whoever settles next |
| `MediaGate.MediaGate.AnyGated` | `backend/app/hardware/ffmpeg.py:189-198` | Reports whether a gated child is alive |
| `MediaGateRuns.ActKeepsInv` | `backend/app/hardware/ffmpeg.py:175-281` | Every step of every task keeps: the settler waits for every gated child, and a sound slot has only the holder own gated children |
| `MediaGateRuns.SoundSlotIsOwnSlot` | `backend/app/hardware/ffmpeg.py:223-277` | Whoever is inside a sound slot shares it with no live gated child of another holding |
| `MediaGateRuns.VaapiLaunchesAlone` | `backend/app/hardware/ffmpeg.py:664-674` | No hardware decode is launched beside another holder gated child; that the gated ones are the probes and hardware decodes is said by ChildStaysAsLaunched |
| `MediaGateRuns.ChildStaysAsLaunched` | `backend/app/hardware/ffmpeg.py:664-675` | Along every run a probe or hardware decode occupies the slot for as long as it lives, under the holding that launched it; a software decode never does |
| `MediaGateRuns.HoldCountsAcquires` | `backend/app/hardware/ffmpeg.py:266-281` | The holding changes exactly when the slot is taken |
| `MediaGateRuns.VaapiNeverMeetsAnothers` | `backend/app/hardware/ffmpeg.py:1353-1385` | When a hardware decode is launched, the slot has not changed hands since any probe or hardware decode still alive was launched; read off the actions alone |
| `MediaGateRuns.NewHolderWaits` | `backend/app/hardware/ffmpeg.py:223-264` | A task that takes the slot while such a child lives has to wait for it |
| `MediaGateRuns.StragglerKeepsSlotUnhealthy` | `backend/app/hardware/ffmpeg.py:189-264` | From a timeout on, the slot stays unhealthy for as long as one of the children waited for lives |
| `MediaGateRuns.SlotRecovers` | `backend/app/hardware/ffmpeg.py:189-198` | When no other gated child is alive, the exit of any child makes the slot healthy again |
| `MediaGateRuns.StaysSoundIff` | `backend/app/hardware/ffmpeg.py:189-252` | Every step keeps the slot from being condemned for nothing, except exactly a timeout that comes when every awaited child has already exited |
| `MediaGateRuns.RunStaysSound` | `backend/app/hardware/ffmpeg.py:189-252` | Along any run without such a late timeout, an unhealthy slot always has a live gated child |
| `MediaGateRuns.LateTimeoutCondemnsForNothing` | `backend/app/hardware/ffmpeg.py:223-264` | After a late timeout the slot is unhealthy with no gated child alive, and no hardware decode is allowed, though a probe is |
| `MediaGateRuns.TimeoutCanComeLate` | `backend/app/hardware/ffmpeg.py:223-252` | A run that gets there: a probe left running exits just as the next holder stops waiting for it |
| `MediaGateRuns.SlotCanBeGivenBack` | `backend/app/hardware/ffmpeg.py:266-281` | A task that holds the slot can always give it back |
| `MediaGateRuns.HolderGetsIn` | `backend/app/hardware/ffmpeg.py:223-277` | Whoever waits gets in once the children waited for are gone, and inside may probe at any time and decode in hardware exactly while the slot is not condemned |
| `MediaGateRuns.SlotIsEnteredIff` | `backend/app/hardware/ffmpeg.py:266-277` | The slot can be taken exactly while nobody holds it, and is entered at once exactly when no probe or hardware decode is alive |
| `IterFrames.DecodeMemory.Iterate` | `backend/app/hardware/ffmpeg.py:1341-1450` | Frames received, ending, attempts launched, and when a file is added to the refused or the proven set |
| `IterFrames.OnlyTheLastAttemptDelivers` | `backend/app/hardware/ffmpeg.py:1341-1450` | At most three hardware-preferring attempts and one software attempt; all but the last delivered nothing, so what is received is a prefix of one attempt |
| `IterFrames.SoftwareIsTheLastResort` | `backend/app/hardware/ffmpeg.py:1391-1410` | Software is fallen back to exactly when the hardware failed before its first frame, not for an empty window, with an error that would not pass, or three times with one that might |
| `IterFrames.AttemptsRunInTurn` | `backend/app/hardware/ffmpeg.py:1341-1410` | The attempts run in turn, but for the last one when software was fallen back to |
| `IterFrames.RefusedRunsInSoftware` | `backend/app/hardware/ffmpeg.py:1324-1337` | A file the hardware has refused, or a consumer that prefers software, has one attempt, in software; any other is tried on the hardware each time |
| `IterFrames.ConsumerGets` | `backend/app/hardware/ffmpeg.py:1378-1390` | The consumer gets all the frames of the attempt, or as many as it wants if it leaves before the end, and only then does not see how it ended |
| `IterFrames.DecodeMemory.RememberSuccess` | `backend/app/hardware/ffmpeg.py:1548-1555` | The proven set stays bounded; a known file changes nothing |
| `IterFrames.DecodeMemory.RememberFailure` | `backend/app/hardware/ffmpeg.py:1558-1569` | The refused set stays bounded and loses entries only when full |
| `SettingCoercion.ClampIsIdempotent` | `backend/app/core/settings_service.py:139-144` | Clamping twice is clamping once exactly when the bounds are in order |
| `SettingFits.StripIs` | `backend/app/core/settings_service.py:218-228` | Stripping takes the white space off both ends and nothing else, of every text |
| `SettingFits.FlagIff` | `backend/app/core/settings_service.py:153-164` | A truth value is taken exactly from itself, from 0 and 1, and from twelve words in letters of either size with white space around them |
| `SettingFits.NumberIsNearest` | `backend/app/core/settings_service.py:139-216` | A numeric setting is given the number in range nearest to the one the value stands for, or its whole part; a value that stands for none is refused |
| `SettingFits.TextIsStripped` | `backend/app/core/settings_service.py:218-228` | A text is given without the white space around it, and refused with a null byte in it |
| `SettingFits.AbsoluteIff` | `backend/app/core/settings_service.py:147-150` | A path is absolute exactly when it begins with a slash, or with a drive, a colon and a separator |
| `SettingFits.PathIsGiven` | `backend/app/core/settings_service.py:242-261` | A path is given stripped, with its home expanded and its trailing separators cut, and refused unless it is absolute and lies where it may |
| `SettingFits.FixedIsGiven` | `backend/app/core/settings_service.py:356-373` | A setting with a fixed value is given that one for every acceptable value |
| `SettingFits.StableIffFits` | `backend/app/core/settings_service.py:153-370` | The values coercion leaves alone are exactly those the setting may hold: of its kind, in range, stripped, one of the choices, canonical and contained |
| `SettingCoercion.CoercedIsStable` | `backend/app/core/settings_service.py:153-240` | Coercing a coerced value gives it back, for every kind but a path |
| `SettingCoercion.PathIsStable` | `backend/app/core/settings_service.py:242-260` | For a path, exactly when no white space stood just before its trailing separators |
| `SettingCoercion.SpacedPathIsUnstable` | `backend/app/core/settings_service.py:242-260` | For every path setting, "/a /" is stored as "/a ", and that is coerced to "/a" when read back |
| `SettingsService.BuildCache` | `backend/app/core/settings_service.py:892-911` | The loop over rows computes the cache and explicit keys the table alone decides, and reports exactly the unknown keys |
| `SettingsService.SettingsService.SetMany` | `backend/app/core/settings_service.py:516-566` | All of a batch is stored, cached and published, or nothing changes at all |
| `SettingsLaws.AcceptedIff` | `backend/app/core/settings_service.py:516-545` | A batch is accepted exactly when every key is known, every value can be coerced, only the program itself writes read-only settings, and the caller permits the outcome |
| `SettingsLaws.BatchIsAllOrNothing` | `backend/app/core/settings_service.py:516-566` | All of an accepted batch is stored, cached and counted as set and no other key is touched; of a refused one nothing is |
| `SettingsLaws.ReadOnlyIsKept` | `backend/app/core/settings_service.py:516-545` | No run of batches from outside changes a read-only setting |
| `SettingsService.SettingsService.ResetMany` | `backend/app/core/settings_service.py:573-600` | Rows are dropped and values fall back to defaults, or nothing changes |
| `SettingsLaws.ResetIsAllOrNothing` | `backend/app/core/settings_service.py:573-600` | Resetting known keys drops their rows and brings their defaults back, and touches no other key; with an unknown one it does nothing |
| `SettingsLaws.ResetBringsDefault` | `backend/app/core/settings_service.py:573-600` | What comes back is the default of the setting itself |
| `SettingsService.SettingsService.Reload` | `backend/app/core/settings_service.py:605-638` | Cache and explicit keys become what the table says; returns how many values moved, none on the first load |
| `SettingsLaws.SetKeepsSync` | `backend/app/core/settings_service.py:516-566` | Writing a batch keeps the cache equal to the one built from the table exactly when every stored value coerces to itself |
| `SettingsLaws.WellFormedBatchIsStable` | `backend/app/core/settings_service.py:356-373` | Every batch without a path value meets that condition |
| `SettingsLaws.ResetKeepsSync` | `backend/app/core/settings_service.py:573-600` | Resetting keeps cache and table in step |
| `SettingsLaws.ReloadMovesNothing` | `backend/app/core/settings_service.py:605-638` | With no outside writer a reload moves no value and does not bump the version |
| `SettingsLaws.ReloadCountsMoves` | `backend/app/core/settings_service.py:605-638` | The first load sets the baseline and bumps nothing; a later one counts exactly the settings whose value is not the same |
| `SettingsLaws.SameValueIff` | `backend/app/core/settings_service.py:619-626` | Two values are the same exactly when they are equal as numbers, True being 1, or are the same thing |
| `SettingsLaws.ReloadMovesUnstableValue` | `backend/app/core/settings_service.py:605-638` | A value that coerces to a different one (1, 1.0 and True being the same) is moved by the next reload, with one bump |
| `SettingsLaws.RunKeepsSync` | `backend/app/core/settings_service.py:516-638` | After a load, any run of writes, resets and reloads keeps cache and table in step |
| `SettingsLaws.VersionCountsMoves` | `backend/app/core/settings_service.py:516-694` | Each operation compares only the values it writes, yet the version rises by one exactly when some value of all the settings moved, by Python equality |
| `SettingsWait.RunKeepsInv` | `backend/app/core/settings_service.py:669-694` | In every reachable state a waiter on an unset event waits for a version still to come |
| `SettingsWait.StateIsTold` | `backend/app/core/settings_service.py:669-694` | Along every run the version counts the bumps, and a task waits exactly from its call until it leaves, for what it asked for then |
| `SettingsWait.WaiterNeverMissesABump` | `backend/app/core/settings_service.py:669-694` | Once the version has passed what a task waits for, it can wake and returns the new version |
| `SettingsWait.ReturnedVersionIsNewer` | `backend/app/core/settings_service.py:669-681` | What is returned is newer than what was asked for |
| `LogSink.DatabaseLogSink.Emit` | `backend/app/core/logging.py:379-417` | One call leaves the state of the specification, whose meaning the rows of LogSinkHistory give |
| `LogSinkHistory.FilteredAreBelowLevel` | `backend/app/core/logging.py:379-384` | Over any run the filtered records are exactly those not forced and below the level of their moment |
| `LogSinkHistory.StoredAreHeard` | `backend/app/core/logging.py:403-417` | The records ever queued are, in order, exactly those not filtered that came outside a window of their own message |
| `LogSinkHistory.RepetitionsAreSpokenFor` | `backend/app/core/logging.py:403-448` | Of each message, its summaries and its window together speak for exactly its own repetitions |
| `LogSinkHistory.WindowsAreLatest` | `backend/app/core/logging.py:403-417` | A window started when its message was last stored, counts the repetitions since, and remembers the latest of them |
| `LogSinkHistory.EmitView` | `backend/app/core/logging.py:379-417` | Of every message at once: a record below the level changes nothing, a repetition adds one to the window of its message and changes no other, and any other record is stored and opens one |
| `LogSinkHistory.StoringOpensAWindow` | `backend/app/core/logging.py:413-434` | A stored record has a window from then on and every other message keeps its own, except that one too many makes the earliest of all go |
| `LogSinkHistory.EmittingSpeaks` | `backend/app/core/logging.py:413-448` | Storing queues summaries, each of one window with its own count, and then the record; nothing else is queued, and rows are lost only for want of room, as many as do not fit |
| `LogSink.DatabaseLogSink.SweepLocked` | `backend/app/core/logging.py:489-497` | Closes every expired window, or all of them, queueing their summaries |
| `LogSinkHistory.DrainView` | `backend/app/core/logging.py:489-503` | A drain closes the window of a message exactly when it is forced or the window is over, and then a summary speaks for its count |
| `LogSinkHistory.DrainingSpeaks` | `backend/app/core/logging.py:489-503` | A drain queues only such summaries, loses only what does not fit, and takes the oldest 500 rows, or all |
| `LogSink.DatabaseLogSink.TakeLocked` | `backend/app/core/logging.py:499-503` | Takes up to 500 rows from the front |
| `LogSinkLaws.EmitKeepsInv` | `backend/app/core/logging.py:379-448` | Emitting keeps every conservation law and bound |
| `LogSinkLaws.DrainKeepsInv` | `backend/app/core/logging.py:489-514` | Sweeping and taking keep them too |
| `LogSinkLaws.RunKeepsInv` | `backend/app/core/logging.py:379-514` | Under any interleaving, with the level set anew at any time: seen = filtered + suppressed + originals; enqueued = originals + summaries = dropped + taken + queued; suppressed = carried by summaries + pending; queue and windows stay bounded, in order |
| `LogSinkLaws.EmptySinkHasSpoken` | `backend/app/core/logging.py:379-514` | Once nothing is buffered, every record seen was filtered, or is spoken for by a row taken or by a row dropped |
| `LogSinkLaws.Flush` | `backend/app/core/logging.py:505-514` | A flush with nobody else emitting terminates with an empty queue, and no open window if forced; what it wrote is what was queued, in order |
| `RateLimit.RateLimiter.RecordFailure` | `backend/app/auth/ratelimit.py:83-95` | Adds the failure to each key and to the global bucket, pruning, capping and evicting on the way |
| `RateLimit.RateLimiter.RetryAfter` | `backend/app/auth/ratelimit.py:54-60` | Consults one bucket only, and changes nothing but to prune it |
| `RateLimit.RateLimiter.DelayFor` | `backend/app/auth/ratelimit.py:63-80` | The worst delay over the given keys and the global bucket, at most three seconds |
| `RateLimitLaws.RunKeepsInv` | `backend/app/auth/ratelimit.py:83-146` | Under a monotone clock buckets stay sorted, at most 240 long and 4096 in number, and never hold more than really happened |
| `RateLimitLaws.RefusalIsEarned` | `backend/app/auth/ratelimit.py:54-60` | A refused key failed at least ten times itself within the window and since its last success, whatever happened under other keys |
| `RateLimitLaws.StaysExactIff` | `backend/app/auth/ratelimit.py:83-146` | A step leaves the bucket of a key telling exactly what happened in every open window precisely when it records into a bucket with room, or evicts no live bucket of that key |
| `RateLimitLaws.RefusedIffEarned` | `backend/app/auth/ratelimit.py:54-60` | Along a run of such steps a key is refused exactly when it failed at least ten times (the global one sixty) within the window and since its last success |
| `RateLimitLaws.FullBucketForgets` | `backend/app/auth/ratelimit.py:83-95` | After 240 or more recorded calls for a key at one instant, however many at a later one are dropped: once the first have left the window neither the key nor the global bucket has a live entry |
| `RateLimitLaws.RefusedUntil` | `backend/app/auth/ratelimit.py:118-126` | With nothing new, the key is refused exactly until the tenth newest live failure leaves the window |
| `RateLimitLaws.WaitIsExact` | `backend/app/auth/ratelimit.py:118-126` | The key is refused at every instant before the returned wait is over; it is admitted then exactly when that failure is as old as the oldest, as with exactly ten live ones |
| `RateLimitLaws.ElevenFailuresOutlastTheWait` | `backend/app/auth/ratelimit.py:118-126` | Eleven calls of record_failure a second apart: still refused when the returned wait is over |
| `RateLimitLaws.OnlyFullBucketsDelay` | `backend/app/auth/ratelimit.py:63-80` | An attempt waits at all exactly when some bucket is past its limit |
| `RateLimitLaws.DelayGrowsByQuarters` | `backend/app/auth/ratelimit.py:63-80` | Each live failure past the limit (ten, or sixty for the global bucket) adds a quarter of a second, up to three |
| `RateLimitLaws.WorstIsTheLongest` | `backend/app/auth/ratelimit.py:63-80` | An attempt waits at least what each of its buckets says |
| `RateLimitLaws.WorstIsOneOfThem` | `backend/app/auth/ratelimit.py:63-80` | And it waits what one of them says, if it waits at all |
| `RateLimitLaws.GlobalFailuresSurvive` | `backend/app/auth/ratelimit.py:135-146` | However full the table, eviction never forgets a live global failure |
| `Retry.RetryOnLocked` | `backend/app/db/retry.py:89-135` | The loop ends with the result of the attempt the specification says, after the pauses between attempts |
| `Retry.AttemptsAreBounded` | `backend/app/db/retry.py:113-135` | At most max(1, n) attempts |
| `Retry.OnlyLockedIsRetried` | `backend/app/db/retry.py:113-135` | Every attempt but the last raised a locked error with attempts left and a session fit for another one, the last lacked one of these, and what it did is what the caller gets |
| `Retry.SleepIsBounded` | `backend/app/db/retry.py:125-134` | All pauses together are between 0.5 and 1.5 times base * (2^(n-1) - 1) for n attempts |
| `Retry.WriteCommits` | `backend/app/db/retry.py:138-171` | From any active session: returning means neither the work nor the commit of the last attempt failed, and commits that work after whatever was pending since the last rollback that took effect, and nothing else; so it is committed alone exactly when nothing was carried over. Raising commits nothing, and raises an error of the last attempt |
| `Retry.WriteCommitsOnce` | `backend/app/db/retry.py:138-171` | From an active session with nothing pending, if every rollback takes effect, returning commits exactly the work of the last attempt, once, and raising commits nothing |
| `Retry.FailedRollbackCommitsTwice` | `backend/app/db/retry.py:162-169` | A rollback that fails without breaking the session lets the work of two attempts be committed |
| `Retry.CommitKeepsPendingWork` | `backend/app/db/retry.py:174-196` | Returning means all that was pending is committed, never an emptied transaction; raising commits nothing |
| `VehicleViews.SelectVehicleViews` | `backend/app/ai/plate_frames.py:34-57` | The greedy choice in order of preference, stopped at the limit, in order of time |
| `VehicleViews.ValidIff` | `backend/app/ai/plate_frames.py:18-46` | A view is valid exactly when it is a box of positive size inside the picture, seen with some confidence, at a time of the recording |
| `VehicleViews.PreferredIff` | `backend/app/ai/plate_frames.py:25-52` | Views are preferred by area times confidence, then by time, one within 0.003 of an edge counting 3/20 of one that is not |
| `VehicleViews.SelectionSpec` | `backend/app/ai/plate_frames.py:34-57` | At most max(1, limit) valid views, in order of time, pairwise at least 0.5 s apart; a valid baseline is kept when there is room for two; every other valid view lost to a chosen one at least as good, or to a full selection of such |
| `VehicleViews.BelowTheLimitOnlyNeighboursLose` | `backend/app/ai/plate_frames.py:34-57` | Below the limit every rejected valid view lies within 0.5 s of a chosen one |
| `TemporalVote.Decide` | `backend/app/ai/plate_frames.py:74-136` | Grouping the admitted readings and ranking the groups gives the winner of the specification |
| `TemporalVote.CountsIff` | `backend/app/ai/plate_frames.py:83-96` | A reading counts exactly when there is something to read, it matches or need not, and it reaches the minimum and 0.9, or 0.8 where it names states or need not |
| `TemporalVote.JoinedKeepsTheSurest` | `backend/app/ai/plate_frames.py:97-109` | Of one frame the surest reading is kept, and nothing else comes or goes |
| `TemporalVote.LoneFrameIsStrong` | `backend/app/ai/plate_frames.py:115-121` | A vote for one frame alone is for a reading of at least 0.92, and the minimum, that names states or need not |
| `TemporalVote.VoteReports` | `backend/app/ai/plate_frames.py:128-136` | A vote reports the means of its supporters, the surest of them, and their offsets in order |
| `TemporalVote.AlternativesAreTheBest` | `backend/app/ai/plate_frames.py:112-136` | With it come the three best supported other identities with their support, the best first, or all if fewer |
| `TemporalVote.OthersAreNoBetter` | `backend/app/ai/plate_frames.py:112-136` | No identity left out has more support than one of those |
| `TemporalVote.VoteIsDominant` | `backend/app/ai/plate_frames.py:112-127` | There is a vote for an identity exactly when it has more than twice the support of every other and is not one weak frame alone |
| `TemporalVote.VoteWasRead` | `backend/app/ai/plate_frames.py:83-111` | The identity was normalised from an admitted reading, and so was every supporter |
| `VoteSpacing.JoinedStaysDistinctIff` | `backend/app/ai/plate_frames.py:97-109` | Adding a reading to a group of different frames leaves them different exactly when it replaces nothing, or no later member is of its frame |
| `VoteSpacing.JoinedIsDistinctIff` | `backend/app/ai/plate_frames.py:97-109` | Whatever the group was before: after a replacement its members are of different frames exactly when the others were and none of the later ones is of the frame of the new one; otherwise exactly when they were |
| `VoteSpacing.DistinctAfterIff` | `backend/app/ai/plate_frames.py:97-109` | The same for all identities after one more reading, with nothing assumed of the readings before |
| `VoteSpacing.SupportersAreDistinctIff` | `backend/app/ai/plate_frames.py:97-109` | For readings in any order, the supporters of every identity are from different frames after every reading exactly when every reading is added in that way |
| `VoteSpacing.VoteOffsetsAreSpacedIff` | `backend/app/ai/plate_frames.py:112-136` | The offsets a vote reports are pairwise at least 0.5 s apart exactly when its supporters are from different frames |
| `VoteSpacing.VoteIsSpacedIff` | `backend/app/ai/plate_frames.py:97-136` | For readings in any order, the offsets of the vote are pairwise at least 0.5 s apart exactly when no reading took a place before that of a reading of its frame with neither place taken again later |
| `VoteSpacing.SupportersAreSpaced` | `backend/app/ai/plate_frames.py:97-109` | For readings in time order supporters are pairwise at least 0.5 s apart |
| `VoteSpacing.UnsortedReadingsCrowd` | `backend/app/ai/plate_frames.py:97-109` | Three readings at 1.0, 1.8 and 1.4 s, in that order, decide a vote whose two supporters are at 1.4 and 1.8 s |
| `VoteSpacing.LaterReadingMends` | `backend/app/ai/plate_frames.py:97-109` | A fourth, clearer reading at 1.2 s replaces the one at 1.4 s and leaves the supporters at 1.2 and 1.8 s: what went wrong in between need not last |
| `TreeSize.DirectorySize` | `backend/app/core/paths.py:244-292` | The walk with a stack adds up to the recursive sum over the tree |
| `TreeSize.EntryAdds` | `backend/app/core/paths.py:269-291` | A file of a wanted extension whose size can be told adds its bytes and one file, a directory what is in it, and anything else nothing |
| `TreeSize.LinksNeverCount` | `backend/app/core/paths.py:269-276` | Cutting every link off the tree does not change its size |
| `TreeSize.WiderFilterCountsMore` | `backend/app/core/paths.py:256-291` | A wider extension filter never counts less |
| `TreeMeasure.TreeMeasurements.Finish` | `backend/app/core/paths.py:371-374` | A measurement is cached only if the generation is still the one it began under |
| `TreeMeasure.RunKeepsInv` | `backend/app/core/paths.py:345-382` | Under any interleaving of walks and invalidations, cached entries and walks of the current generation are newer than the last invalidation |
| `TreeMeasure.CachedSizeIsNotStale` | `backend/app/core/paths.py:365-374` | A size served from the cache came from a walk that began after the last invalidation |
| `TreeMeasure.CacheIsLatest` | `backend/app/core/paths.py:345-382` | Along every run the cache holds for each key exactly its latest measurement, since anything was forgotten, by a walk during which nothing was |
| `TreeMeasure.ServedIff` | `backend/app/core/paths.py:365-374` | A size is served at once exactly when that measurement gave it and is younger than the caller allows |
| `TreeMeasure.OvertakenWalkIsNotCached` | `backend/app/core/paths.py:371-382` | A walk overtaken by an invalidation leaves the cache as it is |

## Left out

- Rounding: means, clips and costs are exact reals or integers, so nothing about floating point is claimed.
- The Kalman filter, `consider_best` and crops: a track's overlap with a detection is a parameter of each update.
- ByteTracker.ByteTracker.Update: track boxes and best frames are not part of the state, because they are floating-point numerics.
- SettingCoercion.CoercedIsStable: reading numbers out of text is a parameter, bounds are assumed in order and a pinned value acceptable, and int-to-float conversion is exact, because Python's own number parsing is not visible here.
- SettingCoercion.PathIsStable: UNC paths are not modelled as absolute, because their parsing belongs to pathlib.
- SettingsService.SettingsService.SetMany: subscribers are not notified and the write lock is implicit, because a write is one step.
- IterFrames.DecodeMemory.Iterate: other tasks do not touch the two sets between attempts, and decoder callbacks are omitted; the decision to refuse a file and the test of the proven set are one step in the code as well.
- MediaGate.MediaGate.Close: the background task that retires a child left over is not in this contract; its exit is a step of the runs.
- MediaGate.MediaGate.Settle: only exits happen during the wait; launches in between are steps of the runs.
- MediaGate.MediaGate.RunProcess: launching and registering are one step, and nothing else happens meanwhile; the runs interleave them.
- MediaGateRuns.ActKeepsInv: launching and registering a child is one step, so a cancellation between the two is outside the model.
- `ObjectDetector.detect` asks whether the slot is sound before entering it; nothing is claimed for it.
- Fairness of the asyncio lock and of the reapers: only that the slot can be given back and recovers.
- NativeLanes.ActKeeps: memoising `selected_device` and listing the devices, which the code does outside the lanes, are not modelled; initialisation checks the latch again.
- LogSink.DatabaseLogSink.Emit: the text of a summary row and the trimming of long messages are not modelled, nor is what the database does with a batch.
- Retry.RetryOnLocked: which error texts mean a lock, and walking exception chains, are a flag on the error.
- TemporalVote.Decide: means are not rounded to four places.
- TreeSize.DirectorySize: extensions arrive normalised, and a failing scan is a listing that stops early.
- `measure_tree` keys are given; how two spellings of a path share one is lexical normalisation.
- The session cache in `auth/service.py`, backups, redaction, the settings catalogue, routes, schemas and the frontend.
- `sampling_rate`: rests on how `Fraction.limit_denominator` approximates a float, which belongs to the standard library.
- `safe_join`: what it promises rests on how the file system resolves links, which is not visible here.
- `api/visibility.py`: conditions handed to the database, whose evaluation is not visible here.
- `auth/gate.py`: which credentials a request carries, and the session store that checks them, are not modelled.
