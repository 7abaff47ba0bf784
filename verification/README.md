# Hapax council agents: verified models

Dafny models of the agents' self-contained algorithms and long-running state machines, with the
properties they are relied on for. Floats are modelled by `real`, so everything below is about exact
arithmetic; integers are unbounded, as in Python. Code that mutates objects is modelled by classes whose
methods are proved against specification functions on values, what a caller can observe and what holds
over whole runs is proved about those functions, in terms that do not mention them where that is possible.

Check everything with `dafny verify dfyconfig.toml`.

## Components

| component | files |
|---|---|
| ByteTrack tracker: greedy association, box overlap, the tracker's frames and runs | `Assignment.dfy`, `Boxes.dfy`, `Frames.dfy`, `FrameFates.dfy`, `Reports.dfy`, `Tracker.dfy`, `TrackerRuns.dfy` |
| Bayesian online change-point detector | `Histories.dfy`, `ChangePoint.dfy`, `ChangePointRuns.dfy`, `Kernels.dfy`, `MultiSignal.dfy` |
| Public-event producers: cursor, shared output file, id cache, crashes | `PublicEvents.dfy`, `EventIds.dfy`, `EventText.dfy` |
| Service graph: impact analysis and remediation order | `ServiceGraph.dfy`, `Remediation.dfy`, `RemediationLaws.dfy`, `DependencyOrder.dfy`, `ReturnedOrder.dfy`, `Repeats.dfy` |
| Apperception cascade and its rumination breaker | `Apperception.dfy`, `ApperceptionRuns.dfy`, `CascadeLaws.dfy`, `Cascade.dfy` |
| Provenance expressions and the consent registry | `Provenance.dfy`, `Consent.dfy`, `ConsentRuns.dfy` |
| Health history rollup and rotation | `Grouping.dfy`, `HealthHistory.dfy`, `HealthHistoryRuns.dfy`, `DaySummaries.dfy`, `Rotation.dfy` |
| Capacity regression | `Capacity.dfy` |
| Music regions | `MusicRegions.dfy` |
| Correction questions and their daily budget | `ActiveCorrection.dfy`, `QuestionBudget.dfy` |
| Project directory names | `ProjectDir.dfy` |
| Shared: options, lists, arithmetic on reals | `Options.dfy`, `Sequences.dfy`, `Sums.dfy` |

## Where the code does not do what one would expect

The models follow the code. These lemmas show, for all inputs or on a concrete one, where it parts from
its documentation or from the natural reading:

- `ChangePointRuns.EmissionIgnoresData`: whether a change point is emitted depends only on the hazard, the
  threshold and the observation count, never on the data (agents/bocpd.py:40-41 calls the threshold a
  probability threshold for emitting).
- `Capacity.OptimalIff`, `Capacity.GuardMissesATrend`: below the denominator guard the returned line is
  not the least-squares line unless the data has no linear trend.
- `Rotation.StraddledHourLosesRun`: runs of an hour that straddles the retention boundary are dropped by
  the next rotation; `Rotation.NothingLostIff` says exactly when nothing is lost.
- `ProjectDir.PathRecovered`, `ProjectDir.TwoDashesLost`: probing decodes a path correctly exactly when
  every single probe answers right; it does not find the longest existing path, as
  agents/claude_code_sync.py:79-81 says.
- `ConsentRuns.DefaultIdsCollide`, `ConsentRuns.SameDayContractRevives`: two default contract ids are the same
  exactly for the same person and day, so a contract made on the day of a purge takes the purged one's id;
  `ConsentRuns.CreateAndData` says exactly when a creation brings data back, `ConsentRuns.AliveAfterRun`
  exactly which data is alive after any run.
- `ConsentRuns.ReloadRevives`: a purge writes no file, so reading the contract directory again makes the
  purged contracts active (agents/_governance.py:56-77 and 112-130).
- `Provenance.FlatteningIsConservative`: keeping only the flat form of an expression can only make data
  die earlier, except for Zero, which comes alive.
- `QuestionBudget.BudgetBreaksIff`: exactly which clocks let some run put more questions on a day than the
  budget. `QuestionBudget.SteppingBackBreaksBudget` is one of them, stepping back over midnight;
  `QuestionBudget.SteppingBackMayKeepBudget` steps back over midnight too and is not.
- `Repeats.RepeatedDependentLost`, `Repeats.RepeatedSourceMisorders`: a request that repeats a service, as
  agents/health_monitor/output.py:113-117 builds for two failing checks on one service, can lose an entry or
  put a service before its dependency. `RemediationLaws.PermutationIff` and
  `RemediationLaws.AcyclicPermutationIff` say exactly when entries are lost; repeating services does not
  disorder the result unless the repeated one has no requested dependency and has a requested dependent
  (`DependencyOrder.DependenciesComeFirst`). Whether such a repeat does disorder it also depends on where in
  the request it stands.
- `EventText.BoundaryIdsAgree`: an event id folds case and punctuation, so two records that differ in nothing
  else share one id, and the later one counts as already written.

## Model

| member | source | states |
|---|---|---|
| `Assignment.ArgsortDescending` | agents/byte_tracker.py:77-78 | some permutation of the indices in descending order of the keys; ties are left open, so nothing below depends on how they are broken |
| `Assignment.RavelDecode` | agents/byte_tracker.py:78-81 | dividing a flat index by the column count finds the cell whose score stands there in the row-major list |
| `Assignment.LinearAssignment` | agents/byte_tracker.py:65-92 | the matches are distinct, in descending score, a matching at or above the threshold that blocks every other cell at or above it with a score at least as high; the unmatched lists are the exact ascending complements |
| `Assignment.GreedyHalfOptimal` | agents/byte_tracker.py:65-92 | for every matching of cells at or above a non-negative threshold (or non-negative scores), its weight is at most twice the greedy one |
| `Assignment.GreedyMaximal` | agents/byte_tracker.py:79-88 | no further cell at or above the threshold can be added to the greedy matching |
| `Assignment.GreedyUnique` | agents/byte_tracker.py:78-88 | without equal scores the greedy outcome is unique, whatever the sort does |
| `Assignment.FactorTwoIsTight` | agents/byte_tracker.py:77-88 | a score matrix on which greedy gets exactly half of what a matching can |
| `Boxes.IouBatch` | agents/byte_tracker.py:47-62 | the matrix holds the overlap of every row box with every column box, also when one list is empty |
| `Boxes.IouRange` | agents/byte_tracker.py:52-62 | for all boxes, proper or not, overlap lies in [0, 1], is symmetric, is 1 exactly for one and the same proper box and 0 exactly for an empty intersection |
| `Boxes.NestedIou` | agents/byte_tracker.py:52-62 | a box inside another overlaps it by the share of the area it fills |
| `Boxes.ShiftedIou` | agents/byte_tracker.py:52-62 | a box moved sideways by less than its width overlaps its old place by (width - move) / (width + move) |
| `Boxes.AssociationHalfOptimal` | agents/byte_tracker.py:161-162 | on box overlap the factor-two guarantee needs no assumption on the threshold |
| `Tracker.Track.constructor` | agents/byte_tracker.py:195-200 | a new track: age 0, one hit, no misses, no velocity |
| `Tracker.Track.Predict` | agents/byte_tracker.py:31-36 | one more frame of age and of misses, nothing else changed; returns box plus velocity |
| `Tracker.Track.Update` | agents/byte_tracker.py:38-44 | new box and confidence, one more hit, misses back to 0, name and age untouched; the velocity comes 0.7 as far from the displacement as it was |
| `Tracker.Associate` | agents/byte_tracker.py:157-185 | one stage is a greedy association of the given tracks and detections; exactly the matched tracks take their detections |
| `Tracker.AssociateAll` | agents/byte_tracker.py:138-191 | the two stages form a plan: first stage greedy on high-confidence detections with the boxes before the frame, second stage greedy on the tracks left over; births are the high ones nobody took |
| `Tracker.FirstStageLeaves` | agents/byte_tracker.py:169-178 | the second stage scores the left-over tracks at the boxes they had before the frame |
| `Tracker.KeepAlive` | agents/byte_tracker.py:204-205 | keeps, in order, exactly the tracks whose misses are at most max_age |
| `Tracker.ByteTracker.StartTracks` | agents/byte_tracker.py:193-202 | one new track per detection with consecutive ids, old tracks untouched |
| `Tracker.ByteTracker.Update` | agents/byte_tracker.py:126-223 | a frame's whole effect on list, ids and every track field is the step of its plan; on reports alone: each shows one detection's box, confidence and label or a track as it was, no detection is shown twice, every high-confidence one is shown, and what stayed overlaps too little what started or was left |
| `Reports.FrameReport` | agents/byte_tracker.py:138-223 | every plan's frame reports so, moved tracks overlapping their detection by at least the threshold |
| `Tracker.ByteTracker.Reset` | agents/byte_tracker.py:225-228 | no tracks and ids from 1 again |
| `FrameFates.DetectionFates` | agents/byte_tracker.py:146-202 | every track is updated at most once per frame; each high-confidence detection updates exactly one track or starts exactly one; low ones start none; others do nothing |
| `TrackerRuns.StepKeepsInv` | agents/byte_tracker.py:126-207 | each frame keeps ids strictly increasing and below the counter, hits + misses at most age + 1, and nobody overdue |
| `TrackerRuns.UpdateIsStep` | agents/byte_tracker.py:126-207 | every call of update is a step of the run model |
| `TrackerRuns.RunKeepsInv` | agents/byte_tracker.py:126-228 | the invariant in every state of every run from a fresh or reset tracker |
| `TrackerRuns.IdFate` | agents/byte_tracker.py:138-205 | what a frame does to any id: a live one survives exactly when hit or within the miss limit, a gone one stays gone, a new one starts with no misses |
| `TrackerRuns.NeverReissued` | agents/byte_tracker.py:196-202 | in every run the counter never goes back and an id that is gone never comes back |
| `TrackerRuns.LiveIffNeverOverdue` | agents/byte_tracker.py:138-144 | in every run an issued id is live exactly while its streak of consecutive misses, counted from the frames alone, never exceeded max_age |
| `TrackerRuns.CountsOfLife` | agents/byte_tracker.py:31-44 | in every run a live track's age is the number of frames since it was issued and its hits are the detections it has carried, counted from the frames alone |
| `Histories.AllHistoriesComplete` | agents/bocpd.py:102-115 | the enumeration names each change/no-change history of length n exactly once, 2^n in all |
| `Histories.MassRecursion` | agents/bocpd.py:107-115 | the weights of all 2^n histories, summed by run length, obey the online change-and-growth recursion |
| `ChangePoint.BOCPDDetector.constructor` | agents/bocpd.py:56-69 | starts with certainty of run length 0 and the prior's statistics |
| `ChangePoint.BOCPDDetector.Update` | agents/bocpd.py:71-186 | the five parallel lists, the counter, the emission clock, the returned change point and the last-50 memory after one observation |
| `ChangePoint.BOCPDDetector.Detect` | agents/bocpd.py:166-186 | emits exactly at or above the threshold and at least 5 steps after the last, with the first most probable positive run length |
| `ChangePoint.BOCPDDetector.Prune` | agents/bocpd.py:157-164 | all five lists are cut to the same 300 entries |
| `ChangePoint.BOCPDDetector.Reset` | agents/bocpd.py:211-220 | back to the initial state |
| `ChangePoint.BOCPDDetector.CurrentRunLength` | agents/bocpd.py:193-198 | the first most probable run length, a valid index of the lists |
| `ChangePoint.ArgMax` | agents/bocpd.py:170-172 | the first index of a largest entry |
| `ChangePoint.Grow` | agents/bocpd.py:142-145 | growing a proper segment keeps it proper and never lowers its scale |
| `ChangePointRuns.GrowBatch` | agents/bocpd.py:136-150 | one incremental update of a batch's posterior is the posterior of the longer batch |
| `ChangePointRuns.BatchIsLeastSquares` | agents/bocpd.py:142-145 | the reported location is the best centre for prior and data, and twice the scale gained is the least weighted squared deviation |
| `ChangePointRuns.OnlineEqualsBatch` | agents/bocpd.py:130-164 | in every run the lists have length min(t+1, 300), index i holds the posterior of exactly the last i observations, scales never fall below the prior's and every predictive variance is positive |
| `ChangePointRuns.MassAtZero` | agents/bocpd.py:107-126 | in any state, for any data and density, the new mass at run length 0 is 1/hazard_lambda |
| `ChangePointRuns.PosteriorSumsToOne` | agents/bocpd.py:117-122 | every posterior sums to one before it is cut |
| `ChangePointRuns.EmissionIgnoresData` | agents/bocpd.py:166-184 | in every run a change point is emitted exactly at observations 1, 6, 11, ... if 1/hazard_lambda reaches the threshold, and never otherwise |
| `ChangePointRuns.PosteriorIsBruteForce` | agents/bocpd.py:83-128 | before the first cut and away from the underflow floor the per-step-normalised posterior equals the once-normalised sum over all 2^n histories |
| `Kernels.HandedArguments` | agents/bocpd.py:86-90 | whatever the density, it is handed degrees of freedom that make one more twice the next segment's alpha, and the variance at which the observation's deviation is the relative growth of beta |
| `Kernels.UpdateByGrowth` | agents/bocpd.py:83-150 | under a Student t shape the new posterior is the surviving share of weights read off the scales before and after the observation, with the floor for small probabilities |
| `Kernels.SegmentByGrowth` | agents/bocpd.py:83-150 | so the likelihoods in the sum over all histories are those of batch scales alone |
| `Kernels.LastFiftyRemembered` | agents/bocpd.py:62 | of all emitted change points the last 50 are remembered, in order |
| `MultiSignal.MultiSignalBOCPD.constructor` | agents/bocpd.py:236-242 | one fresh detector per listed signal, repeats collapsing |
| `MultiSignal.MultiSignalBOCPD.Update` | agents/bocpd.py:244-265 | each value reaches its own signal's detector in order, unknown signals get one first, and the change points come back in order |
| `MultiSignal.SignalsIndependent` | agents/bocpd.py:225-229 | after any run of frames a signal's detector is where it would be had it alone seen its own readings |
| `MultiSignal.FrameEmitsInOrder` | agents/bocpd.py:244-265 | a frame with one value per signal returns, in the order of the values, what each signal's own detector emits |
| `MultiSignal.EmissionSays` | agents/bocpd.py:166-184 | an emission names its signal and moment, carries the hazard as its probability and the first most probable run length from 1 on |
| `PublicEvents.Producer.EventAlreadyWritten` | agents/broadcast_boundary_public_event_producer.py:269-272 | the cache is loaded from the output file once and then answers alone |
| `PublicEvents.Producer.AppendPublicEvent` | agents/broadcast_boundary_public_event_producer.py:257-267 | a failed append changes neither file nor cache; a good one extends both, the cache only if loaded |
| `PublicEvents.Producer.RunOnce` | agents/broadcast_boundary_public_event_producer.py:144-255 | a batch from any cursor (from the start if the file shrank, from the rest of the line if the cursor points into one) has exactly the effect of the tick function on output, cache and cursor, and returns the number of new records |
| `PublicEvents.AlignedAt` | agents/broadcast_boundary_public_event_producer.py:179-186 | a reader that starts inside a line sees the rest of it as a line; one that starts at a line sees the log; no byte is lost |
| `PublicEvents.TickStops` | agents/broadcast_boundary_public_event_producer.py:218-220 | a batch stops short of the end only at an event whose append fails |
| `PublicEvents.TickIsTrace` | agents/chronicle_high_salience_public_event_producer.py:155-193 | a whole batch is a sequence of the protocol's atomic actions |
| `PublicEvents.TickKeepsInv` | agents/chronicle_high_salience_public_event_producer.py:155-211 | a batch keeps exactly-once, and one without failed appends leaves the output equal to the deduplicated ids of the whole log |
| `PublicEvents.StepKeepsInv` | agents/broadcast_boundary_public_event_producer.py:144-272 | every atomic action of any producer, a crash between append and cursor write included, keeps every producer's exactly-once invariant |
| `PublicEvents.ExactlyOnce` | agents/broadcast_boundary_public_event_producer.py:215-272 | in every run with failed appends, crashes, restarts and other producers on the same file, a producer's records are the first-occurrence dedup of the ids of its first k lines, k at the cursor or one past it |
| `PublicEvents.OutputMeaning` | agents/broadcast_boundary_public_event_producer.py:473-486 | so no id is there twice, none is missing up to the cursor and none is invented |
| `PublicEvents.CaughtUp` | agents/broadcast_boundary_public_event_producer.py:215-255 | a cursor at the end of the log means all of it is written |
| `PublicEvents.AtMostOnce` | agents/broadcast_boundary_public_event_producer.py:149-154 | even when logs are replaced and cursors start over, no producer writes an id twice |
| `EventIds.SanitizedPrefix` | agents/broadcast_boundary_public_event_producer.py:526-532 | sanitising leaves a prefix of lower-case letters and inner colons in place, whatever follows it |
| `EventIds.BoundaryOwned` | agents/broadcast_boundary_public_event_producer.py:350-362 | every boundary id, for any record fields, is recognisably the boundary producer's |
| `EventIds.ChronicleOwned` | shared/research_vehicle_public_event_chronicle.py:291-305 | every chronicle id is recognisably the chronicle producer's |
| `EventIds.ProducersOwnTheirLogs` | agents/chronicle_high_salience_public_event_producer.py:32-43 | the two producers never share an id, which is what exactly-once on one default output file needs |
| `EventIds.ProducersExactlyOnce` | agents/broadcast_boundary_public_event_producer.py:215-272 | in every interleaving of the two producers on one output file, whatever their source records hold, each one's records are exactly-once |
| `EventText.BoundarySpelled` | agents/broadcast_boundary_public_event_producer.py:350-362 | with clean fields a boundary id is the prefix, timestamp, incoming, outgoing and digest in this order, letters lowered and other characters turned into underscores |
| `EventText.ChronicleSpelled` | shared/research_vehicle_public_event_chronicle.py:291-305 | so is a chronicle id, of the mapped type and the five fields |
| `EventText.BoundaryIdsAgree` | agents/broadcast_boundary_public_event_producer.py:350-362 | two boundary records have one id exactly when all four fields agree up to case and punctuation |
| `EventText.ChronicleIdsAgree` | shared/research_vehicle_public_event_chronicle.py:291-305 | two chronicle records have one id exactly when all six fields agree up to case and punctuation |
| `EventText.PlainIdsAgree` | agents/broadcast_boundary_public_event_producer.py:350-362 | records whose fields are lower-case letters and digits have one id exactly if they are the same |
| `EventText.AllPublished` | agents/broadcast_boundary_public_event_producer.py:215-255 | a producer that caught up with a log of records that all differ in some field has published every one, once, in order |
| `EventText.OffsetIsZulu` | agents/broadcast_boundary_public_event_producer.py:527 | an offset of zero and a z are one and the same to an id |
| `EventText.SanitizedShape` | agents/broadcast_boundary_public_event_producer.py:526-532 | whatever it is made from, an id starts with a letter, holds only lower-case letters, digits, colons and single underscores, and ends in a letter or digit unless nothing was left |
| `ServiceGraph.DependentsExact` | agents/_service_graph.py:28-30 | the direct dependents are exactly the services listing the given one, each once |
| `ServiceGraph.DependentsInOrder` | agents/_service_graph.py:28-30 | the direct dependents come in table order |
| `ServiceGraph.ImpactAnalysis` | agents/_service_graph.py:74-94 | terminates on cyclic tables; direct then transitive list, without repeats and in non-decreasing shortest distance, exactly the services with a dependency path to the given one |
| `ServiceGraph.FoundWithin` | agents/_service_graph.py:86-92 | a finished search has found every service within distance n, no farther than n |
| `Remediation.EnterService` | agents/_service_graph.py:52-56 | one service's turn: its dependencies one by one raise its degree and list it under each requested one |
| `RemediationLaws.GraphEntered` | agents/_service_graph.py:48-56 | for any request, repeats included: a service's degree is its requested dependencies times how often it was requested, and it is listed as often under each |
| `Remediation.RemediationOrder` | agents/_service_graph.py:38-71 | terminates on every request and returns exactly the order the following rows are about |
| `RemediationLaws.PoppedMultiplicity` | agents/_service_graph.py:58-67 | a service with requested dependencies is popped at most once, one without exactly as often as requested |
| `RemediationLaws.OrderMembers` | agents/_service_graph.py:38-71 | the order lists exactly the requested services |
| `RemediationLaws.PermutationIff` | agents/_service_graph.py:38-71 | the order is a permutation of the request exactly when no popped service with a requested dependency was requested twice |
| `RemediationLaws.AcyclicPermutationIff` | agents/_service_graph.py:38-71 | without a cycle nothing is held back, and the order is a permutation exactly when no repeated known service has a requested dependency |
| `DependencyOrder.DependenciesComeFirst` | agents/_service_graph.py:39-42 | every popped service follows all its requested dependencies unless a repeated service without requested dependencies has a requested dependent |
| `DependencyOrder.HeldBackLoops` | agents/_service_graph.py:69-71 | then what is held back is exactly the services on or above a cycle |
| `DependencyOrder.HeldBackIffCycle` | agents/_service_graph.py:69-71 | then something is held back exactly when the requested services contain a dependency cycle |
| `DependencyOrder.DistinctOrder` | agents/_service_graph.py:38-71 | for distinct known services, repeated unknown ones allowed: a permutation, dependencies first, exactly the services on or above a cycle held back |
| `ReturnedOrder.UnknownLast` | agents/_service_graph.py:39-71 | in the returned list services the table does not know come last, in request order and as often as requested |
| `ReturnedOrder.SourcesFirst` | agents/_service_graph.py:58-65 | in the returned list services without requested dependencies come first, in request order and as often as requested |
| `ReturnedOrder.DependenciesEarlier` | agents/_service_graph.py:39-42 | in the returned list every known service that no cycle holds up follows all its requested dependencies, under the same condition |
| `ReturnedOrder.StuckAfterOthers` | agents/_service_graph.py:69-71 | then those on or above a cycle follow all the other known ones, in request order and as often as requested |
| `Repeats.RepeatedDependentLost` | agents/_service_graph.py:38-71 | on the real table [postgres, n8n, n8n] gives [postgres, n8n] |
| `Repeats.RepeatedSourceMisorders` | agents/_service_graph.py:38-71 | on the real table asking for ollama twice puts open-webui before litellm, on which it depends |
| `Cascade.SelfDimension.Update` | agents/_apperception.py:95-125 | counts, confidence and shift time after one valence: down for a negative one, up for a positive one, by 0.02 of it up to 0.7 and damped down to 0.001 beyond, within [0.05, 0.95] |
| `CascadeLaws.KeptMoves` | agents/_apperception.py:95-125 | a kept event moves the confidence of its dimension by that rule, counts the evidence and notes the time of a change; every other dimension stays, and an event not kept moves nothing |
| `CascadeLaws.LargerIsSmaller` | agents/_apperception.py:106-115 | beyond 0.7 a larger valence takes a step no larger |
| `CascadeLaws.EvidenceCounts` | agents/_apperception.py:101-104 | in every run a dimension's evidence is the number of kept events for and against it |
| `CascadeLaws.ObservationsAreLatest` | agents/_apperception.py:549-618 | in every run the observations remembered are those of the last 20 kept events |
| `CascadeLaws.KeptCoherence` | agents/_apperception.py:151-160 | after a kept event the coherence is the mean confidence of all dimensions, or 0.15 if that is more |
| `CascadeLaws.FilteredIff` | agents/_apperception.py:308-356 | an event is filtered exactly if a critical stance bars its source, its digest is remembered, or it is no correction and its signal is below 0.2, or 0.1 while coherence is below 0.4 |
| `CascadeLaws.StoppedIff` | agents/_apperception.py:521-545 | past the filters it is stopped exactly if its gate is closed or it is negative after four recorded negatives |
| `CascadeLaws.KeptIff` | agents/_apperception.py:444-515 | past the check it is kept exactly if it is a correction, calls for action, brings a reflection, or has a signal above 0.5 and a valence beyond 0.3; and what it then reports |
| `CascadeLaws.AboutAndSign` | agents/_apperception.py:365-439 | which dimension an event is about and what its valence is, by source |
| `Cascade.ApperceptionCascade.GetOrCreate` | agents/_apperception.py:145-149 | the dimension's own object, created at 0.5 on first use, the others untouched |
| `Cascade.ApperceptionCascade.UpdateCoherence` | agents/_apperception.py:151-160 | coherence becomes the clamped mean confidence, or stays without dimensions |
| `Cascade.ApperceptionCascade.StepAttention` | agents/_apperception.py:308-325 | passes exactly unless the stance bars the source or the digest is among the last 50, which only a passing event joins |
| `Cascade.ApperceptionCascade.CheckRumination` | agents/_apperception.py:521-545 | gated exactly when a gate is active or this valence completes five negatives; histories and gates afterwards |
| `Cascade.ApperceptionCascade.Run` | agents/_apperception.py:549-665 | the outcome and the whole new state of the seven steps |
| `ApperceptionRuns.ProcessKeepsInv` | agents/_apperception.py:549-621 | every event keeps confidences in [0.05, 0.95], coherence in range, triggers distinct and at most 50, and the bounded memories |
| `ApperceptionRuns.CoherenceIsMean` | agents/_apperception.py:151-160 | with any dimension the ceiling is never reached: coherence is the mean raised to the floor, at most 0.95 |
| `ApperceptionRuns.RuminatingIffTail` | agents/_apperception.py:537-543 | the check fires exactly when the history ends in at least five negatives |
| `ApperceptionRuns.ProcessSpends` | agents/_apperception.py:521-621 | unless a non-negative event gets past the check on a dimension, an event lowers its confidence by at most one step of 0.014 and then uses up one of at most four allowed |
| `ApperceptionRuns.RuminationBound` | agents/_apperception.py:521-621 | in every run, under any clock, between two non-negative events past the check at most four negative ones get past it, so confidence falls by at most 0.056 and stays in [0.05, 0.95] |
| `ApperceptionRuns.FreshOk` | agents/_apperception.py:270-283 | a new cascade meets what the run theorems ask of their first state |
| `ApperceptionRuns.NoEcho` | agents/_apperception.py:317-323 | an event that passed attention is filtered when it comes again at once, and nothing changes |
| `ApperceptionRuns.TriggersAreLatest` | agents/_apperception.py:277-323 | in every run the remembered digests are exactly those of the last 50 events that passed attention |
| `ApperceptionRuns.HeardAgainIff` | agents/_apperception.py:308-325 | in every run an event passes again exactly when the stance lets its source through and at least 50 others passed since |
| `ApperceptionRuns.EchoGap` | agents/_apperception.py:317-323 | in every run at least 50 others pass attention between two events of one digest that do |
| `ApperceptionRuns.GateHolds` | agents/_apperception.py:525-528 | while a gate is active nothing on that dimension gets past, and gates, histories and dimensions stay as they are |
| `ApperceptionRuns.GateOpens` | agents/_apperception.py:537-543 | a fifth negative in a row is stopped and gates the dimension for 600 seconds |
| `Provenance.EvaluateIffWitness` | agents/_governance.py:309-322 | an expression evaluates to true exactly when some witness set is contained in the active contracts |
| `Provenance.ConstructorsKeepWitnesses` | agents/_governance.py:291-307 | the simplifications of tensor and plus change no witness set |
| `Provenance.ConstructorsBuild` | agents/_governance.py:291-307 | the constructors stay within the built expressions and reach every one of them |
| `Provenance.IdsAreUnionOfWitnesses` | agents/_governance.py:324-334 | for built expressions the contract ids are exactly the union of the witnesses |
| `Provenance.RawTensorListsTooMuch` | agents/_governance.py:291-334 | why that is about built expressions: a product of Zero and a leaf, which the constructors never return, would list a contract it has no witness for |
| `Provenance.EquivalentIffSameMinimal` | agents/_governance.py:259-322 | two expressions evaluate alike on all sets exactly when they have the same minimal witnesses |
| `Provenance.Monotone` | agents/_governance.py:309-322 | more active contracts never turn an evaluation false |
| `Provenance.FromContracts` | agents/_governance.py:282-289 | the conjunction evaluates to true exactly when all listed contracts are active, is built, and lists exactly them |
| `Provenance.JoinNeedsBoth` | agents/_governance.py:377-399 | joined data is alive exactly while both parts are |
| `Provenance.FlatteningIsConservative` | agents/_governance.py:336-337 | all listed contracts active implies alive, exactly for expressions other than Zero |
| `Consent.ConsentRegistry.ContractCheck` | agents/_governance.py:91-97 | true exactly when some active contract names the person and covers the category |
| `Consent.ConsentRegistry.SubjectDataCategories` | agents/_governance.py:105-110 | lists exactly the categories that contract_check permits |
| `Consent.ConsentRegistry.PurgeSubject` | agents/_governance.py:112-130 | revokes in place, keeping order and keys, and returns the revoked keys in order |
| `Consent.ConsentRegistry.CreateContract` | agents/_governance.py:132-173 | the new contract under the given id, or the person and day if none is given, with the given terms, active and between operator and person; a known key keeps its place, all others stay |
| `Consent.PurgeMeaning` | agents/_governance.py:112-130 | afterwards nothing is permitted to the person, exactly the active contracts naming them were revoked, at their own moments and changed in nothing else, all others are untouched, a second purge finds nothing |
| `Consent.PurgeElsewhere` | agents/_governance.py:112-130 | others keep exactly what contracts not naming the purged person give them |
| `Consent.AliveAfterPurge` | agents/_governance.py:112-130 | any expression is alive after a purge exactly when some witness was active and avoids the revoked contracts |
| `Consent.PurgeAndData` | agents/_governance.py:377-383 | a purge never turns data from false to true; flat data is true afterwards exactly when it was before and avoids the revoked ids |
| `Consent.ConsentRegistry.Load` | agents/_governance.py:56-89 | enters the parsed files in order over what is there, and counts the active ones |
| `ConsentRuns.LoadReports` | agents/_governance.py:56-83 | the count a load into an empty registry reports is never less than the active contracts it leaves, and equals them if no two files share an id |
| `ConsentRuns.ActiveIffSurvives` | agents/_governance.py:56-173 | over any run of creations, purges and reloads a contract is active exactly when it was there or entered, and since then its id was not entered again nor one of its parties purged |
| `ConsentRuns.AliveAfterRun` | agents/_governance.py:56-173 | after any run data is alive exactly when some witness has every contract survive |
| `ConsentRuns.PermitsAfterRun` | agents/_governance.py:56-173 | after any run a person is permitted a category exactly by a surviving contract that names them and covers it |
| `ConsentRuns.PurgePersists` | agents/_governance.py:56-173 | nothing is permitted to a purged person until an active contract naming them is created or loaded |
| `ConsentRuns.CreateAndData` | agents/_governance.py:132-173 | after a creation data is alive exactly when some witness lacked at most the created id |
| `ConsentRuns.DeadDataStaysDead` | agents/_governance.py:56-173 | dead data stays dead until one of its inactive contract ids is created or loaded anew |
| `ConsentRuns.DefaultIdsCollide` | agents/_governance.py:142-143 | two default ids are equal exactly for the same person on the same day |
| `ConsentRuns.SameDayContractRevives` | agents/_governance.py:142-143 | a contract created on the day of the purge takes the same default id and revives the data |
| `ConsentRuns.ReloadRevives` | agents/_governance.py:56-130 | reloading the file of a purged contract makes it active and its categories permitted again |
| `Grouping.FillBuckets` | agents/_health_history.py:88-94 | one pass fills each key's list with exactly its entries, in order |
| `Grouping.LessMeans` | agents/_health_history.py:96-97 | one string sorts before another exactly when it is a proper prefix or has the smaller character where they first differ |
| `Grouping.SortAscending` | agents/_health_history.py:96-97 | the sorted distinct keys are strictly ascending |
| `Grouping.BucketsWeighAll` | agents/_health_history.py:86-118 | the buckets of some keys weigh exactly as much as the entries with those keys, for any weight |
| `HealthHistory.AggregateHourly` | agents/_health_history.py:86-118 | one row per hour, in order, each computed from exactly that hour's runs |
| `HealthHistory.AggregateDaily` | agents/_health_history.py:121-164 | one row per date, in order, each from exactly that date's hourly rows |
| `HealthHistoryRuns.UptimeOfDay` | agents/_health_history.py:131-142 | a day's uptime is the share of its raw runs that were healthy to the nearest tenth of a percent; 100.0 says that at most one run in 2000 was not |
| `HealthHistoryRuns.TwoLevelCounts` | agents/_health_history.py:86-164 | rolling up by hour and then by day gives each day the total, healthy, degraded and failed counts of its raw runs |
| `DaySummaries.DayCounts` | agents/_health_history.py:86-164 | a day's row counts its runs, and those whose status is healthy, degraded or failed |
| `DaySummaries.RecursIff` | agents/_health_history.py:104-151 | a check recurs on a day exactly when it failed in more than half of the hours with runs |
| `HealthHistoryRuns.TwoLevelDates` | agents/_health_history.py:96-130 | a date has a row exactly when a raw run falls on it, and rows are strictly ascending at both levels |
| `HealthHistoryRuns.AverageError` | agents/_health_history.py:103-141 | for non-negative durations the twice-truncated daily average is at most the true mean and less than 2 ms below it |
| `HealthHistory.HealthStore.SplitRaw` | agents/_health_history.py:189-198 | recent and old runs in order; runs without a timestamp go nowhere |
| `HealthHistory.NotKeptIsExpired` | agents/_health_history.py:208-216 | the rows missing from the kept list are exactly the expired ones |
| `HealthHistory.HealthStore.RotateWithRollup` | agents/_health_history.py:167-245 | the three files after a rotation, and the kept counts |
| `DaySummaries.RotationKeeps` | agents/_health_history.py:184-231 | a rotation keeps exactly the raw runs within the raw retention, and of the rows those within their own or that do not parse, old rows first and in order |
| `Rotation.RotationAccount` | agents/_health_history.py:167-245 | for every counter, what a rotation leaves plus what it drops (unparsed runs, runs of known hours, hours of known dates, aged dates) is what there was |
| `Rotation.NothingLostIff` | agents/_health_history.py:167-245 | totals never grow, and stay the same exactly when all timestamps parse, no rolled-up hour or date had a row and no daily row with runs aged out |
| `Rotation.RotationIdempotent` | agents/_health_history.py:167-245 | a second rotation at the same moment changes nothing |
| `Rotation.RotationKeepsUnique` | agents/_health_history.py:203-231 | at most one row per hour and one per date |
| `Rotation.RunAccount` | agents/_health_history.py:167-245 | over any run of logging and rotating, under any clock, all that was logged is in a file or was dropped by one rotation, and rows stay unique |
| `Rotation.StraddledHourLosesRun` | agents/_health_history.py:203-207 | two runs of one hour on either side of the boundary: the second rotation drops the later one |
| `Capacity.DenominatorNotNegative` | agents/_capacity.py:190-191 | n times the sum of squares is never below the squared sum |
| `Capacity.LossExpands` | agents/_capacity.py:186-190 | the squared error of any line depends on the data only through the sums the code takes |
| `Capacity.RegressionIsBest` | agents/_capacity.py:193-195 | at or above the guard the result minimises the squared error over all lines, and no other line does |
| `Capacity.GuardedIsBestConstant` | agents/_capacity.py:184-192 | below the guard the result is flat and best among flat lines |
| `Capacity.OptimalIff` | agents/_capacity.py:181-195 | the result is a best line exactly when the denominator reaches the guard or the numerator vanishes |
| `Capacity.GuardMissesATrend` | agents/_capacity.py:191-192 | two readings a microday apart: a flat answer where a line fits exactly |
| `MusicRegions.ClassifyFullWaveform` | agents/audio_processor.py:508-566 | one window for exactly each hop that fits and whose inference succeeds, on the grid, inside the recording |
| `MusicRegions.WindowsSay` | agents/audio_processor.py:525-562 | the windows are those of exactly the hops whose inference succeeds, in order, each with what was read at its sample |
| `MusicRegions.MergeInstruments` | agents/audio_processor.py:583-586 | the union of instruments with the greater probability, whatever the iteration order |
| `MusicRegions.AggregateIsMaximum` | agents/audio_processor.py:583-586 | a run's aggregate lists exactly the instruments heard, each with its greatest probability |
| `MusicRegions.DetectMusicRegions` | agents/audio_processor.py:569-609 | the regions are, in order, the hulls of exactly the maximal music runs that are long enough |
| `MusicRegions.RegionSays` | agents/audio_processor.py:569-609 | a region runs from one window's start to another's end, all music at 0.10 or above in between and none next to it, for at least the minimum, with each instrument heard at its greatest probability |
| `MusicRegions.RegionsApart` | agents/audio_processor.py:569-609 | on the grid, skips included, regions do not overlap |
| `MusicRegions.MusicFitsRecording` | agents/audio_processor.py:508-609 | the music found is never longer than the recording |
| `MusicRegions.NoMusicMissed` | agents/audio_processor.py:569-571 | with the default minimum every music window lies inside a region |
| `ActiveCorrection.CorrectionSeeker.Evaluate` | agents/_active_correction.py:71-117 | the question asked, if any, and the whole new state |
| `ActiveCorrection.CorrectionSeeker.RecordAnswer` | agents/_active_correction.py:119-124 | the answered pair joins the remembered ones |
| `ActiveCorrection.FindUncertainty` | agents/_active_correction.py:134-180 | a question exactly below the confidence threshold with an activity or flow not asked before, about the activity whenever it is open |
| `ActiveCorrection.AsksIff` | agents/_active_correction.py:71-180 | a question is asked exactly in a stance neither degraded nor critical, within the day's budget, a cooldown after the last, below the threshold and about something not asked before, the activity first |
| `ActiveCorrection.DayMeans` | agents/_active_correction.py:85-86 | the day is the number of whole 86400-second spans since zero, truncated toward zero |
| `ActiveCorrection.SpacedAndFresh` | agents/_active_correction.py:95-114 | in every run, whatever the clock does, consecutive questions are a cooldown apart and no pair is asked twice |
| `ActiveCorrection.QuestionsSpaced` | agents/_active_correction.py:95-97 | any two questions are as many cooldowns apart as there are steps between them |
| `ActiveCorrection.NeverAskedAfterAnswer` | agents/_active_correction.py:119-124 | a pair recorded as answered is never asked about afterwards |
| `QuestionBudget.DayIsTraced` | agents/_active_correction.py:71-117 | in every run a day's questions sit at ticks of that day in order, paced by the cooldown, with the day left between any two that are a budget apart |
| `QuestionBudget.DailyBudget` | agents/_active_correction.py:85-93 | a day the clock does not return to after leaving it gets no more questions than the budget, whatever else the clock does |
| `QuestionBudget.BudgetBreaksIff` | agents/_active_correction.py:85-97 | exactly which clocks let some run exceed the budget on a day: one tick more than the budget, each a cooldown after the last and the first a cooldown after zero, with the day left in between |
| `QuestionBudget.SteppingBackBreaksBudget` | agents/_active_correction.py:85-89 | a clock stepping back over midnight gets two questions out of a budget of one |
| `QuestionBudget.SteppingBackMayKeepBudget` | agents/_active_correction.py:85-89 | a clock that only comes back from a later day cannot exceed the budget |
| `ProjectDir.DecodeProjectDir` | agents/claude_code_sync.py:73-108 | the component list built by probing spells the decoded path |
| `ProjectDir.NameRecovered` | agents/claude_code_sync.py:73-108 | for every filesystem, replacing slashes by dashes in the decoded path gives the name back exactly for names without a slash |
| `ProjectDir.PathRecovered` | agents/claude_code_sync.py:86-108 | encoding a path and decoding the name finds the path again exactly when at every later separator the probe answers as the path has it |
| `ProjectDir.PlainPathRecovered` | agents/claude_code_sync.py:98-106 | a path without dashes whose ancestors all exist is always recovered |
| `ProjectDir.TwoDashesLost` | agents/claude_code_sync.py:98-106 | a two-dash component is lost when only the whole of it exists |

## Left out

- Rounding, overflow and NaN of floats, and the log-space form of the change-point update: probabilities are
  real numbers, and the Student t density is any positive density; the underflow test and the weight used
  instead are parameters. A hazard_lambda of at most 1 is excluded, since the code then takes the logarithm
  of a number that is not positive.
- The `total > 0` fallback of agents/bocpd.py:121-124, which no reachable state takes, and
  `MultiSignalBOCPD.reset` and `all_recent_change_points`.
- `_format_output` beyond the fields it copies; default values for missing detection keys.
- Partially written last lines, torn appends, an unreadable existing output file and a log truncated and
  regrown past the cursor between two batches; the code does not handle them either.
- Everything a public event carries besides its id, egress state and policy: which lines yield an event, and
  with which id, depends on the line alone.
- EventText.BoundaryIdsAgree: asks for clean fields, as records have them; in other text runs of punctuation are
  squeezed and a field's own plus signs may join up, so further records can share an id. The same goes for
  EventText.ChronicleIdsAgree.
- `get_dependencies` on its own: a table lookup.
- The Gaussian perturbation of relevance and the clock readings are inputs of the cascade; action and
  reflection texts are reduced to whether there is one; whether an observation mentions a dimension is an
  oracle; persistence and the store are not part of this model.
- Cascade.ApperceptionCascade.Run: leaves out what `process` keeps for reports alone, the control-law counters
  and the degraded flag, which nothing reads, the exploration telemetry and the published health signal.
- Provenance.FromContracts: takes the sorted listing as an argument; any listing of the same contracts gives
  the same meaning. Expressions that bypass the constructors in shapes with neither operator nor leaf are
  not modelled.
- The contract files themselves and their parsing (a load gets the parsed contracts, or None for a file that
  is skipped), consent labels, principals, `Says`, vetoes and governors.
- Lists of check names are sets; timestamps without a zone, on which the code raises; the readers of the history.
- `forecast_exhaustion` and the snapshot collectors around the regression; lists of different lengths get a
  result but no claim.
- Which probabilities and instruments the network reports for a window; a region minimum of 60 seconds, as
  the processing step passes, is covered by the general statement but drops shorter music.
- Writing the question file and the correction store's search, of which only the number of hits matters.
- How `pathlib` normalises a candidate path before it is probed: the filesystem answers for the string.
- The sync, briefing, reporting and command-line agents: plumbing without an algorithm of their own.
