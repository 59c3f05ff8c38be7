# Verified model of the X-ray inspection system

A model, in Dafny, of the parts of the system whose correctness is not visible in one
function at a time, with proofs about all inputs, all runs and all interleavings.

1. **Detection evaluation and release gate** (`Geometry`, `Matching`, `EvalRecords`,
   `OperatingPoint`, `Occlusion`, `DetectionEvaluation`, `AveragePrecision`, `TieOrder`,
   `ImageOrder`, `Wilson`, `AcceptanceGate`).  The evaluator matches once and answers every
   threshold question by filtering records; that fast form is proved equal to matching again
   from scratch.  The greedy matching is characterised as the one stable pairing and bounded against every rival
   pairing.  The gate is a function of the two bundles and composes over chains of releases.
2. **Tamper-evident audit chain** (`AuditChain`, `AuditRun`).  Any number of workers under
   the advisory lock; every interleaving verifies, and what verifies is a prefix of what was
   recorded.
3. **Scan lifecycle** (`ScanStates`, `ScanSessions`, `ScanLifecycle`, `ScanOperations`,
   `ScanStores`).  Sessions with stale identity maps, each with one operation or several in a
   transaction, race through compare-and-swap updates, commits and rollbacks; and what each
   operation achieves alone and in every run.
4. **Calibration errors** (`Calibration`, `CalibrationError`).
5. **Resilience and capture** (`Watchdogs`, `MotionCapture`).
6. **Screening votes** (`ScreenText`, `Screening`, `ScreenOrder`).  From the raw answers of
   the passes to the verdict: parsing, votes, shown texts, guard, and what order changes.
7. **Image store, label accounting** (`ImageStore`, `FeedbackContracts`, `LabelLoop`).

`Common` holds options, sequences, stable sorting and sums.  Code that the program runs step
by step is written as methods over arrays, fields and loops, and each such method is proved
against a function that the lemmas then speak about.

## Reading the model

- Scores, boxes and ratios are exact reals; Not-a-Number is the value `NaN` of `Num`.  The
  overlap measure is an arbitrary function in the matching results and IoU in the class.
- HMAC-SHA256 (section 2 of RFC 2104) at the sink's key is a function assumed injective, with
  results free of NUL and different from the genesis value.  SHA-256 and AES-GCM in the store
  are functions: decryption undoes encryption for every nonce, and freedom from collisions is
  assumed only of the bytes in question.
- The database is a row map with an atomic conditional update that holds the row until the
  transaction ends, insert-or-ignore on a unique key, foreign keys, commit and rollback.  The
  audit sink's view of it is an advisory lock, a table ordered by `seq`, and a codec that says
  what a scan id and a JSON payload look like when read back.
- The scanner driver, the camera and the language model answer by scripts: every finite
  sequence of answers is covered.  Clock values and random ids are parameters.
- The screener works on raw answer texts.  The two case mappings, Unicode normalisation, the
  five content checks of the guard and the fixed texts shown when there is nothing else are
  parameters (`Env`); where it matters the fixed texts are assumed to pass the guard.
- The square root in the Wilson interval is an argument with the property of being one.

## Where the code and its documentation differ

The model follows the code in each case.

- *Audit chain, completeness.*  The hash covers the scan id and payload as given to `record`,
  the replay hashes them as read back.  A scan id whose text is not in canonical form, or a
  payload that JSON storage rewrites, breaks every replay that reaches it
  (`AuditRun.VerifiesIffFaithful` gives the exact condition, `AuditRun.UpperCaseIdBreaks` a
  run that shows it).  The endpoints pass UUID values, whose text is canonical; a call of
  `record` with a string need not.
- *Audit chain, deletions.*  The module promises that any deletion breaks the chain; deleting
  the newest rows does not (`AuditChain.DeletionDetected`).  The back reference of the first
  row is not checked at all (`AuditChain.FirstBackReferenceUnchecked`).
- *Audit chain, processes.*  The module text describes one sub-chain per process followed by
  back references; the code keeps one chain under a database lock and follows `seq`.
- *Scan lifecycle.*  `record_feedback` keeps its insert on a scan that cannot be decided yet;
  a later decision then leaves the older judgement on file
  (`ScanLifecycle.EarlyFeedbackShadowsDecision`, exact condition in
  `ScanLifecycle.StoredJudgement`).  On a VERDICTED scan it can only fail
  (`ScanLifecycle.FeedbackOnVerdictedFails`).
- *Gate.*  A comment announces a test of the recall drop against the candidate's confidence
  interval; the verdict uses the signed tolerance and the sample size only.
- *Average precision* can depend on the order in which images are fed, when a true and a false
  positive share a score (`ImageOrder.ApDependsOnImageOrder`).  The exact condition on the order
  of the stored records is `TieOrder.ApIgnoresOrderExactlyWhen`.  It suffices for the order of
  images (`ImageOrder.ImageOrderHarmless`) and is exact for images that do not hold both kinds
  at such scores (`ImageOrder.ApIgnoresImageOrderExactlyWhen`), though not for all
  (`ImageOrder.ExposedWithinOneImage`).
- *Watchdog.*  The five-error limit holds until something is raised; a caller that keeps
  calling after ScannerUnavailableError sees the counter pass it (`Watchdogs.BoundIsTight`;
  exactly when, `Watchdogs.HighExactlyWhen`).
- *Screening.*  Only the first violation of a text is looked at, and length comes first, so a
  short or overlong text never trips the guard (`Screening.TripsExactlyWithinBounds`).  Any
  answer that begins with the letters YO counts as YO'Q, where the text asks for a clear
  YO'Q (`Screening.NormalizeIsConservative`).  Among equally good texts the first is shown and
  judged, so the verdict can depend on the order of the passes
  (`ScreenOrder.OrderMattersSomewhere`; exactly when, `ScreenOrder.OrderIgnoredExactlyWhen`).
- *Image store.*  `put` trusts an existing blob: it does not repair a damaged one
  (`ImageStore.PutThenGet`).
- *Labels.*  Hard negatives are documented as carrying no box; they carry the detection's
  (`LabelLoop.ReviewGrounded`).  For accepted feedback the seizure check of the quality gate
  can never fail (`LabelLoop.GateExactly`).

## Model

| member | source | states |
|---|---|---|
| Geometry.IouIsSymmetricFraction | detector/eval/recall_eval.py:86-98 | IoU is symmetric and lies in [0, 1] for every two boxes, degenerate and negative extents included |
| Geometry.PerfectIouIsIdentity | detector/eval/recall_eval.py:86-98 | IoU is 1 exactly for a box of positive extent compared with itself |
| Geometry.IouIsSharedOverCovered | detector/eval/recall_eval.py:86-98 | boxes that share a rectangle score its area over the area the two boxes cover together |
| Geometry.IouIsZeroExactlyWhen | detector/eval/recall_eval.py:86-98 | the score is positive exactly for boxes of positive extent that share inner points |
| Matching.BestGt | detector/eval/recall_eval.py:155-161 | the inner loop: an unmatched ground truth at or above the threshold with the best overlap, the earliest on a tie; none only when none is open |
| Matching.AssignExact | detector/eval/recall_eval.py:150-168 | the per-prediction and per-ground-truth records are two views of one one-to-one relation |
| Matching.GreedyIsPairing | detector/eval/recall_eval.py:150-168 | the assignment is one to one and every pair clears the IoU threshold |
| Matching.ClaimOverlaps | detector/eval/recall_eval.py:150-168 | on the overlaps themselves: a claimed pair meets the threshold and overlaps, and of the ground truths that were left it overlaps best, the first on a tie |
| Matching.NothingLeftOver | detector/eval/recall_eval.py:150-168 | of every pair that meets the threshold and overlaps, the prediction is stored as a true positive or the ground truth as matched |
| Matching.PredRecordAt | detector/eval/recall_eval.py:163-168 | the record of a prediction: its score, and whether some ground truth records it |
| Matching.GtRecordAt | detector/eval/recall_eval.py:163-168 | the record of a ground truth: whether it was claimed, by which score, -1 if not, and its own occlusion |
| Matching.GreedyIsTheStablePairing | detector/eval/recall_eval.py:150-168 | a claim table is what the loop computes if and only if it is a stable one-to-one pairing: an independent definition of the result |
| Matching.GreedyIsHalfOptimal | detector/eval/recall_eval.py:150-168 | no set of one-to-one pairs whose overlaps meet the threshold is more than twice as large as the set of true positives of greedy |
| Matching.TpAreClaimedGts | detector/eval/recall_eval.py:150-168 | true positives counted over predictions equal claimed ground truths |
| Matching.FilterThenMatch | detector/eval/recall_eval.py:117-122 | per class and image, filtering the stored prediction records equals matching the filtered predictions |
| Matching.MaskIsRematch | detector/eval/recall_eval.py:117-122 | the same for the ground-truth records: recalled at t is matched when only scores at or above t take part |
| EvalRecords.MatchOnceThenFilter | detector/eval/recall_eval.py:113-122 | over all images: thresholding the stored tables is re-running the whole evaluation on the predictions at or above the threshold, record for record |
| EvalRecords.PointIsRematch | detector/eval/recall_eval.py:174-191 | tp, fp, fn, recall, precision and FP/image of `point_at` equal those of an evaluation re-matched from scratch, for every threshold |
| EvalRecords.PointMeans | detector/eval/recall_eval.py:174-191 | the counts of a point and its three quotients, each with its own denominator and NaN where that is 0 |
| EvalRecords.ClassPredsAre | detector/eval/recall_eval.py:140-153 | what is matched in an image: the predictions of the class, by falling score, equal scores in the order given |
| EvalRecords.TablesInOrder | detector/eval/recall_eval.py:113-168 | the tables hold the records of every image, image after image |
| EvalRecords.GtCountIsSum | detector/eval/recall_eval.py:140-153 | the count is that of the ground truths of the class |
| EvalRecords.TpIsRecalled | detector/eval/recall_eval.py:174-191 | tp at t is the number of ground truths recalled at t and never exceeds n_gt |
| EvalRecords.TpWithinGt | detector/eval/recall_eval.py:150-191 | no evaluation stores more true positives than ground truths |
| EvalRecords.OrderIrrelevant | detector/eval/recall_eval.py:135-191 | every answer of `point_at` is the same for every order of the images |
| OperatingPoint.ThresholdMonotone | detector/eval/recall_eval.py:174-207 | raising the threshold never raises tp, fp, recall or FP/image |
| OperatingPoint.SweepGrid | detector/eval/recall_eval.py:193-196 | the sweep is the 99 thresholds from 0.01 to 0.99 in steps of 0.01, each with its point |
| OperatingPoint.LowestFeasible | detector/eval/recall_eval.py:198-207 | `recall_at_fp_per_image` returns the lowest feasible sweep threshold; feasible thresholds are an upper segment; otherwise the 0.99 point |
| OperatingPoint.AnswerInCounts | detector/eval/recall_eval.py:198-207 | the same in counts: false positives per image exceed the budget at every lower threshold of the sweep and stay within it at the one returned, or that is 0.99 |
| OperatingPoint.MaxRecallIsFirstMaximum | detector/eval/recall_eval.py:207 | `max` by recall gives a maximum, the first one |
| OperatingPoint.BestWithinBudget | detector/eval/recall_eval.py:198-207 | no sweep point within budget has a higher recall than the one returned |
| OperatingPoint.TighterBudget | detector/eval/recall_eval.py:198-207 | a tighter budget never raises the recall returned nor lowers the threshold, the fallback included |
| Occlusion.BucketsPartition | detector/eval/recall_eval.py:216-228 | the occlusion buckets partition the ground-truth records |
| Occlusion.SameBucket | detector/eval/recall_eval.py:216-228 | two tags share a bucket exactly when they are the same, where none, empty and all count as one |
| Occlusion.BucketsSumToPoint | detector/eval/recall_eval.py:216-228 | recalled counts of the buckets sum to tp, totals to n_gt |
| Occlusion.BucketIsRematch | detector/eval/recall_eval.py:216-228 | bucket by bucket, thresholding the stored records is re-matching |
| DetectionEvaluation.DetectionEval.constructor | detector/eval/recall_eval.py:124-133 | an empty evaluation |
| DetectionEvaluation.DetectionEval.BestUnmatched | detector/eval/recall_eval.py:155-161 | the inner loop over the ground truths, against the flags of what is matched |
| DetectionEvaluation.DetectionEval.MatchRanked | detector/eval/recall_eval.py:151-166 | the loop over ranked predictions flips `gt_matched` in place and appends the records the assignment defines |
| DetectionEvaluation.DetectionEval.MatchLabel | detector/eval/recall_eval.py:150-168 | both tables grow by the records of the assignment for the stably sorted predictions |
| DetectionEvaluation.DetectionEval.GroupGts | detector/eval/recall_eval.py:139-142 | grouping by class keeps every ground truth in order and counts it |
| DetectionEvaluation.DetectionEval.MatchAll | detector/eval/recall_eval.py:146-148 | every class is matched once, in whatever order the set is visited |
| DetectionEvaluation.DetectionEval.AddImage | detector/eval/recall_eval.py:135-148 | after each image all tables, counts and the class set are those the images seen so far define |
| DetectionEvaluation.DetectionEval.RecallByOcclusion | detector/eval/recall_eval.py:216-228 | one pass over the records gives recalled/total for exactly the buckets that occur |
| DetectionEvaluation.RecallAtFpIsRematch | detector/eval/recall_eval.py:174-207 | on a filled evaluation `recall_at_fp_per_image` is its point at the lowest feasible threshold, and equals the point of an evaluation that drops all lower predictions before matching |
| AveragePrecision.Envelope | detector/eval/recall_eval.py:245-247 | the backward pass over the array leaves at every position the maximum of the old entries at or after it |
| AveragePrecision.Curve | detector/eval/recall_eval.py:236-244 | the curve holds recall and precision of every rank prefix |
| AveragePrecision.Integrate | detector/eval/recall_eval.py:248-249 | the sum over the recall steps is the area of the remaining true positives |
| AveragePrecision.ComputeAp | detector/eval/recall_eval.py:230-249 | the program computes (1/n_gt) times the sum over true-positive ranks of the best precision at that rank or later |
| AveragePrecision.ApIsMeanOfBestShares | detector/eval/recall_eval.py:230-249 | from the ranking alone: n_gt times AP is the sum, over the true positives, of the largest share of true positives among the first k records, k their rank or later |
| AveragePrecision.BestFromIsMaximum | detector/eval/recall_eval.py:245-247 | the term used above is an attained maximum |
| AveragePrecision.ApBelowFinalRecall | detector/eval/recall_eval.py:230-249 | AP lies between 0 and the final recall |
| AveragePrecision.PerfectEvaluation | detector/eval/recall_eval.py:230-249 | for every evaluation AP is 1 exactly when every ground truth is matched and no false positive outranks a true positive |
| TieOrder.ApIgnoresOrderExactlyWhen | detector/eval/recall_eval.py:230-249 | AP is the same for every order of the records if and only if, for each score that a true and a false positive share, some cut at that score or a lower one is at least as precise as the tied records can look |
| TieOrder.LeastAreaIsReached | detector/eval/recall_eval.py:230-249 | the order with the false positives first in every tie gives the least AP any order gives, in closed form |
| TieOrder.ExposedTie | detector/eval/recall_eval.py:230-249 | where the condition fails, the order with the true positives first gives strictly more |
| TieOrder.ApOrderFree | detector/eval/recall_eval.py:230-249 | in particular AP does not depend on the order of the records when no true and no false positive share a score |
| ImageOrder.TablesPermute | detector/eval/recall_eval.py:135-168 | the order in which the images are fed changes the order of the stored records and nothing else |
| ImageOrder.ImageOrderHarmless | detector/eval/recall_eval.py:135-249 | when the ties of the stored records are harmless, AP is the same for every order of the images |
| ImageOrder.ApIgnoresImageOrderExactlyWhen | detector/eval/recall_eval.py:135-249 | for images none of which holds both a true and a false positive at scores where the two kinds meet, AP is the same for every order of the images if and only if the ties are harmless |
| ImageOrder.OneRecordIsOneSided | detector/eval/recall_eval.py:135-168 | images that store at most one record of the class are such images |
| ImageOrder.ExposedWithinOneImage | detector/eval/recall_eval.py:135-249 | without that premise the converse fails: one image, whose records of both kinds share a score, has harmful ties and one order only |
| ImageOrder.ApDependsOnImageOrder | detector/eval/recall_eval.py:135-249 | two images fed in the two orders give AP 1 and AP 1/2, through matching and the stored tables |
| ImageOrder.ApDependsOnImageOrderForIou | detector/eval/recall_eval.py:86-249 | the same with IoU at every threshold up to 1 |
| Wilson.WithinUnit | detector/eval/recall_eval.py:65-83 | 0 <= low <= k/n <= high <= 1 before clamping, so the clamps never change the interval; 0 of n starts at 0, n of n ends at 1 |
| Wilson.Mirror | detector/eval/recall_eval.py:65-83 | the interval for n-k is the mirror image of the one for k |
| Wilson.IsScoreTest | detector/eval/recall_eval.py:65-83 | the interval is exactly the set of recalls within z standard errors: the definition of a score interval |
| Wilson.NeverAPoint | detector/eval/recall_eval.py:65-83 | the interval has positive width exactly when z is positive |
| Wilson.NothingKnown | detector/eval/recall_eval.py:76-82 | no ground truth gives (0, 1); otherwise the radicand of k/n is not negative, so its root exists |
| AcceptanceGate.SameFingerprintSameCount | detector/eval/accuracy_delta.py:129-143 | equal fingerprints give equal per-class ground-truth counts |
| AcceptanceGate.TenthsIsNearest | detector/eval/accuracy_delta.py:129-143 | coordinates are rounded to the nearest tenth, halves to even |
| AcceptanceGate.SameFingerprintExactly | detector/eval/accuracy_delta.py:129-143 | fingerprints agree exactly when for every image, class, box in tenths and tag the two sets have equally many ground truths that look so |
| AcceptanceGate.VisitingOrderIrrelevant | detector/eval/accuracy_delta.py:180-190 | the answers about a bundle do not depend on the order in which the set of image ids is visited |
| AcceptanceGate.GroupingKeepsAll | detector/eval/accuracy_delta.py:180-190 | grouping by image loses no ground truth and no prediction |
| AcceptanceGate.VisitAll | detector/eval/accuracy_delta.py:180-190 | the loop over the set of image ids visits each once and leaves the evaluation of exactly those images |
| AcceptanceGate.EvalOf | detector/eval/accuracy_delta.py:180-190 | builds an evaluation of the bundle that has visited every image id once |
| AcceptanceGate.CompareClasses | detector/eval/accuracy_delta.py:222-264 | one delta per class, and the gate is open exactly when every class passes |
| AcceptanceGate.Compare | detector/eval/accuracy_delta.py:193-291 | mismatched held-out sets are refused; otherwise the verdict and every delta are functions of the two bundles alone |
| AcceptanceGate.ThresholdTable | detector/eval/accuracy_delta.py:48-71 | the operating point of every class, and which classes are primary |
| AcceptanceGate.DeltaReports | detector/eval/accuracy_delta.py:222-264 | every field of a delta in terms of the two points and the counts of the baseline |
| AcceptanceGate.ShipsInNumbers | detector/eval/accuracy_delta.py:193-264 | the gate in numbers: same held-out set, and each of the two weapon classes that occurs has 30 ground truths and loses no more hits at score 0.20 than the tolerance allows |
| AcceptanceGate.ShipMeansRecall | detector/eval/accuracy_delta.py:235-247 | PASS means at least 30 ground truths for each primary class and a recall drop within tolerance |
| AcceptanceGate.ShipLosesNothing | detector/eval/accuracy_delta.py:242-247 | PASS at tolerance 0 means no primary class loses a true positive |
| AcceptanceGate.ShipsCompose | detector/eval/accuracy_delta.py:209-264 | PASS(a,b,t1) and PASS(b,c,t2) imply PASS(a,c,t1+t2) |
| AcceptanceGate.ChainShips | detector/eval/accuracy_delta.py:209-264 | over a chain of releases the signed tolerances add up |
| AcceptanceGate.SelfShips | detector/eval/accuracy_delta.py:209-264 | a model passes against itself exactly when its held-out set is large enough |
| AcceptanceGate.ShipsExactlyWhen | detector/eval/accuracy_delta.py:209-264 | PASS exactly when the held-out sets agree, every primary class has at least 30 ground truths, and none loses more recall than the tolerance; secondary classes never block |
| Calibration.UniformCuts | detector/eval/calibration.py:128-150 | uniform edges cut [0, 1] into intervals |
| Calibration.UniformGrid | detector/eval/calibration.py:139 | uniform edges run from 0 to 1 in equal steps |
| Calibration.InterpolateWeighs | detector/eval/calibration.py:123 | the value between two sorted scores weighs them by their distance and separates what comes before from what comes behind |
| Calibration.InterpolateAtEntry | detector/eval/calibration.py:123 | at a sorted score it is that score |
| Calibration.PositionMeans | detector/eval/calibration.py:122-123 | the q-quantile of n sorted scores lies q of the way from the first to the last |
| Calibration.QuantileMass | detector/eval/calibration.py:111-125 | equal mass: of n scores more than q(n-1) lie at or below the q-quantile and more than (n-1)-q(n-1) at or above |
| Calibration.EqualMassEdgesAre | detector/eval/calibration.py:121-125 | the edges are 0, 1 and the inner quantiles, each once, rising |
| Calibration.QuantileCuts | detector/eval/calibration.py:111-125 | collapsed quantile edges with forced ends cut [0, 1], for all scores in [0, 1] and every positive number of bins |
| Calibration.ComputeEqualMassEdges | detector/eval/calibration.py:111-125 | the in-place computation of the edges gives those edges |
| CalibrationError.ReliabilityTable | detector/eval/calibration.py:128-150 | the loop builds one row per bin |
| CalibrationError.ExactlyOneBin | detector/eval/calibration.py:138-150 | every score in [0, 1] has exactly one bin, every other score none |
| CalibrationError.BinsPartition | detector/eval/calibration.py:138-150 | any quantity summed bin by bin is its sum over all detections |
| CalibrationError.Sandwich | detector/eval/calibration.py:153-181 | abs(mean score - fraction positive) <= ECE <= MCE <= 1 for all edges that cut [0, 1] |
| CalibrationError.CalibrationSandwich | detector/eval/calibration.py:111-181 | so for both strategies, all scores in [0, 1] and every positive number of bins; without detections both are NaN |
| CalibrationError.EceIsBinErrors | detector/eval/calibration.py:153-165 | ECE is the sum over the bins of the absolute difference between score total and true positives of the bin, per detection |
| CalibrationError.EceIsZeroExactlyWhen | detector/eval/calibration.py:153-165 | so it is 0 exactly when that difference is 0 in every bin |
| CalibrationError.MceIsWorstBin | detector/eval/calibration.py:168-181 | MCE is the largest such difference per detection of a bin, attained, and NaN exactly without a filled bin |
| AuditChain.JoinInjective | app/audit/sink.py:86-95 | the NUL-join is injective when all parts but the last are free of NUL |
| AuditChain.EncodedText | app/audit/sink.py:86-95 | the hashed text, field after field in order, separated by NUL |
| AuditChain.GenesisIsZeros | app/audit/sink.py:56-60 | the chain starts from 64 zeros |
| AuditChain.EncodeInjective | app/audit/sink.py:75-95 | so the hashed text determines the previous hash and every field |
| AuditChain.NulMakesAmbiguous | app/audit/sink.py:86-95 | the condition is needed: a NUL inside a field gives two events one encoding |
| AuditChain.SinkCodeIsBinding | app/audit/sink.py:75-95 | an injective keyed hash makes the event code commit to the previous code and all fields |
| AuditChain.Replay | app/audit/sink.py:221-250 | the loop accepts exactly the chains whose every hash and link is right, and otherwise reports the first wrong row and which check failed |
| AuditChain.VerifyChain | app/audit/sink.py:199-250 | the same of the rows a limit selects |
| AuditChain.VerifiesIffPrefix | app/audit/sink.py:221-250 | among tables that carry only issued codes, exactly the prefixes of what was recorded verify |
| AuditChain.EditDetected | app/audit/sink.py:221-250 | changing any covered field of any row is detected |
| AuditChain.DeletionDetected | app/audit/sink.py:221-250 | deleting a row is detected exactly when it is not the last one |
| AuditChain.InsertionDetected | app/audit/sink.py:221-250 | inserting a row with an issued code is detected at every place |
| AuditChain.ReorderDetected | app/audit/sink.py:221-250 | exchanging two rows is detected |
| AuditChain.RelinkDetected | app/audit/sink.py:242-248 | changing the back reference of any row but the first is detected |
| AuditChain.FirstBackReferenceUnchecked | app/audit/sink.py:242-248 | the back reference of the first row is neither hashed nor compared |
| AuditRun.MutualExclusion | app/audit/sink.py:132-188 | at most one worker is between taking the advisory lock and committing |
| AuditRun.EveryRunVerifies | app/audit/sink.py:132-250 | for every number of workers and every interleaving, aborts included, the table and every limited prefix verify, provided the recorded requests survive storage |
| AuditRun.RowsHoldRequests | app/audit/sink.py:140-188 | in every run, row by row: every column, what the code was computed from and the back reference, in terms of the recorded request |
| AuditRun.RecordAppends | app/audit/sink.py:132-188 | after any run a worker that finds the lock free and is not interrupted appends exactly its event, or nothing when the scan id does not parse, and frees the lock |
| AuditRun.AbortLeavesNoTrace | app/audit/sink.py:132-188 | an abort at any point of any run leaves table and other workers as they were and frees the lock its worker held |
| AuditRun.RecordingStaysPossible | app/audit/sink.py:132-188 | no run gets stuck: from every reachable state a worker can go on to record its event |
| AuditRun.VerifiesIffFaithful | app/audit/sink.py:151-188 | and only then: a replay succeeds exactly when every event it reaches was stored unchanged |
| AuditRun.ChangedEventBreaks | app/audit/sink.py:132-250 | one worker, one event that storage changes, nobody tampering: the replay fails |
| AuditRun.UpperCaseIdBreaks | app/audit/sink.py:151-188 | so it does for every scan id with an upper-case hexadecimal digit, under a codec that reads ids back in lower case |
| AuditRun.VerifiedIsRecorded | app/audit/sink.py:75-250 | end to end: after any run, exactly the prefixes of the recorded sequence verify among tables with codes the sink issued |
| AuditRun.AuditTable.constructor | app/audit/sink.py:98-112 | an empty chain |
| AuditRun.AuditTable.Record | app/audit/sink.py:140-188 | the body under the lock appends one row, stated column by column with its code and back reference, or fails on an unparsable scan id and changes nothing |
| ScanStates.TransitionsClimb | app/state/machine.py:44-55 | every transition raises the rank and none leaves DECIDED or ERROR |
| ScanStates.TableByEvent | app/state/machine.py:44-53 | for every event exactly where it may happen and where it leads |
| ScanStates.PathClimbs | app/state/machine.py:44-55 | along every path ranks strictly increase |
| ScanStates.EventsOnce | app/state/machine.py:44-55 | no event occurs twice on a path |
| ScanStates.CasExtendsRow | app/state/machine.py:138-172 | a compare-and-swap that takes effect extends the path by one legal change, and the row stays what the path says, timestamps included |
| ScanStates.DecidedByFeedback | app/state/machine.py:44-55 | DECIDED is reached only by the decision event, and decided_at is set exactly then |
| ScanSessions.RunKeepsInv | app/state/machine.py:125-286 | every interleaving of sessions, each running any sequence of operations in one transaction (stale reads, own uncommitted rows, conditional updates, commits, rollbacks), keeps the invariant behind the results below |
| ScanSessions.OnlyCommitWrites | app/state/machine.py:125-172 | only a commit changes committed data |
| ScanLifecycle.HistoryIsPath | app/state/machine.py:44-286 | in every run each scan has a committed history that is a path of the table, and its row is exactly what that history says |
| ScanLifecycle.CommittedOnce | app/state/machine.py:138-286 | no event commits twice: at most one decision, detection, verdict; later changes rank higher; nothing follows a terminal state |
| ScanLifecycle.DecidedHasFeedback | app/api/v1/scans.py:420-451 | a decided scan has its one feedback row, a shown scan its verdict row |
| ScanLifecycle.RunsOnlyAppend | app/state/machine.py:138-286 | over any continuation histories only grow, feedback stays, a timestamp once set keeps its value, and a decided or failed scan stays as it is |
| ScanLifecycle.StoredJudgement | app/api/v1/scans.py:420-446 | the stored feedback is the deciding judgement exactly when no different feedback was stored before |
| ScanLifecycle.DecisionsOnFile | app/api/v1/scans.py:405-451 | when no session runs `record_feedback`, every decided scan carries the judgement that decided it |
| ScanLifecycle.EarlyFeedbackShadowsDecision | app/state/machine.py:256-277 | a run in which feedback banked before detection stays on file while a later, different decision closes the scan |
| ScanLifecycle.DecideCloses | app/api/v1/scans.py:405-451 | in every run, a `decide_scan` that commits leaves the scan DECIDED by its own judgement, with a feedback row |
| ScanLifecycle.FeedbackOnVerdictedFails | app/state/machine.py:274-277 | in every run, a `record_feedback` session that has read VERDICTED stays at that statement or is gone and no step of it changes a table: it never commits, although the code lists VERDICTED among the states it decides |
| ScanLifecycle.DecideAlone | app/api/v1/scans.py:405-451 | without interference a deciding session of the step machine leaves exactly what `DecideScan` of the store promises |
| ScanLifecycle.DetectRequest | app/api/v1/detect.py:42-51 | two operations in one transaction: the second sees the row the first inserted, and one commit leaves the scan ANALYZED with both changes in its history |
| ScanOperations.AcquisitionAlone | app/state/machine.py:175-187 | after any run, a session alone: a new PENDING row or none |
| ScanOperations.DetectionAlone | app/state/machine.py:189-221 | the same for `record_detection`: PENDING to ANALYZED by two changes, ANALYZING by one, any other state untouched |
| ScanOperations.VerdictAlone | app/state/machine.py:223-254 | the same for `record_verdict`: ANALYZED to VERDICTED with its time, the verdict row in every state, nothing without the scan |
| ScanOperations.ReviewingAlone | app/state/machine.py:279-286 | the same for `mark_reviewing`: VERDICTED to REVIEWING, any other state untouched |
| ScanOperations.FeedbackAlone | app/state/machine.py:256-277 | the same for `record_feedback`: ANALYZED and REVIEWING to DECIDED, nothing left on VERDICTED, else only the feedback row |
| ScanOperations.FinishedHasActed | app/state/machine.py:175-286 | in every run a finished operation leaves its session no belief it should have acted on, and has its side row |
| ScanOperations.ConflictsWait | app/state/machine.py:138-186 | an insert or an update that meets an uncommitted one of another session waits, and changes nothing while it does |
| ScanOperations.LostRaceRollsBack | app/state/machine.py:138-172 | a refused or lost transition ends the session and leaves every table as it was |
| ScanOperations.KilledSessionIsGone | app/state/machine.py:125-130 | so does a session that is cut off |
| ScanOperations.OperationsFollow | app/api/v1/detect.py:42-51 | the operations of one transaction follow in their order, with what the session has read and written kept |
| ScanOperations.FilingStays | app/state/machine.py:256-277 | in a transaction the first feedback stays |
| ScanStores.ScanStore.constructor | app/state/machine.py:125-129 | a session over given tables and identity map |
| ScanStores.ScanStore.RecordAcquisition | app/state/machine.py:175-187 | a new PENDING row, or nothing when the scan is already there |
| ScanStores.ScanStore.RecordVerdict | app/state/machine.py:223-254 | the outcome and both tables, for every believed and every real state |
| ScanStores.ScanStore.Transition | app/state/machine.py:138-172 | a transition takes effect exactly when the event is allowed from the believed state and the row is in that state; the outcome, the row and the cache are stated in full |
| ScanStores.ScanStore.RecordDetection | app/state/machine.py:189-221 | one or two transitions, from PENDING or ANALYZING only, all or nothing |
| ScanStores.ScanStore.MarkReviewing | app/state/machine.py:279-286 | true exactly when it moved the scan from VERDICTED to REVIEWING |
| ScanStores.ScanStore.RecordFeedback | app/state/machine.py:256-277 | the outcome and both tables, for every believed and every real state |
| ScanStores.ScanStore.DriveToDecided | app/api/v1/scans.py:443-446 | reaches DECIDED through REVIEWING where needed, exactly when the belief is true |
| ScanStores.ScanStore.DecideScan | app/api/v1/scans.py:405-451 | succeeds exactly when the scan exists, is believed decidable and the belief is true; otherwise leaves nothing behind |
| Watchdogs.GivingUp | acquisition/watchdog.py:226-269 | the reconnect gives up exactly when all dials are refused, after exactly the configured number of them |
| Watchdogs.PausesOrdered | acquisition/watchdog.py:240-247 | the pauses never shrink and stay at or below the cap |
| Watchdogs.TotalPause | acquisition/watchdog.py:240-247 | their total is a geometric sum below the cap plus a multiple of the cap |
| Watchdogs.PassKeepsInv | acquisition/watchdog.py:126-175 | one pass of the read loop keeps the invariant, and counts a raise exactly when it raises |
| Watchdogs.DialsExactlyWhen | acquisition/watchdog.py:127-171 | a pass dials exactly when the driver is disconnected, the read times out, hangs or loses the connection, or it is the fifth bad frame in a row or a later one |
| Watchdogs.PassEnds | acquisition/watchdog.py:117-175 | how a pass ends, in terms of what the driver answers: a bundle, ScannerUnavailableError, another exception, or going on |
| Watchdogs.PausesInSeconds | acquisition/watchdog.py:238-247 | each pause is twice the one before, at most 120 seconds |
| Watchdogs.EveryRun | acquisition/watchdog.py:117-224 | over every run: fewer than 5 consecutive errors plus the raises since the last reset (so fewer than 5 before any raise); no read behind an unfinished one; abandoned workers at most the hung reads; reads are scans plus errors |
| Watchdogs.ReturnsAtZero | acquisition/watchdog.py:132-135 | a call that returns a bundle leaves the error counter at 0 |
| Watchdogs.BoundIsTight | acquisition/watchdog.py:137-175 | against a driver that stays deaf the counter does pass 5, by one for each raise |
| Watchdogs.PassCounts | acquisition/watchdog.py:117-175 | a pass that brings no bundle and no reconnect adds its failed reads to the counter; any other leaves 0, or 1 when its read failed after its reconnect |
| Watchdogs.QuietPassesCount | acquisition/watchdog.py:117-175 | over any passes without a bundle and without a successful reconnect the counter grows by exactly the failed reads |
| Watchdogs.HighExactlyWhen | acquisition/watchdog.py:117-175 | the counter is five or more at a loop head exactly when five or more reads failed since the last bundle or successful reconnect |
| Watchdogs.CallIsPartOfRun | acquisition/watchdog.py:117-175 | the passes of a call are passes of the run |
| Watchdogs.ConnectionWatchdog.constructor | acquisition/watchdog.py:76-90 | all counters at 0, no read pending |
| Watchdogs.ConnectionWatchdog.Dial | acquisition/watchdog.py:240-263 | the dial loop stops at the first dial that is not refused, with the pauses made so far |
| Watchdogs.ConnectionWatchdog.Reconnect | acquisition/watchdog.py:226-269 | counters, pauses and outcome of a reconnect |
| Watchdogs.ConnectionWatchdog.Submit | acquisition/watchdog.py:195-207 | a worker stuck in a hung read is rotated out before the submit |
| Watchdogs.ConnectionWatchdog.TimedRead | acquisition/watchdog.py:180-224 | a hang is kept as pending and answered as a timeout, a result that is no bundle as a frame error |
| Watchdogs.ConnectionWatchdog.Recover | acquisition/watchdog.py:143-175 | which errors reconnect, which continue, which raise |
| Watchdogs.ConnectionWatchdog.ReadAndRecover | acquisition/watchdog.py:130-175 | the timed read and what follows it |
| Watchdogs.ConnectionWatchdog.ReadOnce | acquisition/watchdog.py:126-175 | the loop body |
| Watchdogs.ConnectionWatchdog.MonitoredRead | acquisition/watchdog.py:117-175 | the loop, over every finite script of driver answers |
| MotionCapture.ShotsAreStill | camera/driver.py:284-301 | on every stream of scores a snapshot shows the last of exactly `stable_frames` (at least 1) consecutive quiet frames after motion, and is taken one frame later |
| MotionCapture.ShotsAreApart | camera/driver.py:312-317 | between two snapshots a frame scored above twice the threshold |
| MotionCapture.ShotsAreRare | camera/driver.py:284-317 | k snapshots in n frames satisfy k*(stable_frames+3) <= n+1 |
| MotionCapture.BoundIsTight | camera/driver.py:284-317 | for every k a stream meets that bound with equality |
| MotionCapture.ObjectIsCaptured | camera/driver.py:284-311 | motion followed by enough quiet frames is never missed while the loop waits |
| MotionCapture.FailedReadsChangeNothing | camera/driver.py:269-273 | a failed read anywhere in the stream changes nothing |
| MotionCapture.Camera.constructor | camera/driver.py:142-151 | nothing pending |
| MotionCapture.Camera.ReaderLoop | camera/driver.py:257-319 | the thread loop takes exactly those snapshots; failed reads change nothing; the latest snapshot is pending |
| ScreenText.Parse | vlm/screen.py:160-174 | the loop over the lines, as the specification the lemmas below and the votes use |
| ScreenText.CharacterClasses | vlm/screen.py:167-173 | the white space and the line breaks, one by one; a break is white space |
| ScreenText.LinesAppend | vlm/screen.py:167 | every break starts a new line |
| ScreenText.OneLineStaysWhole | vlm/screen.py:167 | and nothing else does |
| ScreenText.StripMeans | vlm/screen.py:171-173 | stripping takes white space from both ends and leaves none there |
| ScreenText.StripOfPadded | vlm/screen.py:171-173 | and whatever white space is put around a stripped text, stripping gives the text back |
| ScreenText.LineGivesExactly | vlm/screen.py:168-173 | a line gives a field exactly when the text before its first colon is the key, stripped and upper-cased; the value is the stripped rest |
| ScreenText.LastLineDecides | vlm/screen.py:167-174 | a field that some line names has the value of the last such line |
| ScreenText.UnnamedIsAbsent | vlm/screen.py:167-174 | a field that no line names is not read |
| ScreenText.RoundTrip | vlm/screen.py:160-174 | an answer written field by field in the requested form is read back as written |
| Screening.NormalizeIsConservative | vlm/screen.py:177-193 | canonical names normalise to themselves; exactly the answers that begin with YO clear a flag, exactly those with BOR or HA raise it, everything else is SHUBHALI |
| Screening.VoteIsMajority | vlm/screen.py:308-328 | a vote is BOR or YO'Q exactly when a strict majority said so |
| Screening.VotesIgnoreOrder | vlm/screen.py:310-328 | votes do not depend on the order of the passes |
| Screening.VoteIsMonotone | vlm/screen.py:310-328 | raising any answers never lowers a vote |
| Screening.RiskIsMonotone | vlm/screen.py:196-204 | the risk band follows the flags monotonically and `low` is never returned |
| Screening.TripsExactlyWithinBounds | vlm/guard.py:215-305 | a text trips the screener exactly when normalisation leaves nothing of it, or it has a content violation and a length within 10..600 |
| Screening.ShortClearanceIsNotCaught | vlm/screen.py:351-366 | a one-word forbidden clearance is hidden by its length violation |
| Screening.PickIsFirstBest | vlm/screen.py:207-220 | the vote takes the first of the texts that no other beats on support and then length |
| Screening.VoteTextIsMode | vlm/screen.py:207-220 | the winning text was given, has the most support, and is longest among those; none wins exactly when all left it out |
| Screening.SummaryIsClean | vlm/screen.py:334-349 | the chosen summary never trips the guard, so only cargo and wagon can |
| Screening.SummaryChosen | vlm/screen.py:334-349 | the summary is a longest clean description, else a longest clean answer, else the fixed text |
| Screening.NoMeansMajority | vlm/screen.py:310-328 | a flag is YO'Q exactly when a strict majority of passes answered it that way |
| Screening.ClearExactlyWhen | vlm/screen.py:306-383 | `clear` exactly when all four flags have a strict majority of YO'Q and the guard did not trip |
| Screening.ReturnedTexts | vlm/screen.py:330-383 | what is returned after a guard trip and without one, text by text, and when the result is ok |
| Screening.ReturnedTextsAreClean | vlm/screen.py:351-383 | no returned text trips the guard |
| Screening.FlagsByField | vlm/screen.py:310-374 | each flag follows the answers to its own question: raised by a strict majority of alarms, cleared only by one of YO'Q without a trip |
| Screening.RiskOfResult | vlm/screen.py:196-204 | the risk band is high exactly when a flag is raised, clear exactly when all are cleared, else medium |
| Screening.TripEscalates | vlm/screen.py:351-374 | a guard trip lowers neither a flag nor the risk band and rules `clear` out |
| Screening.VerdictIsMonotone | vlm/screen.py:306-383 | raising the flag answers of any passes, however their texts and descriptions change, lowers no flag of the result and not its risk band, guard included, as long as cargo and wagon stay |
| Screening.CollectAnswers | vlm/screen.py:313-320 | the inner loop over the passes, missing fields counted as SHUBHALI |
| Screening.CountAnswers | vlm/screen.py:321-322 | the two counts |
| Screening.ParseAll | vlm/screen.py:306 | every answer is parsed |
| Screening.VoteFlag | vlm/screen.py:313-328 | the vote on one flag |
| Screening.VoteFlags | vlm/screen.py:311-328 | the votes on the four flags |
| Screening.ChooseClean | vlm/screen.py:339-348 | the first text that is clean |
| Screening.ChooseSummary | vlm/screen.py:335-349 | longest clean description, else longest clean answer, else the fallback |
| Screening.GuardLoop | vlm/screen.py:352-366 | the loop over the shown texts trips exactly when one of them does |
| Screening.Aggregate | vlm/screen.py:298-383 | the whole result, as the specification used by the lemmas above |
| Screening.ScreenOne | vlm/screen.py:245-272 | passes that raised are dropped; without any answer the fail-safe result; never `clear` without an answer |
| ScreenOrder.FirstBestWins | vlm/screen.py:207-220 | of several best texts the one given first is shown |
| ScreenOrder.JudgementIgnoresOrder | vlm/screen.py:330-366 | the guard judges alike in every order if and only if no best text trips it, or no passes can settle cargo and wagon together |
| ScreenOrder.OrderIgnoredExactlyWhen | vlm/screen.py:298-383 | every order of the passes gives the same flags if and only if no flag was voted YO'Q, or no best cargo or wagon text trips the guard, or no passes can settle both |
| ScreenOrder.FirstDecides | vlm/screen.py:298-383 | of two passes that clear everything and tie on the cargo, the first decides between all clear and all SHUBHALI |
| ScreenOrder.OrderMatters | vlm/screen.py:298-383 | so the two orders give different verdicts when just one of the two texts trips the guard |
| ScreenOrder.OrderMattersSomewhere | vlm/screen.py:298-383 | a whole input that shows it: two answers, both orders |
| ImageStore.PathsApart | datalayer/storage.py:158-175 | different hashes have different blobs, and a temporary file is never a blob |
| ImageStore.BlobLayout | datalayer/storage.py:158-182 | where a blob and its temporary file lie, and what the reference of a put says |
| ImageStore.GetIsFailClosed | datalayer/storage.py:185-229 | on arbitrary disk contents: exactly when `get` answers and with which bytes, and exactly when it refuses egress |
| ImageStore.TamperedIsRefused | datalayer/storage.py:185-229 | on arbitrary disk contents the reference of a put is answered with the original bytes exactly when the blob decrypts to them, and refused otherwise, unless other bytes share their hash |
| ImageStore.OneHashOneContent | datalayer/storage.py:206-229 | two references with one hash, on two disks, never give different bytes unless the hash collides |
| ImageStore.PutThenGet | datalayer/storage.py:166-229 | on any disk, put then get returns the bytes exactly when there was no blob or the one there decrypts to them |
| ImageStore.PutIsIdempotent | datalayer/storage.py:166-182 | a second put changes nothing, and no other blob is ever touched |
| ImageStore.PublishedBlobsAreFaithful | datalayer/storage.py:166-182 | over every run of puts, torn writes and crashes every published blob decrypts to bytes that hash to its name |
| ImageStore.ReturnedIsRetrievable | datalayer/storage.py:166-229 | once a put has returned, after any further puts and crashes get returns the original bytes |
| ImageStore.UninterruptedPut | datalayer/storage.py:166-182 | the three steps without a crash are the one-call specification |
| ImageStore.InjectiveHashIsUnshared | datalayer/storage.py:166-229 | the condition on shared hashes above holds for every content of a hash without collisions |
| ImageStore.PutAfterAnyRun | datalayer/storage.py:166-182 | after any run with crashes an uninterrupted put returns and leaves the disk of the one-call specification |
| ImageStore.CrashLosesTheCall | datalayer/storage.py:166-182 | a crash loses the call and nothing on the disk; a torn write touches the temporary file only |
| ImageStore.SecureImageStore.constructor | datalayer/storage.py:152-155 | a store over an existing disk |
| ImageStore.SecureImageStore.Put | datalayer/storage.py:166-182 | empty bytes are refused; otherwise the reference and the new disk |
| ImageStore.SecureImageStore.Get | datalayer/storage.py:185-229 | egress, missing, undecryptable and mismatching blobs are refused |
| FeedbackContracts.LookUpFrame | datalayer/labelstore.py:113-118 | the first frame with the id |
| FeedbackContracts.LookUpDetection | datalayer/labelstore.py:121-141 | the first detection with the id |
| FeedbackContracts.CheckFrameIds | contracts/v1/detection.py:95-97 | accepts exactly distinct frame ids |
| FeedbackContracts.CheckDetections | contracts/v1/detection.py:99-109 | accepts exactly distinct detections that lie in real frames |
| FeedbackContracts.CheckResult | contracts/v1/detection.py:93-118 | the validator accepts exactly the consistent results |
| FeedbackContracts.CheckReviews | contracts/v1/feedback.py:157-164 | accepts exactly reviews of real detections, at most one each |
| FeedbackContracts.CheckFeedback | contracts/v1/feedback.py:148-174 | the validator accepts exactly the consistent messages |
| FeedbackContracts.ResultConsistentExactly | contracts/v1/detection.py:93-118 | what a consistent result is, in terms of its frames and detections alone |
| FeedbackContracts.FeedbackConsistentExactly | contracts/v1/feedback.py:148-174 | what a consistent message is, in the same terms |
| FeedbackContracts.FieldsExactly | contracts/v1/common.py:45-239 | what the fields of a message must be, one by one |
| FeedbackContracts.LookupIsUnique | datalayer/labelstore.py:121-141 | with distinct ids a lookup names the one detection it can name |
| LabelLoop.ExtractReviews | datalayer/labelstore.py:158-234 | the loop over the reviews |
| LabelLoop.ExtractMissed | datalayer/labelstore.py:236-254 | the loop over the missed regions |
| LabelLoop.ExtractLabelEntries | datalayer/labelstore.py:144-280 | the entries in order: labelled reviews, missed regions, the clean scan |
| LabelLoop.ExtractionCounts | datalayer/labelstore.py:144-280 | n_gold_labels positives, n_hard_negatives negatives, one true negative exactly for a clean scan |
| LabelLoop.ReviewGrounded | datalayer/labelstore.py:159-233 | the entry of a review carries frame, box, score and category of the reviewed detection, or the corrected category |
| LabelLoop.DanglingReview | datalayer/labelstore.py:113-141 | a review of a detection that is not there yields an entry without place, score or category |
| LabelLoop.MissedGrounded | datalayer/labelstore.py:236-254 | the entry of a missed region carries its frame, box and category |
| LabelLoop.ScanEntryFields | datalayer/labelstore.py:256-278 | the entry of a clean scan carries its first frame, no box and no category |
| LabelLoop.EntriesInOrder | datalayer/labelstore.py:144-280 | which entries there are and where each stands |
| LabelLoop.NoFallback | datalayer/labelstore.py:113-141 | accepted feedback never reaches an "unknown" fallback: every entry points at a real frame by its real hash, with a box inside it unless it is scan-level |
| LabelLoop.GateExactly | datalayer/quality.py:95-221 | an entry of accepted feedback passes exactly when its region is large enough for its category, at most 20:1, and a positive is of a known category |
| LabelLoop.PassesExactly | datalayer/quality.py:95-221 | the gate on any entry whatsoever, condition by condition |
| LabelLoop.MinimumAreas | datalayer/quality.py:36-58 | the least area of each category |
| LabelLoop.ReceiptIsTruthful | datalayer/active_learning.py:129-149 | the receipt counts plus the clean scan are what was queued; equality with what was offered exactly when every region is good |
| LabelLoop.LabelQueue.constructor | datalayer/labelstore.py:296-300 | an empty queue |
| LabelLoop.LabelQueue.EnqueueMany | datalayer/labelstore.py:310-318 | the file keeps what it had and grows by the entries |
| LabelLoop.FilterPassing | datalayer/quality.py:223-232 | the entries that pass, in order, and one mark per entry |
| LabelLoop.CountKind | datalayer/active_learning.py:130-140 | the receipt counts |
| LabelLoop.ActiveLearningLoop.constructor | datalayer/active_learning.py:71-84 | a loop over a queue |
| LabelLoop.ActiveLearningLoop.ProcessFeedback | datalayer/active_learning.py:87-167 | the queue grows by exactly the passing entries; receipt, candidate and passing counts |
| LabelLoop.QueueIsAccountedFor | datalayer/active_learning.py:87-149 | over any run of messages the queue holds exactly the labels and hard negatives acknowledged, plus the clean scans |
| LabelLoop.BankedOncePerDelivery | datalayer/active_learning.py:87-120 | over any run the queue holds the labels of a message once for every time it was sent: nothing is deduplicated |
| LabelLoop.FailedRunBecomesTrueNegative | datalayer/labelstore.py:256-278 | a scan whose detector failed and that is then cleared is banked as a true negative |

## Left out

- DetectionEvaluation.DetectionEval.AddImage: the per-bucket counter `_n_gt_by_occ`, written and never read, is not kept.
- EvalRecords.PointIsRematch: the confidence interval stored in a point is not a field of it; it is a function of tp and n_gt, and `Wilson` treats it separately.
- AcceptanceGate.Compare: latency, provenance, notes, rendering and the sorted order of the deltas are not modelled; miss rates and average precision are not repeated in a delta (the latter may depend on the visiting order, see `ImageOrder`); the fingerprint stands for its sorted list of rounded ground truths instead of the hash of its JSON text.
- AuditRun.AuditTable.Record: models the body that runs under the lock; the waiting of other workers and of the in-process lock is in the step machine of `AuditRun`. Creation times are taken to survive storage.
- ScanSessions.RunKeepsInv: all operations of one session are on one scan; row columns that the lifecycle never reads, detection rows, the audit call and the notification that follow a decision, and lane access are not part of the sessions.
- ScanStores.ScanStore.DecideScan: other sessions act before the call (any stale cache) but not between its statements; that interleaving is in `ScanSessions`.
- Watchdogs.ConnectionWatchdog.MonitoredRead: works through a finite script and reports when the script ends inside the loop; text of the last error, reconnect time, log lines and `disconnect` are not modelled. An exception of another type ends the call as raised.
- MotionCapture.Camera.ReaderLoop: frames are motion scores; pixels, encoding failures and the hand-over to `next_frame` are not modelled.
- Screening.Aggregate: the case mappings, Unicode normalisation and the five content checks of the guard are arbitrary functions; file name, timing and error texts of a result are left out.
- ScreenText.Parse: a carriage return and the line feed after it are two breaks with an empty line between them, which carries no key.
- ImageStore.SecureImageStore.Put: one writer; two writers of the same content share a temporary name and are not modelled. URI quoting is not modelled.
- LabelLoop.ActiveLearningLoop.ProcessFeedback: the retrain scheduler, whose failures are swallowed, label ids, times and the JSON form of a queue line are not modelled.
- FeedbackContracts.CheckFeedback: length limits, identifiers and other single-field rules of the message schema are reduced to what extraction relies on.
- ImageOrder.ApIgnoresImageOrderExactlyWhen: for images that hold both kinds of records at scores where the two kinds meet only the sufficient half is stated (`ImageOrder.ImageOrderHarmless`); the other half fails there, by `ImageOrder.ExposedWithinOneImage`.
- `recall_at_precision`, `report`, Platt calibration and the calibration report.
- Floating-point rounding everywhere.
- HTTP routing, authentication, metrics, WebSockets, database drivers, model inference, image decoding, vendor drivers, the console and deployment scripts.
