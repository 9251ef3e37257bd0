# Verification of the interview analytics agent

A Dafny model of the algorithmic and protocol code of the interview analytics agent, with proofs. Each
module models one component; methods and classes follow the program where it changes state, and are
proved against specification functions about which the properties are proved. `dafny verify
dfyconfig.toml` checks everything.

- **Task queue** (`TaskQueue`, `TaskEnds`, `TaskRecovery`, `TaskTermination`, `TaskOutcomes`, `TaskConservation`,
  `TaskFailures`, `TaskMeetings`, `TaskWorkers`, `TaskTurns`): five streams with consumer groups, retries, dead letters, stale claims and late
  acknowledgement. Every effect on a stream is one action and all interleavings and crash points are runs. In every
  run: no task is lost, how often each task ends is counted exactly, and the queue can be brought to rest without
  faults. A claim is guarded when it takes over an entry that no worker holds and that was neither finished nor copied;
  a run is clean when its claims are guarded and no finished entry is requeued. The program enforces neither; clean
  runs are bounded by the tasks produced and their claims, and bring every task to one end. The worker loops
  are tied to the machine turn by turn, with other workers acting between any two steps, and in every run of the
  machine each worker does nothing but turns of its loop.
- **Retrieval** (`CoverSpan`, `Scoring`, `HashEmbedding`, `RetrievalMetrics`, `LineChunking`, `EmbeddingRows`,
  `EmbeddingCache`, `TranscriptLines`, `RagIndex`, with `Sorting`): each fast form against its simple meaning.
- **Jobs and recording** (`QuickRecordJobs`, `RagIndexJobs`, `SegmentRecorder`): locked regions as atomic steps of a
  machine with worker threads, and a scheduler of overlapping segments.
- **Text algorithms** (`EditDistance`, `LinePacking`, `TailRecovery`, with `Text`).
- **Ingest** (`Idempotency`, `Ingest`) and **speakers** (`SpeakerInference`).

What the proofs turned up, each with a lemma that shows it and one that says when it does not happen:

- a chunk whose put fails keeps its claim, so its retry is acknowledged as a duplicate and never stored; and a
  duplicate acknowledgement can report a number that the next ping takes back (`Ingest`);
- claim keys join their parts with colons that the parts may contain (`Ingest.SharedClaimIff`);
- a key accepted by Redis is accepted again when Redis goes away (`Idempotency`), although the function promises
  False for a known key (src/interview_analytics_agent/queue/idempotency.py:50-52);
- a task that kills its worker is claimed and executed for ever, and its attempts are never counted; a failure after
  the hand-off, or a claim of an entry that is still worked on or was already handed on or copied, lets a task go on
  twice (`TaskFailures`), once more for each time an entry is finished or requeued again (`TaskEnds.OneEndIff`);
- chunk starts ignore where the character budget cut the chunk before, so lines can be in no chunk (`LineChunking`);
- the embedding cache key of a Gemini text has no endpoint in it, because it is taken from the field for OpenAI, so an
  index built after a change of endpoint carries the old vectors (`RagIndex.EndpointChangeIsMissed`), exactly for
  the chunks that were stored under the old one (`RagIndex.VectorIsPlainIff`); other providers are not touched;
- with the disk off, a call repeated at once can ask the provider again although all its keys fit into the memory cache:
  an old key of it was evicted for its own new ones (`EmbeddingCache.OldHitIsEvicted`, `EmbeddingCache.AgainNothingIff`);
- recovering a tail twice can add the backup again when a match ends inside a word, or when the backup is longer than
  120 words and repeats itself (`TailRecovery`);
- a stop that comes before the recording worker begins is overwritten in the job's status
  (`QuickRecordJobs.StopShowsIff`).

Numbers are exact: floats are reals, and integers of Python are unbounded as here. Hashes are taken to be injective
where they are used as keys; cues found by regular expressions are given as booleans or names; the discount of the
metrics is any positive non-increasing function; a square root is any non-negative root.

## Model

| member | source | states |
|---|---|---|
| TaskQueue.NoTaskLost | apps/worker_stt/main.py:80-164 | in every interleaving of producers, workers, stale claims and crashes each entry is exactly one of undelivered, pending, acknowledged; an acknowledged one has its handler finished with the next task on the next stream (retention: finished), or a copy with one more attempt on the stream, or one in the dead-letter stream |
| TaskQueue.EveryTaskCarriedOn | apps/worker_stt/main.py:140-164 | from every entry ever added a chain of hand-offs and retries leads to an entry that is still open, is in a dead-letter stream, or has passed the last stage |
| TaskQueue.AttemptsBounded | src/interview_analytics_agent/queue/retry.py:38-62 | in all runs live entries have at most 3 attempts and dead letters exactly 4 |
| TaskQueue.StepKeepsInv | src/interview_analytics_agent/queue/streams.py:54-131 | every single effect of the queue protocol (add, read, claim, hand on, requeue, acknowledge, crash) keeps the invariant behind the safety results |
| TaskQueue.RunKeepsInv | src/interview_analytics_agent/queue/streams.py:54-131 | the same over whole runs, from any state in order |
| TaskQueue.PutBackOk | src/interview_analytics_agent/queue/retry.py:38-62 | a requeue leaves every live entry within the attempts and every dead letter with one more, and the copy is there |
| TaskQueue.HandOnStreams | src/interview_analytics_agent/queue/dispatcher.py:97-157 | finishing a handler puts the next stage's task, made from this entry, on the next stream and keeps all streams in order |
| TaskQueue.AcknowledgeOk | src/interview_analytics_agent/queue/streams.py:130-131 | acknowledging keeps the streams in order because evidence for the entry is there before |
| TaskQueue.CarriedOn | apps/worker_stt/main.py:144-164 | the induction on stage and attempts that finds the open or ended descendant |
| TaskMeetings.TasksAreAsAsked | src/interview_analytics_agent/queue/dispatcher.py:58-80 | in every run the first stream has one task for each meeting asked for, in the order of asking, all others there and on later streams come from an earlier entry |
| TaskMeetings.EveryEntryWasAskedFor | src/interview_analytics_agent/queue/dispatcher.py:97-157 | in every run every entry of every stage descends from a task that was asked for, and is, like all entries between, for the same meeting |
| TaskMeetings.DescendsForSame | src/interview_analytics_agent/queue/dispatcher.py:97-157 | an entry is for the meeting of every entry it descends from |
| TaskMeetings.DeadLetterForSame | src/interview_analytics_agent/queue/retry.py:38-62 | in every run a dead letter is for the meeting of the entry it was copied from, which was asked for |
| TaskEnds.EndsOfTask | apps/worker_stt/main.py:80-164 | every run, any claims and faults: of a task that came to a stage, the tasks handed on from it, its dead letters and its open entries (neither finished nor copied) are one more than the times a worker finished or requeued an entry of it that had been finished or copied already; and hand-offs and dead letters are one more than all completions and requeues of its entries less the entries |
| TaskEnds.OneEndIff | apps/worker_stt/main.py:80-164 | every run, any claims and faults: a task whose entries are all acknowledged has one end (a task handed on or a dead letter) and one more for each repeated outcome; so it ends once exactly when each of its entries was finished or requeued once |
| TaskEnds.EveryTaskAccounted | apps/worker_retention/main.py:34-92 | every run, any claims and faults: tasks produced + repeated outcomes of all stages = times retention was done + dead letters + open entries of all stages |
| TaskEnds.EndsBalance | src/interview_analytics_agent/queue/dispatcher.py:97-157 | the balance of one stage for any tasks: what ends and what is open is what came in and what was repeated |
| TaskEnds.StepBalance | src/interview_analytics_agent/queue/retry.py:38-62 | each single effect keeps that balance |
| TaskEnds.StepHanded | src/interview_analytics_agent/queue/dispatcher.py:97-157 | every completion puts exactly one entry of the task on the next stream |
| TaskEnds.RunOriginal | src/interview_analytics_agent/queue/dispatcher.py:97-157 | in every run event numbers are new when they come in, and on a stream only copies share them |
| TaskEnds.CameOnce | src/interview_analytics_agent/queue/retry.py:38-62 | so a task that is on a stream came to it once: all its entries but one are copies |
| TaskEnds.OutcomesOfEntry | apps/worker_stt/main.py:85-159 | in every run the outcomes of an entry are its first one, if it is finished or copied, and the repetitions |
| TaskOutcomes.ExecutionsBounded | src/interview_analytics_agent/queue/retry.py:38-62 | when claims take over only what is unheld, unfinished and not copied, a task is given to a worker of its stage at most max_attempts + 1 times plus the claims of it, whatever crashes |
| TaskOutcomes.ExecutionsAreDeliveries | src/interview_analytics_agent/queue/streams.py:54-127 | in every run the executions of a task are its delivered entries and the claims of them |
| TaskOutcomes.RunOnce | src/interview_analytics_agent/queue/streams.py:101-127 | with guarded claims no entry is held twice or copied twice, and a task has one entry per number of attempts |
| TaskOutcomes.PutBackOnce | src/interview_analytics_agent/queue/retry.py:38-62 | requeueing an entry that was not copied before keeps tries and dead letters of a task distinct |
| TaskOutcomes.OneSuccessOrOneDeadLetter | apps/worker_stt/main.py:144-164 | the case of guarded claims, where finished entries can be counted instead of outcomes: a task whose entries are all acknowledged has one finished entry or one dead letter, and not both, exactly when no finished entry of it was requeued; otherwise it has more |
| TaskOutcomes.OneEndOnStream | src/interview_analytics_agent/queue/retry.py:38-62 | a settled task has one end exactly when no entry of it was both finished and copied, and never none |
| TaskOutcomes.RunTwice | apps/worker_stt/main.py:144-164 | over whole runs: an entry of a task is both finished and copied exactly when a worker has requeued it after finishing it |
| TaskOutcomes.OthersAreCopied | src/interview_analytics_agent/queue/retry.py:38-62 | all tries of a task but the last have been copied |
| TaskConservation.TasksConserved | apps/worker_retention/main.py:34-92 | the case of clean runs (guarded claims, no finished entry requeued), crashes and take-overs included, where nothing is repeated: tasks produced = entries through retention + dead letters of all stages + entries still open |
| TaskConservation.StepCounts | apps/worker_enhancer/main.py:38-104 | each effect keeps the balance of tasks in, completed, dead and open of its stream |
| TaskTermination.AllTasksEnd | apps/worker_delivery/main.py:70-178 | with handlers failing at will and a worker at every stage: a run has at most 141 actions per task produced (one, and seven for each of at most 20 reads), can go on in the same way until the queue is at rest, and at rest every entry is acknowledged and every task has passed retention or is in a dead-letter stream |
| TaskTermination.TaskEndsOnce | apps/worker_stt/main.py:144-164 | at rest after such a run each task of each stage has one success or one dead letter |
| TaskRecovery.EveryRunCanFinish | src/interview_analytics_agent/queue/streams.py:76-127 | recovery: with a worker at every stage every run, whatever was claimed, crashed, failed or skipped in it, can be carried on without new tasks and without any fault to a state at rest: every entry of every stream is acknowledged, and from every entry ever added a chain of hand-offs and retries leads past retention or to a dead-letter stream |
| TaskRecovery.ComesToIdle | apps/worker_stt/main.py:85-164 | from every state in order the busy workers finish their turns without a fault |
| TaskRecovery.WorksOff | src/interview_analytics_agent/queue/streams.py:101-127 | from idle workers the queue is worked off, one whole turn of read or claim, handler, acknowledgement after the other |
| TaskRecovery.TurnEnds | apps/worker_stt/main.py:85-164 | such a turn takes its entry out of the missing acknowledgements, counted once for their own stage and every later one, although it puts a task on the next stage |
| TaskRecovery.CleanRunCanEnd | src/interview_analytics_agent/queue/streams.py:76-127 | every clean run can be carried on cleanly, with no other fault than requeues of finished entries that raise, until each task produced has passed retention or is in a dead-letter stream, and none has gone on twice |
| TaskTermination.ActionsBounded | src/interview_analytics_agent/queue/retry.py:38-62 | in every clean run the reads are at most (max_attempts + 1) per task and stage, and the actions within turns at most six per read or claim |
| TaskTermination.ClaimsBounded | src/interview_analytics_agent/queue/streams.py:76-98 | with guarded claims there are no more claims than crashes and skipped acknowledgements before them |
| TaskTermination.NeverStuck | src/interview_analytics_agent/queue/streams.py:101-127 | with a worker at every stage, in no state is the queue stuck: while it is not at rest (workers idle, everything read, nothing pending) some worker can go on without a fault |
| TaskTermination.EntriesPerTask | src/interview_analytics_agent/queue/retry.py:38-62 | a stream holds at most max_attempts + 1 entries for each task that came to it |
| TaskTermination.InnersBounded | apps/worker_stt/main.py:80-164 | in every run a read or a claim is followed by at most six actions of its worker |
| TaskFailures.LateFailureGoesOnTwice | apps/worker_stt/main.py:140-164 | from every state: a failure after the hand-off, once requeued, leaves the entry acknowledged both as finished and as copied |
| TaskFailures.StaleClaimHandsOnTwice | src/interview_analytics_agent/queue/streams.py:76-98 | from every state: a stale claim of an entry still worked on gives the next stage two tasks |
| TaskFailures.ClaimOfFinishedHandsOnTwice | src/interview_analytics_agent/queue/streams.py:76-98 | from every state: a claim of an entry whose worker went after handing on gives the next stage the task again |
| TaskFailures.ClaimOfCopiedFinishesToo | src/interview_analytics_agent/queue/streams.py:76-98 | from every state: a claim of an entry whose worker went after copying it can finish the entry as well |
| TaskFailures.ClaimOfFailedFinishesToo | src/interview_analytics_agent/queue/streams.py:76-98 | from every state: a claim of an entry that its worker is about to requeue can finish the entry while the other copies it |
| TaskFailures.PoisonTaskLoops | src/interview_analytics_agent/queue/streams.py:76-127 | for every n: a task that kills its worker is executed n + 1 times in a clean run with n claims, its attempts still 0 and no dead letter, so the bound on executions is met and needs its claims |
| TaskWorkers.Broker.Enqueue | src/interview_analytics_agent/queue/dispatcher.py:58-80 | the task goes to the end of the first stream, for the meeting given, with no attempts and an event number that is new; the other streams stay as they are; it is the producer step of the machine |
| TaskWorkers.Broker.ClaimStale | src/interview_analytics_agent/queue/streams.py:76-98 | the oldest pending entry that has been idle too long, or none if there is none |
| TaskWorkers.Broker.ReadNew | src/interview_analytics_agent/queue/streams.py:54-73 | the next undelivered entry, which becomes pending |
| TaskWorkers.Broker.AckTask | src/interview_analytics_agent/queue/streams.py:130-131 | the entry leaves the pending set |
| TaskWorkers.Broker.RequeueWithBackoff | src/interview_analytics_agent/queue/retry.py:24-74 | the copy goes back on the stream, or to the dead-letter stream once the attempts are used up; True exactly in the first case |
| TaskWorkers.Broker.FinishHandler | src/interview_analytics_agent/queue/dispatcher.py:97-157 | each stage feeds the stream of the next, the last feeds none |
| TaskWorkers.Consumer.ReadTask | src/interview_analytics_agent/queue/streams.py:101-127 | a stale entry is preferred to a new one, the oldest first; nothing only if there is neither; other workers may act before either call |
| TaskWorkers.Consumer.LetOthers | apps/worker_stt/main.py:80-164 | whatever other workers do leaves this one where it stands, and extends the run |
| TaskWorkers.Consumer.Process | apps/worker_stt/main.py:85-142 | where the handler raises decides the flag and whether the task was handed on |
| TaskWorkers.Consumer.Recover | apps/worker_stt/main.py:144-159 | the flag is set by a requeue that returns, and kept when it raises before or after writing |
| TaskWorkers.Consumer.Finalize | apps/worker_stt/main.py:161-164 | acknowledged exactly when the flag is set and the acknowledgement works |
| TaskWorkers.Consumer.RunOnce | apps/worker_stt/main.py:80-164 | one turn of the loop, for every combination of faults and with other workers acting between any two of its steps, is a run of the queue machine in which this worker takes exactly these actions, and leaves streams and workers as that run does |
| TaskWorkers.Consumer.RunLoop | apps/worker_stt/main.py:80-164 | any number of turns, with any faults and any actions of others in between: what this worker has done is, turn after turn and nothing else, the entry taken and what the turn does with it, nothing where a turn found no entry; the queue is left in order |
| TaskTurns.WorkersDoTurns | apps/worker_stt/main.py:80-164 | the other way round: in every run of the machine, and for every worker, its own actions are whole turns of the loop, each with some outcome of handler, requeue and acknowledgement, or turns cut off by a crash, one after the other, and the beginning of one that has come to the phase the worker is in |
| TaskTurns.StepTurns | apps/worker_stt/main.py:80-164 | each single action, of this worker or another, keeps it so |
| TaskTurns.SinceFurther | apps/worker_stt/main.py:85-159 | each statement of the loop continues the turn as the program does |
| RetrievalMetrics.DcgAtMostIdeal | apps/api_gateway/routers/artifacts.py:2624-2631 | rearrangement: for every grade list, cut and non-increasing positive discount the gain of the ranking is at most that of the descending one |
| RetrievalMetrics.InsertGains | apps/api_gateway/routers/artifacts.py:2624-2631 | moving a grade to its place in the descending order loses no gain |
| RetrievalMetrics.SwapGains | apps/api_gateway/routers/artifacts.py:2624-2631 | exchanging two neighbours in the wrong order loses no gain |
| RetrievalMetrics.SortedIsIdeal | apps/api_gateway/routers/artifacts.py:2627-2631 | a ranking in descending order has the ideal gain |
| RetrievalMetrics.IdealGainIff | apps/api_gateway/routers/artifacts.py:2624-2631 | for a strictly falling discount the gain is the ideal one exactly when the ranking agrees with the descending one down to the cut |
| RetrievalMetrics.IdealGainIsIdeal | apps/api_gateway/routers/artifacts.py:2624-2631 | equal gain forces the same first k grades, by induction on the ranking |
| RetrievalMetrics.IdealPositive | apps/api_gateway/routers/artifacts.py:2627-2631 | the ideal gain is positive whenever a relevant row exists |
| RetrievalMetrics.AccumulateDcg | apps/api_gateway/routers/artifacts.py:2624-2626 | the loop computes the discounted gain of the first k grades |
| RetrievalMetrics.DcgOfOtherGrade | apps/api_gateway/routers/artifacts.py:2624-2626 | another grade at one rank changes the gain by the difference of the two gains, discounted for that rank, and below the cut by nothing |
| RetrievalMetrics.DcgOfNothing | apps/api_gateway/routers/artifacts.py:2624-2626 | grades of 0 gain nothing; with the row above this leaves no other function |
| RetrievalMetrics.GainOfNext | apps/api_gateway/routers/artifacts.py:2624-2626 | grade 0 gains nothing, each grade one more than twice the grade below |
| RetrievalMetrics.RelevantCounts | apps/api_gateway/routers/artifacts.py:2609 | the relevant rows are counted |
| RetrievalMetrics.CutOffIsNearest | apps/api_gateway/routers/artifacts.py:2613 | the cut is what was asked for, or else the nearest number of rows there is |
| RetrievalMetrics.ComputeRetrievalMetrics | apps/api_gateway/routers/artifacts.py:2598-2638 | recall, MRR and nDCG lie in [0, 1] before the clamp, and are what their definitions say; all are 0 exactly when no row is relevant |
| RetrievalMetrics.RecallAt | apps/api_gateway/routers/artifacts.py:2613-2616 | the share of relevant rows within the cut, 1 iff none is below it |
| RetrievalMetrics.RecallIsOne | apps/api_gateway/routers/artifacts.py:2613-2616 | recall is 1 exactly when no relevant row is below the cut |
| RetrievalMetrics.ReciprocalRank | apps/api_gateway/routers/artifacts.py:2618-2622 | one over the rank of the first relevant row |
| RetrievalMetrics.NdcgAt | apps/api_gateway/routers/artifacts.py:2624-2631 | nDCG is in [0, 1], 1 for every descending ranking, and for a strictly falling discount exactly for those that agree with it down to the cut |
| Sorting.SortDescArranges | apps/api_gateway/routers/artifacts.py:2684 | the stable descending sort keeps elements and the order within equal keys |
| Sorting.SortDescIsUnique | apps/api_gateway/routers/artifacts.py:2684 | there is only one such arrangement, so the sort is fixed by it |
| EditDistance.DistanceIsLeastCost | src/interview_analytics_agent/processing/wer.py:15-32 | the recurrence is attained by some insert/delete/substitute script and undercut by none |
| EditDistance.NoScriptIsCheaper | src/interview_analytics_agent/processing/wer.py:24-30 | no edit script costs less than the recurrence |
| EditDistance.CheapestWorks | src/interview_analytics_agent/processing/wer.py:24-30 | walking the recurrence back gives a script with exactly its cost |
| EditDistance.DistanceIsMetric | src/interview_analytics_agent/processing/wer.py:15-32 | zero iff equal, symmetric, triangle inequality, between the difference of the lengths and the longer length |
| EditDistance.Triangle | src/interview_analytics_agent/processing/wer.py:15-32 | the triangle inequality, by induction on the three lists |
| EditDistance.RowStep | src/interview_analytics_agent/processing/wer.py:24-30 | each cell follows from its three neighbours |
| EditDistance.FillRow | src/interview_analytics_agent/processing/wer.py:22-31 | one row of the table from the row before |
| EditDistance.LevenshteinDistance | src/interview_analytics_agent/processing/wer.py:15-32 | the two-row table returns the distance, empty lists included |
| EditDistance.WordErrorRate | src/interview_analytics_agent/processing/wer.py:35-41 | the distance per reference word: times the number of words it is the distance; 0 or 1 for an empty reference |
| EditDistance.RateCountsEdits | src/interview_analytics_agent/processing/wer.py:35-41 | per reference word the rate counts the edits of some script, and no script has fewer |
| EditDistance.ErrorRateBounds | src/interview_analytics_agent/processing/wer.py:35-41 | the rate is 0 iff the transcripts agree, and at most the longer length / ref length |
| CoverSpan.MinCoverSpan | apps/api_gateway/routers/artifacts.py:1677-1706 | the two-pointer scan finds the exact least size of a window holding all needed terms, and nothing iff a term never occurs |
| CoverSpan.ShrinkWindow | apps/api_gateway/routers/artifacts.py:1693-1705 | the inner loop keeps the counts exact and overlooks no window |
| CoverSpan.CoversIffNoneMissing | apps/api_gateway/routers/artifacts.py:1688-1693 | the counter of missing terms is 0 exactly when the window covers |
| CoverSpan.ExtendNoShorter | apps/api_gateway/routers/artifacts.py:1687-1693 | no covering window ending at the next token is shorter than the best one known |
| CoverSpan.MinCoverSpanRatio | apps/api_gateway/routers/artifacts.py:1677-1708 | the score is in [0, 1], and 0 exactly when a term is missing or a list is empty; otherwise score times the least size of a covering window is the number of terms, unless that window is shorter than the terms |
| CoverSpan.FullScoreIffBlock | apps/api_gateway/routers/artifacts.py:1706-1708 | for duplicate-free terms the score is 1 exactly when they stand as one contiguous block |
| CoverSpan.TightWindowIsBlock | apps/api_gateway/routers/artifacts.py:1706-1708 | a covering window no longer than the terms is a block of them |
| Scoring.DotSquared | src/interview_analytics_agent/rag/embeddings.py:76-84 | Cauchy-Schwarz for the three accumulated sums of any two vectors |
| Scoring.Accumulate | src/interview_analytics_agent/rag/embeddings.py:73-86 | the loop computes the sums over the shorter length, and when the answer is 0 |
| Scoring.CosineInRange | src/interview_analytics_agent/rag/embeddings.py:85-87 | the quotient lies in [-1, 1] |
| Scoring.DotAdds | src/interview_analytics_agent/rag/embeddings.py:79-84 | the accumulated sum is additive in its first list |
| Scoring.DotOfSingle | src/interview_analytics_agent/rag/embeddings.py:79-84 | for a list that is zero but in one place it is one product; with the row above this leaves no other function |
| Scoring.OrderedMatch | apps/api_gateway/routers/artifacts.py:1663-1674 | the greedy pass counts the longest prefix of the query that is a subsequence of the chunk |
| Scoring.GreedyStep | apps/api_gateway/routers/artifacts.py:1668-1673 | taking one more token keeps the count right |
| Scoring.LongestPrefixIsMaximum | apps/api_gateway/routers/artifacts.py:1663-1674 | no longer prefix fits, so the count is the maximum |
| Scoring.ApplyReranker | apps/api_gateway/routers/artifacts.py:2645-2685 | rows after the head stay in place, and the head is the stable descending arrangement by the blended score |
| Scoring.RerankerPermutes | apps/api_gateway/routers/artifacts.py:2669-2685 | the chunks of the result are a permutation of those given |
| Scoring.BlendMovesTowards | apps/api_gateway/routers/artifacts.py:2682 | the blend moves the score of a row towards what it earns, by the given share, and touches nothing else |
| Scoring.EarnedInRange | apps/api_gateway/routers/artifacts.py:2678-2681 | what a row earns is in [0, 1], 1 exactly for full coverage, the phrase and the best semantic score, and 0 exactly for none of them; coverage alone earns 0.65, the phrase alone 0.25 |
| Scoring.HeadIsAsked | apps/api_gateway/routers/artifacts.py:2641-2670 | when the head is empty, and how long it is otherwise |
| HashEmbedding.Embed | src/interview_analytics_agent/rag/embeddings.py:44-67 | the vector has the clamped dimension and is the normalised sum of the signed feature weights, zero when the sum is |
| HashEmbedding.AddFeatures | src/interview_analytics_agent/rag/embeddings.py:56-62 | the in-place additions put on each coordinate the weight of the features hashed to it |
| HashEmbedding.Normalize | src/interview_analytics_agent/rag/embeddings.py:64-67 | scaled to length one, or zero |
| HashEmbedding.UnitLength | src/interview_analytics_agent/rag/embeddings.py:64-67 | dividing by the norm gives length exactly one |
| HashEmbedding.OrderDoesNotMatter | src/interview_analytics_agent/rag/embeddings.py:56-62 | each coordinate depends on the multiset of words only |
| HashEmbedding.SameWordsSameEmbedding | src/interview_analytics_agent/rag/embeddings.py:44-67 | texts with the same words, each as often, have the same embedding |
| HashEmbedding.FeaturesAre | src/interview_analytics_agent/rag/embeddings.py:56-62 | the features of a word: itself with weight one and, from four characters on, each of its grams with weight 0.18 |
| HashEmbedding.GramsAre | src/interview_analytics_agent/rag/embeddings.py:32-41 | the grams of a word are every stretch of three, then every stretch of four characters of the word with marks at its ends |
| HashEmbedding.FeatureIsHashed | src/interview_analytics_agent/rag/embeddings.py:21-25 | the coordinate is the digest modulo the dimension, the sign that of the digest |
| HashEmbedding.WeightAppend | src/interview_analytics_agent/rag/embeddings.py:56-62 | the weights of two lists of features add up |
| HashEmbedding.WeightOfOne | src/interview_analytics_agent/rag/embeddings.py:56-62 | one feature puts its weight on its own coordinate and on no other |
| EmbeddingRows.FillSlots | src/interview_analytics_agent/rag/embeddings.py:174-183 | each slot holds the last usable row that names it; rows without an index fill none |
| EmbeddingRows.OrderRows | src/interview_analytics_agent/rag/embeddings.py:174-193 | rows with distinct indices come out in index order, rows without indices as they are |
| EmbeddingRows.EverySlotFilled | src/interview_analytics_agent/rag/embeddings.py:174-184 | distinct indices leave no slot empty |
| EmbeddingRows.OrderedVectors | src/interview_analytics_agent/rag/embeddings.py:174-204 | an honest response gives the vectors in the order of the texts, whichever convention it uses |
| EmbeddingRows.HonestOrder | src/interview_analytics_agent/rag/embeddings.py:184-204 | the order of an honest response is the order of the texts |
| EmbeddingCache.SameKeySameRequest | apps/api_gateway/routers/artifacts.py:1796-1807 | equal cache keys mean equal requests exactly when, for Gemini, the endpoints agree |
| EmbeddingCache.SameRequestIff | apps/api_gateway/routers/artifacts.py:1939-1976 | two requests are the same exactly when text and provider are, and with them the hashing parameters or else the model and, but for slashes at the end, the endpoint |
| EmbeddingCache.SameKeyIff | apps/api_gateway/routers/artifacts.py:1796-1807 | two keys are the same exactly when text, provider, model and hashing parameters are and, for OpenAI, the endpoint |
| EmbeddingCache.TrimSlashIs | apps/api_gateway/routers/artifacts.py:1798 | what is trimmed is all slashes at the end and nothing else |
| EmbeddingCache.GeminiKeysCollide | apps/api_gateway/routers/artifacts.py:1796-1807 | two Gemini endpoints share a key although they are asked differently |
| EmbeddingCache.KeyRequestIsRequest | apps/api_gateway/routers/artifacts.py:1796-1807 | with one Gemini endpoint in use the request can be read off the key |
| EmbeddingCache.MissingIsExact | apps/api_gateway/routers/artifacts.py:1899-1920 | the keys to fetch are those not cached, each once |
| EmbeddingCache.MissingTwice | apps/api_gateway/routers/artifacts.py:1914-1937 | leaving out what memory has and then what the disk has is leaving out both |
| EmbeddingCache.FetchedIff | apps/api_gateway/routers/artifacts.py:1899-1937 | a key is fetched, once, exactly when it is one of the call and neither cache has it, and taken from disk exactly when memory has not and the disk is on and has it |
| EmbeddingCache.RequestsAre | apps/api_gateway/routers/artifacts.py:1941-1951 | the batches hold all the texts, none is empty or too large, only the last may be smaller |
| EmbeddingCache.CallLeavesAnswers | apps/api_gateway/routers/artifacts.py:1924-1996 | after an undisturbed call each cache has kept the vectors it had; new in memory is what the disk had, else the embedding; new on disk are exactly the embeddings of the fetched keys that can be written, if the provider has answered |
| EmbeddingCache.Cache.Lookup | apps/api_gateway/routers/artifacts.py:1903-1911 | the memory cache answers what it has, and the rest is listed once in order of first use |
| EmbeddingCache.Cache.ReadDisk | apps/api_gateway/routers/artifacts.py:1914-1922 | splits the rest into what the disk has and what it has not |
| EmbeddingCache.Cache.Remember | apps/api_gateway/routers/artifacts.py:1984-1992 | the whole new memory cache: what was there before or is stored now and no other key; if that is more than the limit the keys that came in first go, no more of them than the limit asks for, and whatever came in later than a key that is left is left; values are the new ones for the keys stored, the old ones for the others; limit 0 changes nothing |
| EmbeddingCache.Cache.PutAll | apps/api_gateway/routers/artifacts.py:1986-1987 | storing keeps the place of keys already there |
| EmbeddingCache.Cache.Evict | apps/api_gateway/routers/artifacts.py:1988-1992 | first in, first out down to the limit: no more is evicted than that, and what came in later than a key that is left is left |
| EmbeddingCache.Fetch | apps/api_gateway/routers/artifacts.py:1939-1976 | the provider is asked in batches of at most the batch size, each key once, and the vectors come back in order; it fails exactly when a batch is not answered; hashing asks nobody |
| EmbeddingCache.Cache.TakeFromDisk | apps/api_gateway/routers/artifacts.py:1914-1937 | disk hits are answered and remembered in memory, whatever other calls do between the reading and the lock |
| EmbeddingCache.Cache.FindCached | apps/api_gateway/routers/artifacts.py:1897-1937 | the first two regions: what is cached is answered, what is left to fetch is what neither cache had, and what the caches are then |
| EmbeddingCache.Cache.WriteMany | apps/api_gateway/routers/artifacts.py:1996 | the answers are written to disk after the lock is released, except those whose files cannot be written |
| EmbeddingCache.Cache.TakeAnswers | apps/api_gateway/routers/artifacts.py:1978-1998 | the provider's answers go to memory and fill the gaps that are left; other calls may act before they go to disk |
| EmbeddingCache.Cache.EmbedTexts | apps/api_gateway/routers/artifacts.py:1890-1998 | from every cache state, and with other calls changing the caches in four places in between: for each text in order what is cached under its key, else its embedding; each distinct missing key is sent once; nothing exactly when a batch is not answered; and the whole contents of both caches afterwards, also when the provider fails; undisturbed, what is sent are exactly the keys of the call in neither cache, what it leaves are the vectors that were there and those answers, it evicts the oldest and no more than it must, an answered call leaves all it fetched in memory if that fits into the limit, and with the disk off the same call again has nothing to fetch exactly when all its keys fit with everything younger |
| EmbeddingCache.CallEvictsOldest | apps/api_gateway/routers/artifacts.py:1924-1933 | of what was in memory and what an undisturbed call brings in, in this order, the last `limit` keys are left, each key that is left with all that came in after it |
| EmbeddingCache.NewestEvictsOldest | apps/api_gateway/routers/artifacts.py:1988-1992 | keeping the newest is what evicting the oldest means |
| EmbeddingCache.FittingStays | apps/api_gateway/routers/artifacts.py:1984-1992 | what comes in stays if it fits into the limit; nothing goes while all fits |
| EmbeddingCache.AgainNothingIff | apps/api_gateway/routers/artifacts.py:1899-1992 | exactly when the same call, made again with the disk off, has nothing to fetch: what it fetched first fits into the limit and so does, with everything younger, each key of it that was there before |
| EmbeddingCache.AskTwice | apps/api_gateway/routers/artifacts.py:1890-1998 | the two calls in a row: the second asks the provider for nothing exactly in that case |
| EmbeddingCache.OldHitIsEvicted | apps/api_gateway/routers/artifacts.py:1984-1992 | that all keys of the call fit into the limit is not enough: an old key of it can make way for its new one |
| EmbeddingCache.CallIsTransparent | apps/api_gateway/routers/artifacts.py:1890-1998 | the caches cannot be noticed: after any calls of any providers and endpoints, an OpenAI or hashing call gets the embeddings of its texts; a Gemini call does while no other Gemini endpoint is in use |
| EmbeddingCache.PlainIff | apps/api_gateway/routers/artifacts.py:1796-1807 | with the endpoint behind each cached vector tracked: a text gets its own embedding when its provider is not Gemini, or its key was in neither cache, or it was stored when the endpoint now asked was asked; and if embeddings differ, only then |
| EmbeddingCache.CallIsTraced | apps/api_gateway/routers/artifacts.py:1890-1998 | every call keeps track of these endpoints: a key that it stores comes from where its answer came from, the others from where they came before |
| EmbeddingCache.CallStaysGrounded | apps/api_gateway/routers/artifacts.py:1890-1998 | every call leaves the caches right for all other providers, and for Gemini up to the endpoints in use |
| EmbeddingCache.PutIs | apps/api_gateway/routers/artifacts.py:1984-1992 | the memory cache is fixed by its order and by what was put into it |
| EmbeddingCache.AskBatch | apps/api_gateway/routers/artifacts.py:1943-1971 | one batch gets the embedding of each of its texts |
| RagIndex.IndexesAgree | apps/api_gateway/routers/artifacts.py:2006-2028 | a stored index and a fresh one for the same transcript, chunking and a compatible configuration have the same chunks and embeddings |
| TranscriptLines.LinesAreLines | apps/api_gateway/routers/artifacts.py:2153-2154 | each line of a transcript is non-empty, trimmed and free of line breaks |
| TranscriptLines.LinesHoldTheText | apps/api_gateway/routers/artifacts.py:2153-2154 | the lines hold the characters of the transcript that are not spaces, in order, and no others |
| TranscriptLines.OneLineIffNoBreak | apps/api_gateway/routers/artifacts.py:2153-2154 | two of these characters stand on one line exactly when no line break lies between them |
| TranscriptLines.LinesOfJoin | apps/api_gateway/routers/artifacts.py:2153-2154 | trimmed, unbroken, non-empty lines that were joined by line breaks are found again |
| TranscriptLines.NoLinesIffBlank | apps/api_gateway/routers/artifacts.py:2153-2154 | there is no line exactly when the transcript is blank |
| TranscriptLines.PiecesGiveBack | src/interview_analytics_agent/processing/enhancer.py:183 | the pieces with the separators back in their places are the text |
| RagIndex.NoChunksIffBlank | apps/api_gateway/routers/artifacts.py:2307-2309 | a transcript has no chunk exactly when it is blank |
| RagIndex.CompatibleIff | apps/api_gateway/routers/artifacts.py:2006-2028 | a stored configuration is compatible exactly when both embed or neither does, and if they do, every text is asked for in the same way, and for hashing the name of the model agrees |
| RagIndex.CompatibleRequests | apps/api_gateway/routers/artifacts.py:2006-2028 | compatible configurations ask the same requests |
| RagIndex.IndexStore.Ensure | apps/api_gateway/routers/artifacts.py:2275-2366 | for every stored index and cache state: reused exactly when allowed; otherwise built from the chunks of the transcript, without vectors, as asked, with the hashing fallback when OpenAI does not answer for something uncached, or not at all when Gemini does not; the whole new index, store and caches in each of these cases; and store and caches stay right, for Gemini up to the endpoints in use; it has no chunk exactly when the transcript is blank |
| RagIndex.EnsureAll | apps/api_gateway/routers/artifacts.py:3575-3601 | any list of calls for any meetings, transcripts, settings, endpoints and provider failures: each index of the provider asked for has the chunks and embeddings of a fresh one, for Gemini if only its endpoint was asked up to then; otherwise each of its vectors is what one of the Gemini endpoints asked so far answers |
| RagIndex.MadeGrounded | apps/api_gateway/routers/artifacts.py:2318-2366 | whatever becomes of a build, what it makes and what it leaves in the caches is right |
| RagIndex.VectorIsPlainIff | apps/api_gateway/routers/artifacts.py:2318-2326 | a new vector is the embedding of its chunk exactly when its provider is not Gemini, or its key was in neither cache, or it was stored under the endpoint now asked |
| RagIndex.IndexStore.EmbedChunks | apps/api_gateway/routers/artifacts.py:2318-2326 | the vectors of the chunks through the caches, exactly when there are none, and the caches afterwards |
| RagIndex.ReusedAgrees | apps/api_gateway/routers/artifacts.py:2294-2301 | what is reused has the chunks of the transcript and the embeddings the configuration asks for |
| RagIndex.EndpointChangeIsMissed | apps/api_gateway/routers/artifacts.py:1796-1807 | for every transcript and any two Gemini endpoints: after the change the index is built anew and marked with the new endpoint, but carries the embeddings of the old one |
| RagIndex.FallbackNotReused | apps/api_gateway/routers/artifacts.py:2006-2028 | an index stored after the hashing fallback is never compatible with a remote configuration |
| RagIndex.SpeakersCanBeStale | apps/api_gateway/routers/artifacts.py:2294-2304 | speakers are outside the key: a reused index can carry old ones |
| LineChunking.ChunkLineItems | apps/api_gateway/routers/artifacts.py:2177-2248 | there is a chunk for every multiple of the step below the number of lines, each the longest run from there within both limits, and its text |
| LineChunking.CollectLines | apps/api_gateway/routers/artifacts.py:2195-2208 | the inner loop takes the longest run of lines within max_lines and max_chars, at least one line |
| LineChunking.StartIsMultiple | apps/api_gateway/routers/artifacts.py:2190-2247 | chunk k starts at line k * step |
| LineChunking.OverlapShared | apps/api_gateway/routers/artifacts.py:2186-2247 | the start of a chunk lies the overlap before the end of a full chunk before it |
| LineChunking.WideOverlap | apps/api_gateway/routers/artifacts.py:2186-2247 | an overlap of all lines or more moves on by one line |
| LineChunking.ChunkSize | apps/api_gateway/routers/artifacts.py:2198-2212 | at most max_lines lines and max_chars characters unless it is one line |
| LineChunking.EveryLineCovered | apps/api_gateway/routers/artifacts.py:2190-2247 | every line is in some chunk exactly when each step-aligned block fits |
| LineChunking.BlockFitsIffShort | apps/api_gateway/routers/artifacts.py:168-170 | within the request bounds a block fits exactly when it is one line or joins within max_chars |
| LineChunking.ReachesBlockEnd | apps/api_gateway/routers/artifacts.py:2198-2208 | a chunk reaches the next start exactly when the lines between fit |
| LineChunking.GapIsUncovered | apps/api_gateway/routers/artifacts.py:2247 | a line skipped by a chunk before the next start is in no chunk |
| LineChunking.LayoutIsUnique | apps/api_gateway/routers/artifacts.py:2177-2248 | the chunks are fixed by lines and chunking |
| LineChunking.LineCanBeLost | apps/api_gateway/routers/artifacts.py:2247 | two lines of 60 characters with a limit of 100: the second is in no chunk |
| QuickRecordJobs.AtMostOneUnfinished | src/interview_analytics_agent/quick_record.py:776-849 | in every interleaving at most one job is unfinished, and it is the active one |
| QuickRecordJobs.FinishedForever | src/interview_analytics_agent/quick_record.py:776-798 | a completed or failed job keeps its status |
| QuickRecordJobs.StatusTellsOutcome | src/interview_analytics_agent/quick_record.py:782-794 | in every run a job is completed exactly when its recording ended without an error and failed exactly when it ended with one; it is queued only before and running only after its worker began |
| QuickRecordJobs.LateReleaseKeepsNewer | src/interview_analytics_agent/quick_record.py:795-798 | the late clean-up of an older job leaves a newer active job active |
| QuickRecordJobs.RefusedIffUnfinished | src/interview_analytics_agent/quick_record.py:800-806 | a start is refused exactly while a job is unfinished |
| QuickRecordJobs.EarlyStopIsOverwritten | src/interview_analytics_agent/quick_record.py:776-780 | a stop before the worker begins is overwritten by "running" in the status |
| QuickRecordJobs.StopShows | src/interview_analytics_agent/quick_record.py:837-849 | a job shown as stopping is the active one and its event is set |
| QuickRecordJobs.StopShowsIff | src/interview_analytics_agent/quick_record.py:776-849 | after a stop in any reachable state and any further run before the job ends, the status shows the stop exactly when the worker was recording at the stop, has not begun since, or was stopped again after it began |
| QuickRecordJobs.ShowsLastStarted | src/interview_analytics_agent/quick_record.py:827-835 | asked for no job in particular the manager shows the one started last, nothing exactly when none was started, and a job going on is that one |
| QuickRecordJobs.RunKeepsInv | src/interview_analytics_agent/quick_record.py:776-849 | the invariant over every run |
| QuickRecordJobs.QuickRecordManager.StartJob | src/interview_analytics_agent/quick_record.py:800-825 | the start as a locked step; False where the program raises |
| QuickRecordJobs.QuickRecordManager.StopActive | src/interview_analytics_agent/quick_record.py:837-849 | the stop as a locked step, and the status it returns |
| QuickRecordJobs.QuickRecordManager.GetStatus | src/interview_analytics_agent/quick_record.py:827-835 | the status of the job asked for, of no other; without one, that of the job `ShowsLastStarted` describes |
| QuickRecordJobs.QuickRecordManager.BeginJob | src/interview_analytics_agent/quick_record.py:776-780 | the worker's first locked step |
| QuickRecordJobs.QuickRecordManager.FinishJob | src/interview_analytics_agent/quick_record.py:782-794 | the worker's outcome: completed without an error, failed with one; no other job is touched |
| QuickRecordJobs.QuickRecordManager.ReleaseJob | src/interview_analytics_agent/quick_record.py:795-798 | the worker's clean-up step |
| RagIndexJobs.AtMostOneUnfinished | apps/api_gateway/routers/artifacts.py:3510-3656 | in every interleaving the table is within its limit, at most one job is unfinished, and it is the active one |
| RagIndexJobs.WorkerFindsItsJob | apps/api_gateway/routers/artifacts.py:3567-3615 | a worker before its clean-up always finds its job, so the early returns for a missing job are never taken |
| RagIndexJobs.CompletedHasSuccess | apps/api_gateway/routers/artifacts.py:3600-3606 | a completed job has finished every meeting and at least one without failure |
| RagIndexJobs.RecordTellsOutcome | apps/api_gateway/routers/artifacts.py:3567-3615 | in every run a job's rows are as many as asked for and show one by one whether the builds of its meetings ended without an error; it is completed exactly when it came to its end with some build that did, failed exactly when it was aborted or came to its end without one |
| RagIndexJobs.FinishedForever | apps/api_gateway/routers/artifacts.py:3510-3625 | a finished job keeps its record until it is trimmed, and a trimmed job never comes back |
| RagIndexJobs.StartTrimsOldest | apps/api_gateway/routers/artifacts.py:3510-3523 | only a start trims, only from a full table of finished jobs, and only the oldest |
| RagIndexJobs.TrimKeeps | apps/api_gateway/routers/artifacts.py:3510-3523 | trimming restores the limit and removes neither the active nor an unfinished job nor a younger finished one |
| RagIndexJobs.LateReleaseKeepsNewer | apps/api_gateway/routers/artifacts.py:3616-3625 | the late clean-up of an older job keeps a newer active job active and in the table |
| RagIndexJobs.JoinsIffUnfinished | apps/api_gateway/routers/artifacts.py:3627-3637 | a start joins the build going on exactly while a job is unfinished |
| RagIndexJobs.ShowsLastStarted | apps/api_gateway/routers/artifacts.py:3658-3666 | asked for no job in particular the manager shows the one started last, nothing exactly when none was started, and a job going on is that one |
| RagIndexJobs.StepLatest | apps/api_gateway/routers/artifacts.py:3510-3523 | the latest job is never trimmed |
| RagIndexJobs.StepKeepsInv | apps/api_gateway/routers/artifacts.py:3567-3656 | every locked step keeps the invariant |
| RagIndexJobs.RagIndexJobManager.constructor | apps/api_gateway/routers/artifacts.py:3502-3508 | no jobs, and a limit of at least four |
| RagIndexJobs.RagIndexJobManager.TrimJobs | apps/api_gateway/routers/artifacts.py:3510-3523 | the trimming loop, oldest first until within the limit |
| RagIndexJobs.RagIndexJobManager.CollectRemovable | apps/api_gateway/routers/artifacts.py:3513-3517 | the finished jobs that are not active, in dictionary order |
| RagIndexJobs.RagIndexJobManager.StartJob | apps/api_gateway/routers/artifacts.py:3627-3656 | the start as a locked step: the job joined or the new one |
| RagIndexJobs.RagIndexJobManager.BeginJob | apps/api_gateway/routers/artifacts.py:3567-3573 | the worker's first locked step |
| RagIndexJobs.RagIndexJobManager.BeginRow | apps/api_gateway/routers/artifacts.py:3575-3582 | a meeting is taken up |
| RagIndexJobs.RagIndexJobManager.FinishRow | apps/api_gateway/routers/artifacts.py:3583-3601 | the row taken up is completed without an error, failed with one; no other row and no other job is touched |
| RagIndexJobs.RagIndexJobManager.CompleteJob | apps/api_gateway/routers/artifacts.py:3602-3608 | failed exactly when every meeting failed, completed otherwise |
| RagIndexJobs.RagIndexJobManager.AbortJob | apps/api_gateway/routers/artifacts.py:3609-3615 | an unexpected error fails the job |
| RagIndexJobs.RagIndexJobManager.ReleaseJob | apps/api_gateway/routers/artifacts.py:3616-3620 | the clean-up step with its trimming |
| RagIndexJobs.RagIndexJobManager.GetStatus | apps/api_gateway/routers/artifacts.py:3658-3666 | the record of the job asked for, of no other; without one, that of the job `ShowsLastStarted` describes |
| SegmentRecorder.SegmentStep | src/interview_analytics_agent/quick_record.py:131-138 | defined exactly for 0 <= overlap < length |
| SegmentRecorder.Recorder.Record | src/interview_analytics_agent/quick_record.py:352-391 | for any non-decreasing block times: every captured block is in a file, and in at most ceil(length / step) + 1; each file holds one run of blocks, starts are a step apart, every file is closed once; without failure the starts are the due block times and each file holds exactly the blocks that belong to it; it fails exactly when the file operations that all blocks need are more than can work, and has then got as many blocks done as have theirs |
| SegmentRecorder.Recorder.ProcessBlock | src/interview_analytics_agent/quick_record.py:353-385 | a segment is opened exactly when due and the block goes to every open file, at most ceil(length / step) + 1 of them; at most ceil(length / step) stay open; it fails exactly when the operations this block needs are more than are left; a failure leaves files that the clean-up can close |
| SegmentRecorder.Recorder.WriteBlock | src/interview_analytics_agent/quick_record.py:380-384 | the block is appended to every open file, and those that have reached their length are closed; it fails exactly when there are more open files than writes that can work |
| SegmentRecorder.Recorder.CloseAll | src/interview_analytics_agent/quick_record.py:388-391 | exactly the open files are closed |
| SegmentRecorder.BlockNeeds | src/interview_analytics_agent/quick_record.py:367-384 | what a block needs by the segments it starts and belongs to is what the recorder does: a file opened if one is due and a write to every open file |
| SegmentRecorder.BelongsIff | src/interview_analytics_agent/quick_record.py:380-384 | a block belongs to a segment that has started exactly when its file was still open after the block before |
| SegmentRecorder.StartsAreDue | src/interview_analytics_agent/quick_record.py:367-378 | the first block starts a segment, each further start is the first block at least a step after the one before, and no start due is left out |
| SegmentRecorder.OperationsGrow | src/interview_analytics_agent/quick_record.py:352-391 | more blocks need no fewer operations |
| SegmentRecorder.ExactStep | src/interview_analytics_agent/quick_record.py:367-384 | one block keeps starts and contents exact |
| SegmentRecorder.StartsNext | src/interview_analytics_agent/quick_record.py:367-378 | the start times stay those that are due |
| SegmentRecorder.FewYoungFiles | src/interview_analytics_agent/quick_record.py:380-384 | at most ceil(length / step) files can be younger than a segment length |
| SegmentRecorder.WritingHolders | src/interview_analytics_agent/quick_record.py:380-384 | writing puts the block into the open files alone and leaves older blocks where they are |
| SegmentRecorder.FinishBlock | src/interview_analytics_agent/quick_record.py:380-384 | after the writes every block so far is in a file, and the open files are those not yet at their length |
| SegmentRecorder.BreakBlock | src/interview_analytics_agent/quick_record.py:386-391 | after a failed write what was captured before is still there |
| LinePacking.GreedyIsOptimal | src/interview_analytics_agent/processing/enhancer.py:182-201 | no contiguous packing within the limit has fewer pieces |
| LinePacking.NoFewerPieces | src/interview_analytics_agent/processing/enhancer.py:190-198 | the same for packings of the lines with any rest in front, by induction |
| LinePacking.FirstPieceIsLongest | src/interview_analytics_agent/processing/enhancer.py:190-198 | the greedy piece reaches at least as far as any other |
| LinePacking.PackLines | src/interview_analytics_agent/processing/enhancer.py:190-200 | the loop produces the greedy packing: the lines in order, each piece within the limit or one line |
| LinePacking.SplitTextForLlm | src/interview_analytics_agent/processing/enhancer.py:182-201 | the chunks are the joined pieces of the non-blank lines, for the limit max(600, max_chars) |
| LinePacking.CleanChunks | src/interview_analytics_agent/processing/enhancer.py:265-277 | each chunk is replaced by a non-empty answer or kept, and both counts are exact |
| LinePacking.AnswerReplaces | src/interview_analytics_agent/processing/enhancer.py:268-277 | a missing or blank answer changes nothing; any other takes the place of the chunk, without the spaces at its ends |
| LinePacking.CleanedEach | src/interview_analytics_agent/processing/enhancer.py:265-277 | each chunk is treated by itself, in its place |
| LinePacking.AnsweredCounts | src/interview_analytics_agent/processing/enhancer.py:265-277 | the answers are counted |
| Text.NonBlankKeeps | src/interview_analytics_agent/processing/enhancer.py:183 | the non-blank lines are kept as they are, in their order, and a line is left out exactly when it is blank |
| LinePacking.CleanText | src/interview_analytics_agent/processing/enhancer.py:254-277 | the cleaned pieces of the packed text |
| LinePacking.CleanupTranscript | src/interview_analytics_agent/processing/enhancer.py:230-283 | when the transcript is returned as it is, and how the cleaned one is put together |
| LinePacking.AllFailedKeepsLines | src/interview_analytics_agent/processing/enhancer.py:265-283 | if every call fails, the result has exactly the non-blank lines |
| LinePacking.FailedPieces | src/interview_analytics_agent/processing/enhancer.py:265-279 | without answers the pieces join to the non-blank lines |
| TailRecovery.ExtractMissingTail | src/interview_analytics_agent/services/local_pipeline.py:107-140 | the method with its search loop computes the specified tail of the two word lists |
| TailRecovery.FindOverlap | src/interview_analytics_agent/services/local_pipeline.py:120-125 | the loop finds the largest overlap of 3 to 120 words |
| TailRecovery.BackupTakenWhole | src/interview_analytics_agent/services/local_pipeline.py:107-140 | the backup is taken whole exactly when there is no text yet, or when the text has at most seven words, the backup at least five more, the text stands nowhere in it, no 3 to 120 words overlap, and less than 0.45 of the smaller vocabulary is shared |
| TailRecovery.TailFollowsMatch | src/interview_analytics_agent/services/local_pipeline.py:114-118 | a text that stands in the backup: the result is what follows it there less the spaces in front, at the beginning of the backup if it stands there and at the last place where it stands otherwise |
| TailRecovery.SimilarIff | src/interview_analytics_agent/services/local_pipeline.py:129-135 | the guard against duplicates is a share of at least 0.45 |
| TailRecovery.TailIsSuffix | src/interview_analytics_agent/services/local_pipeline.py:107-140 | the result is always a suffix of the normalised backup |
| TailRecovery.OverlapCompletes | src/interview_analytics_agent/services/local_pipeline.py:120-125 | in the overlap branch the words followed by the result end with exactly the backup |
| TailRecovery.RerunAddsNothing | src/interview_analytics_agent/services/local_pipeline.py:107-140 | when re-running after appending the result gives nothing, for every first run: nothing was there before, or the text matched up to the end of a word, or it matched into a word and the backup is now dismissed, or it did not match and the backup has at most 120 words or no overlap with itself |
| TailRecovery.RerunAfterCharMatch | src/interview_analytics_agent/services/local_pipeline.py:114-118 | the re-run after a whole-text match |
| TailRecovery.RerunAtBackup | src/interview_analytics_agent/services/local_pipeline.py:107-140 | the re-run on a text that ends with the backup |
| TailRecovery.HalfWordNeverFits | src/interview_analytics_agent/services/local_pipeline.py:116-118 | for every match that ends inside a word: text and result together end the backup, but what is stored, with a space between, does not |
| TailRecovery.RerunInsideWordIff | src/interview_analytics_agent/services/local_pipeline.py:107-140 | after such a match the re-run gives nothing exactly when the stored text neither matches nor overlaps any more and passes the guards against duplicates or length |
| TailRecovery.MatchInsideWord | src/interview_analytics_agent/services/local_pipeline.py:116-118 | an instance: a text matched inside a word of the backup, leaving half a word |
| TailRecovery.RerunInsideWord | src/interview_analytics_agent/services/local_pipeline.py:116-118 | after such a match the re-run appends the whole backup again |
| TailRecovery.RerunAfterLongBackup | src/interview_analytics_agent/services/local_pipeline.py:122 | 121 equal words: the re-run is not empty |
| TailRecovery.NextNumber | src/interview_analytics_agent/services/local_pipeline.py:571 | one more than every number, 0 for none |
| TailRecovery.Recover | src/interview_analytics_agent/services/local_pipeline.py:563-588 | adds one segment with the tail and a new number, or nothing |
| TailRecovery.RecoverTwice | src/interview_analytics_agent/services/local_pipeline.py:563-588 | when a second recovery from the same backup adds nothing |
| TailRecovery.ExistingWords | src/interview_analytics_agent/services/local_pipeline.py:566 | the words of the stored text with one more segment |
| Text.WordsOfJoin | src/interview_analytics_agent/services/local_pipeline.py:42-43 | splitting what was joined with blanks gives the words back |
| Text.WordsAppend | src/interview_analytics_agent/services/local_pipeline.py:42-43 | words of two texts joined by a blank are the words of both |
| Text.JoinGroups | src/interview_analytics_agent/processing/enhancer.py:193-200 | joining the joined pieces is joining all lines |
| Idempotency.Store.CheckAndSet | src/interview_analytics_agent/queue/idempotency.py:32-44 | under a non-decreasing clock True exactly when no earlier accepted call for the key is unexpired, whatever was pruned |
| Idempotency.Store.Prune | src/interview_analytics_agent/queue/idempotency.py:39-43 | exactly the expired keys go |
| Idempotency.StoreRefines | src/interview_analytics_agent/queue/idempotency.py:38 | storing keeps the dictionary equal to the history for every later question |
| Idempotency.AcceptsApart | src/interview_analytics_agent/queue/idempotency.py:32-44 | of all calls a store has accepted, two for a key are at least the first one's ttl apart |
| Idempotency.ExtendsNoOverlap | src/interview_analytics_agent/queue/idempotency.py:35-38 | accepting keeps acceptances of a key from overlapping |
| Idempotency.Deduplicator.CheckAndSet | src/interview_analytics_agent/queue/idempotency.py:47-65 | exact for the store that is asked; a live key is accepted again exactly when only the other store knows it |
| Idempotency.DoubleAcceptWhenRedisFails | src/interview_analytics_agent/queue/idempotency.py:60-65 | a key is accepted twice when Redis goes away in between |
| Ingest.CountersAreExact | apps/api_gateway/ws.py:371-462 | in every run accepted_chunks is the number of non-duplicate acks of the connection, last_acked_seq their maximum (-1 if none), and every reply reported so when it was given |
| Ingest.CountersNeverFall | apps/api_gateway/ws.py:418-419 | both counters never fall and no reply is taken back |
| Ingest.LargestIsMaximum | apps/api_gateway/ws.py:419 | the recursive maximum is the maximum |
| Ingest.CountIsCount | apps/api_gateway/ws.py:418 | the accepted chunks are counted |
| Ingest.LoopAnswers | apps/api_gateway/ws.py:213-462 | the receive loop gives every arrival exactly one reply, in order, of the kind its event asks for, and about the meeting it names or else the last one named |
| Ingest.StoredIffAccepted | src/interview_analytics_agent/services/chunk_ingest_service.py:51-79 | in every run a chunk is stored exactly when some connection was given an ack of it that is not a duplicate |
| Ingest.CalmAcksAreStored | src/interview_analytics_agent/services/chunk_ingest_service.py:54-79 | duplicate acks are stored too, with their own bytes, when ingest is sequential, no put fails, and a key stands for one chunk |
| Ingest.RetryAfterFailure | src/interview_analytics_agent/services/chunk_ingest_service.py:54-79 | from every state: after a failed put the retry is acked as a duplicate without being stored exactly while the claim is alive |
| Ingest.FailedPutIsAcked | apps/api_gateway/ws.py:386-417 | a run from the empty store in which a lost chunk is acked |
| Ingest.ClaimedBeforeStored | src/interview_analytics_agent/services/chunk_ingest_service.py:54-79 | a run without failures in which a second connection is acked before the chunk is stored |
| Ingest.DuplicateOverstates | apps/api_gateway/ws.py:400-417 | a duplicate ack reports more than the next ping exactly when its number is above the stored one |
| Ingest.SharedClaimIff | src/interview_analytics_agent/queue/idempotency.py:56 | two requests share a claim key exactly when they agree or one meeting id continues the other after a colon |
| Ingest.Storage.IngestChunk | src/interview_analytics_agent/services/chunk_ingest_service.py:51-79 | claim, then store: what each outcome leaves behind |
| Ingest.Connection.Reply | apps/api_gateway/ws.py:218-345 | each event without a chunk: its reply, and the meeting it sets |
| Ingest.Connection.Offer | apps/api_gateway/ws.py:371-462 | a chunk: ingest, counters and reply for all three outcomes |
| Ingest.Connection.Take | apps/api_gateway/ws.py:214-462 | one turn of the receive loop |
| Ingest.Connection.Serve | apps/api_gateway/ws.py:213-462 | the receive loop takes the events in order until a reply cannot be sent |
| Ingest.TurnsAreRun | apps/api_gateway/ws.py:213-462 | the receive loop is a run of the machine |
| SpeakerInference.InferSpeakers | src/interview_analytics_agent/processing/speaker_rules.py:46-95 | the loop gives each segment the decision specified over the history |
| SpeakerInference.PendingIsOpenCall | src/interview_analytics_agent/processing/speaker_rules.py:60-84 | the pending call of the loop is, by the cues of the transcript alone, the last call that was neither replaced nor settled and that no plain segment in time has followed; and there is one exactly when there is the other |
| SpeakerInference.AnswerIff | src/interview_analytics_agent/processing/speaker_rules.py:46-95 | for every transcript: a segment without cues is given to a name exactly when the last call before it that was neither replaced nor settled is a call on that name, the segment is within max(1, window) of it, and no earlier such segment within the window lies between |
| SpeakerInference.OtherSpeakerWasCalled | src/interview_analytics_agent/processing/speaker_rules.py:70-84 | a speaker who is neither host nor proxy was called by a strictly earlier segment, still open, in the window |
| SpeakerInference.AnsweredOnce | src/interview_analytics_agent/processing/speaker_rules.py:81-84 | no call is answered twice: between any two segments that answer somebody is called anew |
| SpeakerInference.AnswerSpends | src/interview_analytics_agent/processing/speaker_rules.py:81-84 | a segment that answers a call leaves nothing of it to the segments after, before anything settles or replaces it |
| SpeakerInference.ProxyWasCalled | src/interview_analytics_agent/processing/speaker_rules.py:71-75 | a proxy label names the person of an open call or of a call in the same segment |
| SpeakerInference.HostIsLastIntroduced | src/interview_analytics_agent/processing/speaker_rules.py:53-58 | the host is the last person introduced |
| SpeakerInference.CallSettled | src/interview_analytics_agent/processing/speaker_rules.py:70-80 | a segment that answers for somebody, reports an absence or moves on while a call is in force: a proxy is labelled as one for the person called, otherwise the host speaks; the person is noted exactly for a proxy or an absence |
| SpeakerInference.HostSpeaks | src/interview_analytics_agent/processing/speaker_rules.py:46-69 | every other segment that introduces, hosts or calls is spoken by the host, and without a cue nobody is named unless a call is answered; who is called is noted exactly when a host calls somebody else |

## Left out

- HTTP and WebSocket transport, authorisation, tenancy (with the check that closes a connection), audit and tracing.
- Redis, the database, the file system, ffmpeg, Whisper and all model calls: they are maps, streams and functions that may fail.
- Handlers of the five stages: what they write to the database is not modelled, only that they finish or raise; a payload that does not parse behaves as a crash with the entry pending.
- Idle times and clocks of the queue: any pending entry may be claimed at any time in the machine; the broker is told which entries are idle too long. Stream trimming is not modelled.
- Ingest with transcription (`skip_transcription` false): the enqueue or inline processing after the put is not part of this model.
- Blobs are named by meeting and sequence number; that two meeting ids can name the same directory is not modelled.
- Rounding of floats, the clamp of the metrics after rounding, and the relevance grades, which are given.
- The numbers of BM25 and the fusion of rankings in `_rag_rank_hits`.
- Speakers, timestamps and meeting metadata of chunks, except that they are outside the index key.
- RagIndex.IndexStore.Ensure: the build of one index is one step; other builds and other uses of the caches come before or after it (a single call of the caches is interleaved in `EmbedTexts`).
- EmbeddingCache.Cache.EmbedTexts: the disk files of one call are read at once and written at once; other calls come before or after.
- TaskWorkers.Broker.ClaimStale: Redis looks at a bounded number of pending entries in one XAUTOCLAIM call with COUNT 1; the model looks at all of them.
- That a run is clean or its claims guarded is a condition on workers and idle times; the program does not enforce it. `TaskEnds` and `TaskRecovery.EveryRunCanFinish` do without it.
- Normalisation of the provider's vectors; they are compared as they come.
- `_maybe_cleanup_clean_transcript_with_cache`: its signature does not determine the text, so its cache does not agree with the text.
- SegmentRecorder.Recorder.Record: opening and writing may fail, closing a file is taken to work; merging and converting segments are left out.
- RagIndexJobs.RagIndexJobManager.GetStatus: the counts and the progress of a snapshot are left out.
- Progress fields, texts and timestamps of quick-record jobs.
- Text normalisation for the word error rate and its aggregation over cases: token lists are given.
- TailRecovery.Recover: the transcription of the backup and the store of segments are given; segments other than the new one are unchanged.
- Regex clean-up of texts, masking, tables, reports, the alert relay and the meeting state machine: flat code with easy properties.
