# Verification of the coordination layer and the extraction algorithms

This Dafny project models two parts of the repository and proves properties of them.

* **The Redis coordination layer (`core/`, and the after-sale action that uses it).** Redis is
  explicit state with an integer clock. Every Redis command, Lua script or database
  statement is one atomic step; a client is a program counter over such steps. For the
  protocols that several clients share, `Step` and `Exec` define all runs on values, and
  invariants are proved over them for any number of clients and any interleaving. The classes
  beside them are the source's loops; each method is proved to be a run of its protocol (its
  `trace`, or what it does itself, `own`) with the result the source promises, while everybody else acts in between.
* **The span and chunk algorithms of the bundled UIE library
  (`graph/external_lib/uie_pytorch`).** The loops work on the same mutable fields, arrays and
  dictionaries as the source and are proved against independent reference definitions.

`dafny verify dfyconfig.toml` checks everything.

| file | module | what it models |
|---|---|---|
| redis_reply.dfy, redis_lock.dfy | RedisReply, RedisLock | how a command ends; SET NX, the release and the renew script on one key |
| python_slices.dfy | PythonSlices | Python's slice bounds |
| redlock.dfy, redlock_reuse.dfy, redlock_client.dfy | RedlockMachine, RedlockReuse, Redlock | Redlock over n servers; exactly when it excludes; its retry, counting and release loops |
| postsale_machine.dfy, postsale_client.dfy | PostsaleMachine, PostsaleClient | single-node lock plus check-then-insert; one submission |
| schema_building.dfy, schema_extraction.dfy, schema_traversal.dfy, schema_predictor.dfy | SchemaBuilding, SchemaExtraction, SchemaTraversal, SchemaPredictor | multi-stage extraction: the schema tree, the depth-first reference, the invariant of the breadth-first traversal, the traversal on shared objects |
| reader_chunks.dfy | ReaderChunks | the training-data splitter |
| span_matching.dfy | SpanMatching | two-pointer matching of starts and ends |
| text_splitting.dfy, token_hits.dfy, single_stage.dfy | TextSplitting, TokenHits, SingleStage | splitter, result conversion, joiner; token spans to offsets; the stage from texts to results |
| sliding_window.dfy, token_bucket.dfy | SlidingWindow, TokenBucket | the two limiter scripts |
| snowflake.dfy | Snowflake | id packing and the generator |
| saga.dfy | Saga | saga execution and compensation |
| outbox.dfy, local_messages.dfy | Outbox, LocalMessages | the outbox and the local message table, any number of processors on the same lists |
| delay_queue.dfy | DelayQueue | the delay queue with retries |
| cache_fill.dfy | CacheFill | the guarded cache read |
| stock.dfy, bloom.dfy | Stock, Bloom | stock scripts and the Bloom filter |

## Assumptions

* Time is one monotone clock per protocol. Servers keep their data. A command is carried out
  when it is sent or not at all, and its answer may be lost either way; a Redlock call that its
  client has given up may also be carried out later.
* Redlock: `redis` is not imported where the clients are built
  (core/distributed_lock.py:377), so the class cannot be constructed as written; the algorithm
  is modelled as if it could. The hosts are distinct servers. Only an idle instance acquires:
  an instance that already holds the lock would release its own keys.
* After-sale: "on time" means that the commit falls inside the submission's live lease.
* Reader: the loop ends. For sorted disjoint spans that is so exactly when each fits the limit,
  for labels in the prompt always; both are proved.
* Extraction: the tokenizer's offsets lie inside prompt and text.
* Sliding window: a positive window, non-decreasing calls, and time in ticks that the member
  string tells apart. Token bucket: positive rate, non-negative requests; the clock may go
  back except where the bound needs it not to. Rate and time are exact reals; the script
  computes with doubles.
* Snowflake: a sleep lasts at least as long as asked for, and the clock passes every
  millisecond it has shown. Different generators have different worker ids.
* Saga: a coordinator is used for one run (its list of executed steps is never cleared).
  Whether a failing step leaves the world alone and whether compensations undo their steps
  are hypotheses on the steps.
* Delay queue: an execution is one step under the task's lock.
* Local messages: creating one is one step, as nobody else knows its id before the push; a hash
  does not expire while a processor works with what it read of it.
* Owner, message and task ids are unique, as the random parts in them are meant to ensure.
* Cache: the source is stable, and returns None, a string, a dict or a list; `json.dumps` of a
  dict or list starts with a bracket and `json.loads` reads it back.
* Stock keys and purchase counters are different keys; amounts stay within 64 bits.
* Bloom: hash functions are arbitrary; a pipeline is carried out as a whole or not at all.

## Where code and documentation disagree

* The outbox promises at-least-once delivery, but a message is popped before it is sent. It is
  lost by a sender ended by something `except Exception` does not catch, by a pop whose answer
  is lost, and by put-backs that do not arrive; a put-back whose answer is lost doubles it
  (`Outbox.NothingLostIff`, `Outbox.RunKeepsAll`). Local messages are lost in the same ways
  (`LocalMessages.MissingIff`).
* The saga's failure message says that all executed steps were rolled back, also when a
  compensation raised (`Saga.ClaimIsTrueIff`); and an exception with an empty text passes for
  none, so that the record says compensated (`Saga.RecordIsTrueIff`); `Saga.UnluckyRun` is a
  run with both.
* Cached strings that are JSON text, or the null marker, come back as something else
  (`CacheFill.RightIff`).
* Prompt offsets are lowered by the number of prompt tokens and raised by the number of prompt
  characters (`TokenHits.PromptComesBackIff`); with too few tokens a piece of the prompt is
  reported as text, even behind the end of the piece (`TokenHits.PromptStaysOutIff`). A hit of
  a piece is required to end inside it. `r.text == text[r.start:r.end]` on the joined text needs
  that of every piece but the last, where slices are clipped (`TextSplitting.MovedNamesIff`).
* A popped task whose lock is taken, whose type has no handler, or that stands behind an
  execution that raises is dropped (`DelayQueue.NothingDroppedIff`).
* One owner value serves all attempts of a Redlock instance, so a release that arrives late can
  free a key of a later attempt. One attempt per value excludes; two never do, as soon as two
  instances can win at all (`RedlockReuse.ExcludesIff`).
* The after-sale lock keeps duplicates out exactly as long as no critical section outlives the
  last extension of its lease by a TTL (`PostsaleMachine.NoDuplicatesIff`).
* A worker number is given out twice exactly when the shared bitmap expires and the first to ask
  for it afterwards gets an answer (`Snowflake.SharedIff`).
* The lock's watchdog interval is in time only for a TTL of at least 2
  (`PostsaleMachine.IntervalInTimeIff`); the reader never ends on a span longer than the limit
  (`ReaderChunks.EndsIffAllFit`); a worker id above 1023 is not refused
  (`Snowflake.WorkersSeparateIff`).

## Model

| member | source | states |
|---|---|---|
| RedlockMachine.StepKeepsInv | core/distributed_lock.py:396-459 | one atomic step of any client or of the network (a SET NX or compare-and-delete on one server, answered, carried out but reported as failed, or given up and arriving later) keeps: every counted server stores the counter's value until start + TTL |
| RedlockMachine.StepKeepsOther | core/distributed_lock.py:45-51 | no step of another client touches a key that a client counted, because only the owner's value is deleted and SET NX respects live keys |
| RedlockMachine.ExecKeepsInv | core/distributed_lock.py:396-459 | the invariant holds in every reachable state, for any number of clients and any interleaving, as long as no release arrives at a server that its owner has counted since |
| RedlockMachine.MajoritiesMeet | core/distributed_lock.py:365 | two sets of at least n//2+1 of n servers share a server |
| RedlockMachine.MutualExclusion | core/distributed_lock.py:396-459 | main theorem: in every such run two distinct owners are never both within a successful acquire and its start + TTL |
| RedlockMachine.FreshOwnersExclude | core/distributed_lock.py:357-361 | with an owner value of its own for every attempt exclusion holds in every run, however late calls arrive |
| RedlockMachine.FreshOwnersAreTimely | core/distributed_lock.py:449-459 | then no release can arrive at a server that its owner has counted since |
| RedlockReuse.ExcludesIff | core/distributed_lock.py:357-361 | main theorem: on every cluster, from every start, for every bound k on the attempts per owner value: no run ends with two holders if and only if k is at most 1 or no two instances can win (a majority of connections, a positive TTL) |
| RedlockReuse.LateReleaseBreaks | core/distributed_lock.py:444-459 | for any cluster size and any two instances that can win: a run with two attempts of the first, whose given-up releases arrive late, in which both hold the lock |
| RedlockReuse.HoldersCanWin | core/distributed_lock.py:396-426 | in every run, however late calls arrive, only an instance connected to a majority and with a positive TTL ever holds the lock |
| RedlockMachine.PunctualIsTimely | core/distributed_lock.py:396-459 | if no given-up call ever arrives, exclusion needs no further condition |
| RedlockMachine.SuccessIsExclusive | core/distributed_lock.py:420-426 | an acquire that succeeds still has lease left, and nobody else holds the lock at that moment |
| RedlockMachine.SetsCount | core/distributed_lock.py:405-416 | the counting loop ends with exactly the number of servers that answered with a free key |
| RedlockMachine.AttemptSucceedsIff | core/distributed_lock.py:365-426 | undisturbed, an attempt succeeds if and only if more than half of all hosts answer with a free key and less than the TTL has passed |
| RedlockMachine.SetTakesFreeKey | core/distributed_lock.py:407-410 | a SET NX that is carried out takes a free key for exactly the TTL and leaves a live one |
| RedlockMachine.ReleaseFreesOwnKey | core/distributed_lock.py:45-51 | a release that is carried out frees exactly the caller's own live key |
| RedlockMachine.ReleaseClears | core/distributed_lock.py:449-459 | after a release sweep whose calls reach the servers, none of them serves the releaser's value, whatever others did meanwhile |
| RedlockMachine.SweepFreesAll | core/distributed_lock.py:430-459 | a release, or a failed attempt, whose calls all reach their servers ends with no connected server serving its value |
| RedlockMachine.LostSetArrivesLate | core/distributed_lock.py:405-418 | a SET NX its client has given up does on arrival what it would have done, and nothing before |
| RedlockMachine.LostReleaseArrivesLate | core/distributed_lock.py:449-459 | the same for a release |
| Redlock.Instance.Acquire | core/distributed_lock.py:396-442 | the retry loop is a run of the protocol; a returned value means the lock is held, none means the instance is idle again and made retry_times + 1 attempts (one if not blocking) |
| Redlock.Instance.Attempt | core/distributed_lock.py:400-426 | one attempt ends holding the lock or about to release, and decides exactly once: it succeeds if and only if more than half of the hosts answered its calls with a free key and less than the TTL passed since it began |
| Redlock.Instance.AskServers | core/distributed_lock.py:405-416 | acquired_count equals the protocol's count after every server was asked once |
| Redlock.Instance.TrySetOne | core/distributed_lock.py:407-413 | a call counts exactly when the server answered and set the key |
| Redlock.Instance.ReleaseAll | core/distributed_lock.py:449-459 | one release call to every connected server, in order, whatever the earlier ones returned |
| Redlock.Instance.Release | core/distributed_lock.py:444-447 | releasing a held lock is a run of the protocol that ends idle |
| PostsaleMachine.StepKeepsInv | actions/action_postsale.py:217-286 | a step of any submission, watchdog or staff keeps: at most one open row per order detail, and a submission that found none and is in its lease is still right |
| PostsaleMachine.NoDuplicates | actions/action_postsale.py:200-286 | main theorem: if every commit happens inside its own live lease, no run leaves two open after-sale rows for one order detail |
| PostsaleMachine.NoDuplicatesIff | actions/action_postsale.py:200-286 | the exact condition, from every start: no run in which critical sections go on for at most a gap after the last extension leaves two open rows, if and only if the gap is below the TTL or no two submissions are about the same order detail |
| PostsaleMachine.LateCommitDuplicates | actions/action_postsale.py:200-286 | two submissions about one order detail, from any start, and a gap of a TTL: a run that leaves two open rows |
| PostsaleMachine.SubmitAlone | actions/action_postsale.py:200-286 | an undisturbed submission inserts one row exactly when none is open, and frees the lock |
| PostsaleMachine.OneLeasePerDetail | core/distributed_lock.py:116-153 | at most one owner is inside a live lease of a key |
| PostsaleMachine.StaleOwnerHarmless | core/distributed_lock.py:155-185 | release and extend by anyone but the holder leave the holder's key as it is |
| PostsaleMachine.ReleaseFreesOwnLease | core/distributed_lock.py:155-174 | a release that reaches the server ends the caller's lease, and frees the key if it was live |
| PostsaleMachine.LeaseRunsOut | core/distributed_lock.py:45-60 | between renewals a lease lives exactly until its time is up, whatever others do, and stays gone afterwards |
| PostsaleMachine.WatchKeepsLeaseIff | core/distributed_lock.py:211-221 | any number of watchdog rounds, others acting all the time, renewals failing or not, the watchdog stopping at the first that does: the lease is live at the end if and only if something is left of it |
| PostsaleMachine.RenewalsKeepLease | core/distributed_lock.py:211-221 | answered renewals less than a TTL apart keep the lease for any number of rounds |
| PostsaleMachine.OneLostRenewal | core/distributed_lock.py:214-221 | after one lost renewal the lease lives exactly as long as the rounds since fit into the TTL |
| PostsaleMachine.IntervalInTimeIff | core/distributed_lock.py:211-213 | renewing every max(ttl // 3, 1) seconds for any number of rounds, others acting all the time, keeps the lease if and only if the TTL is at least 2 |
| PostsaleMachine.WatchedIsOnTime | core/distributed_lock.py:195-221 | if in every critical section the lease is extended again within a gap below the TTL, every commit is inside its live lease |
| PostsaleMachine.WatchedNoDuplicates | actions/action_postsale.py:200-286 | lock, watchdog and check together: with a TTL of at least 2 and renewals that arrive at the interval, or late by less than the rest of the TTL, no run leaves two open rows for one order detail |
| PostsaleClient.Submission.Acquire | core/distributed_lock.py:116-153 | the retry loop is a run of the protocol; success means being in the lease; it gives up after exactly retry_times + 1 attempts |
| PostsaleClient.Submission.DoCommit | actions/action_postsale.py:217-286 | query, then insert and commit; exactly one row of this submission is added when the commit is carried out, of which the caller is told unless the answer is lost, none otherwise |
| PostsaleClient.Submission.Run | actions/action_postsale.py:200-215 | the guarded action adds a row exactly when its commit is carried out, and sends a release on every path that took the lock |
| SchemaBuilding.BuildTree | graph/external_lib/uie_pytorch/uie_predictor.py:578-602 | the tree has the shape the schema names, on new disjoint nodes; a type error exactly when some element is neither a string nor a dictionary, or some value neither a string nor a list |
| SchemaBuilding.WrittenReadsBack | graph/external_lib/uie_pytorch/uie_predictor.py:578-602 | any list of schema trees, written down as strings and dictionaries of lists, is read back as the same trees |
| SchemaBuilding.SiblingsAdd | graph/external_lib/uie_pytorch/uie_predictor.py:583-601 | the trees of a longer list are those of its parts, in order |
| SchemaBuilding.KeysInOrder | graph/external_lib/uie_pytorch/uie_predictor.py:586-597 | a dictionary with several keys stands for one dictionary a key, in order |
| SchemaBuilding.UnderAKey | graph/external_lib/uie_pytorch/uie_predictor.py:587-597 | a string under a key is a list of that string; a key with a list is a node with the list's trees as children |
| SchemaBuilding.InvalidIff | graph/external_lib/uie_pytorch/uie_predictor.py:586-601 | no trees exactly when something misplaced stands somewhere in the schema |
| SchemaExtraction.HalfWidth | graph/external_lib/uie_pytorch/utils.py:573-585 | full-width ASCII becomes half-width, every other character (the ideographic space too) stays, nothing changes length |
| SchemaTraversal.AlignedIffNameUnused | graph/external_lib/uie_pytorch/uie_predictor.py:266-279 | first stage: parents and prefixes handed to a child have equal length if and only if the name was not in use where the results went |
| SchemaTraversal.AlignedLaterIff | graph/external_lib/uie_pytorch/uie_predictor.py:280-324 | later stages: parents read back from all parent dictionaries and prefixes have equal length if and only if the name was in use in none of them; then they are the same results in the same order |
| SchemaTraversal.IterationKeepsInv | graph/external_lib/uie_pytorch/uie_predictor.py:227-329 | popping one node keeps: entry i of a waiting node's prefix belongs to entry i of its parents, text by text; every result dictionary entry is final or still waited for; no two waiting nodes write the same entry |
| SchemaTraversal.StartInv | graph/external_lib/uie_pytorch/uie_predictor.py:221-226 | the invariant holds before the first iteration |
| SchemaTraversal.FinishedIsReference | graph/external_lib/uie_pytorch/uie_predictor.py:213-330 | with an empty queue, each text's result map is, object for object, what extracting depth first under every single parent gives |
| SchemaExtraction.PromptReads | graph/external_lib/uie_pytorch/uie_predictor.py:240-259 | what a child's question reads: in Chinese the parent's text, the connective and the name; in English the name, " of " and the parent's text, with a classification name's options at the end; all half-width |
| SchemaExtraction.DifferentParents | graph/external_lib/uie_pytorch/uie_predictor.py:240-259 | parents whose half-width texts differ are asked different questions |
| SchemaPredictor.Predictor.BuildExamples | graph/external_lib/uie_pytorch/uie_predictor.py:229-262 | question i about text k is built from prefix i of text k, and the map lists exactly those questions; when the prefixes were made from the parents, it reads as the child's name and the text of parent i |
| SchemaPredictor.Predictor.StoreTop | graph/external_lib/uie_pytorch/uie_predictor.py:268-279 | first-stage results are attached to their own text and handed on from there |
| SchemaPredictor.Predictor.StoreRelations | graph/external_lib/uie_pytorch/uie_predictor.py:280-298 | the results of question i of text k end up under parent i of text k, in place |
| SchemaPredictor.Predictor.CollectRelations | graph/external_lib/uie_pytorch/uie_predictor.py:300-312 | the next parents are the stored results of all parents in order |
| SchemaPredictor.Predictor.BuildPrefix | graph/external_lib/uie_pytorch/uie_predictor.py:314-324 | the next prefixes are the texts of all results in order, each with " of " before or the connective behind it |
| SchemaTraversal.ConcatAt | graph/external_lib/uie_pytorch/uie_predictor.py:300-324 | collecting lists loses nothing and keeps the order: entry j of list i stands behind all lists before it |
| SchemaPredictor.Predictor.Stage | graph/external_lib/uie_pytorch/uie_predictor.py:228-324 | one stage on the shared dictionaries is one iteration of the traversal |
| SchemaPredictor.Predictor.VisitFirst | graph/external_lib/uie_pytorch/uie_predictor.py:227-329 | pop, process, hand down, queue the children: the invariant holds again and only the children's fields and known dictionaries changed |
| SchemaPredictor.Predictor.FrontierStep | graph/external_lib/uie_pytorch/uie_predictor.py:226-329 | the queue holds whole disjoint subtrees; each pop makes the set of nodes still to come strictly smaller |
| SchemaTraversal.AllAnswersStored | graph/external_lib/uie_pytorch/uie_predictor.py:213-330 | with an empty queue every text holds, under each top-level name, all answers to the question that reads as that name; every result holds, under each child's name, all answers to the question that reads as that name and its own text; in order, and nothing else |
| SchemaPredictor.Predictor.MultiStagePredict | graph/external_lib/uie_pytorch/uie_predictor.py:213-330 | main theorem: for every schema tree with distinct sibling names and every predictor, the result is the depth-first reference, and holds all answers to the questions as they read; every node is visited exactly once, level by level, and the loop ends |
| ReaderChunks.Reader | graph/external_lib/uie_pytorch/utils.py:345-422 | an error exactly when max_seq_len is at most the prompt's length plus 3; a line that fits the model input comes back alone; for all labels on which the loop ends the chunks concatenate to the content; for spans and for prompt labels every chunk with its prompt and three summary tokens fits max_seq_len, none is empty and each is as long as it may be; every span is emitted once and whole, moving it back gives the original span, and it selects in its chunk the characters the original selects in the content |
| ReaderChunks.CutIsFull | graph/external_lib/uie_pytorch/utils.py:369-377 | a chunk is as long as the limit, reaches the end, or stops where a label begins that the limit runs through |
| ReaderChunks.PromptLabelsEnd | graph/external_lib/uie_pytorch/utils.py:367-419 | with labels in the prompt the loop always ends |
| ReaderChunks.Split | graph/external_lib/uie_pytorch/utils.py:360-419 | the outer loop keeps: emitted chunks and labels plus what is left are the original ones; it ends because the content shrinks |
| ReaderChunks.IterationKeeps | graph/external_lib/uie_pytorch/utils.py:366-417 | one iteration emits a whole number of spans, keeps the rest in order inside the rest of the content, and makes the content strictly shorter |
| ReaderChunks.EndsIffAllFit | graph/external_lib/uie_pytorch/utils.py:370-377 | on sorted disjoint spans the loop ends if and only if every span fits the limit |
| ReaderChunks.SameCharacters | graph/external_lib/uie_pytorch/utils.py:360-419 | a span selects in its chunk the characters its restored form selects in the whole content |
| ReaderChunks.RestoredHas | graph/external_lib/uie_pytorch/utils.py:404-408 | every emitted span, moved back by what stands before its chunk, is one of the restored spans |
| ReaderChunks.FindCut | graph/external_lib/uie_pytorch/utils.py:370-374 | the cut is the start of the first span the limit runs through, or the limit |
| ReaderChunks.CutFacts | graph/external_lib/uie_pytorch/utils.py:370-374 | the cut runs through no span, and is positive when all spans fit |
| ReaderChunks.PopLabels | graph/external_lib/uie_pytorch/utils.py:379-395 | the inner loop takes the spans up to the cut; a label in the prompt ends it and goes to every chunk |
| ReaderChunks.RebaseLabels | graph/external_lib/uie_pytorch/utils.py:404-408 | offsets are lowered in place up to the first label in the prompt |
| SpanMatching.GetSpan | graph/external_lib/uie_pytorch/utils.py:77-122 | the result is exactly the pairs (s, e) with s <= e, no other start in (s, e] and no other end in [s, e) |
| SpanMatching.SpansDisjoint | graph/external_lib/uie_pytorch/utils.py:77-122 | such pairs are disjoint, and each start and each end is used at most once |
| SpanMatching.SortById | graph/external_lib/uie_pytorch/utils.py:88-93 | sorting by position keeps the elements |
| SpanMatching.PairsAreSpans | graph/external_lib/uie_pytorch/utils.py:95-121 | when one pointer is through, the collected pairs are exactly the spans, in both directions |
| TextSplitting.AutoSplitter | graph/external_lib/uie_pytorch/uie_predictor.py:365-410 | text k is cut into consecutive pieces that concatenate to it, all of the limit's length but the last; the numbers of text k + 1 follow those of text k, from 0 to the number of pieces |
| TextSplitting.Slices | graph/external_lib/uie_pytorch/uie_predictor.py:391-401 | slices of the limit's length but for the last one; their number is the ceil count |
| TextSplitting.PairPrompts | graph/external_lib/uie_pytorch/uie_predictor.py:425-432 | every piece is asked with the prompt of its own text |
| TextSplitting.ConvertIds | graph/external_lib/uie_pytorch/uie_predictor.py:332-363 | every token hit that does not run from prompt into text becomes exactly one result, the slice of text or prompt it names, in order; the others none |
| TextSplitting.ConvertedHits | graph/external_lib/uie_pytorch/uie_predictor.py:346-361 | every text hit is the slice of its piece that its offsets name |
| TextSplitting.AutoJoiner | graph/external_lib/uie_pytorch/uie_predictor.py:520-572 | extraction results: hit x of piece i of a text stands behind all hits of its pieces before, moved by their length, and there are no others; classification results, if the first hit of all is an option: the elected one |
| TextSplitting.JoinedInPlace | graph/external_lib/uie_pytorch/uie_predictor.py:552-570 | nothing is lost, added or reordered, for any number of pieces |
| TextSplitting.JoinPieces | graph/external_lib/uie_pytorch/uie_predictor.py:552-570 | the running offset is the length of the pieces before, also on the branch that skips moving |
| TextSplitting.AllJoinedOk | graph/external_lib/uie_pytorch/uie_predictor.py:365-572 | every joined hit r of text k satisfies r.text == text_k[r.start:r.end] |
| TextSplitting.JoinedHitsOk | graph/external_lib/uie_pytorch/uie_predictor.py:552-570 | offsets add up: a hit moved by the lengths before its piece names the same characters of the whole text |
| TextSplitting.Vote | graph/external_lib/uie_pytorch/uie_predictor.py:530-550 | the elected option has most votes, ties broken by total probability, then by being voted for first, and reports the mean |
| TextSplitting.VotesAreCounted | graph/external_lib/uie_pytorch/uie_predictor.py:533-543 | an option's votes are the pieces whose first hit names it |
| TextSplitting.WeightsAdd | graph/external_lib/uie_pytorch/uie_predictor.py:538-543 | its total adds up the probabilities of those hits |
| SingleStage.GetBoolIdsGreaterThan | graph/external_lib/uie_pytorch/utils.py:125-151 | the positions above the limit with their probabilities, in order |
| SingleStage.AnswersAreSpans | graph/external_lib/uie_pytorch/uie_predictor.py:490-510 | the spans matched are exactly the pairs of a start and an end above the limit with no other between |
| SingleStage.Extract | graph/external_lib/uie_pytorch/uie_predictor.py:490-512 | from probabilities to offsets: exactly those pairs are reported, each once |
| SingleStage.SingleStagePredict | graph/external_lib/uie_pytorch/uie_predictor.py:412-518 | split, ask, threshold, match, convert and join in one call: pieces of text k are asked with prompt k; every answer in a piece is found again among the results of its text, at its place there; results are those of the pieces in order; and every extraction result of a text whose pieces leave room for the prompt is the slice of the text that it names |
| TokenHits.GetIdAndProb | graph/external_lib/uie_pytorch/utils.py:539-557 | every span is reported with its tokens' offsets, prompt tokens moved below zero in place, and the product of the probabilities |
| TokenHits.PromptComesBackIff | graph/external_lib/uie_pytorch/utils.py:539-557 | options found in the prompt come back as the prompt's own characters if and only if the prompt has as many tokens as characters |
| TokenHits.SpansMeanWhatTheyName | graph/external_lib/uie_pytorch/uie_predictor.py:346-361 | with one token per prompt character, every token span becomes the piece of text or prompt it covers, or nothing if it runs across |
| TextSplitting.MovedNamesIff | graph/external_lib/uie_pytorch/uie_predictor.py:552-570 | a hit moved to its place in the whole text still selects its characters if and only if it ends inside its piece, is empty, or no text follows that it could reach into |
| TokenHits.PromptStaysOutIff | graph/external_lib/uie_pytorch/utils.py:539-557 | pieces of the prompt reported as text hits end inside the text, for all of them, if and only if the prompt has at most tokens + 1 + text length characters; otherwise its last character is reported behind the text |
| TokenHits.TextEndsInside | graph/external_lib/uie_pytorch/utils.py:539-557 | then every hit of a span of tokens is a slice of its piece that ends inside it, which joining relies on |
| SlidingWindow.LegalHistories | core/rate_limiter.py:27-45 | if each admission saw fewer than limit in its window, every window of that length anywhere in time holds at most limit, and no two member strings collide |
| SlidingWindow.AtLegalCall | core/rate_limiter.py:33-38 | trimming leaves exactly the admissions of the window, and a key that expired held none of them |
| SlidingWindow.Limiter.Allow | core/rate_limiter.py:27-45 | a call is admitted exactly when fewer than limit admissions of the full history lie in (now - window, now]; trimming and EXPIRE never change that |
| SlidingWindow.InWindowCounts | core/rate_limiter.py:33-37 | what a window holds is the number of admissions whose time lies in it |
| SlidingWindow.Limiter.Trim | core/rate_limiter.py:33-37 | after trimming, ZCARD is the number of admissions in the window |
| SlidingWindow.Limiter.Record | core/rate_limiter.py:39-40 | ZADD always adds a new member and the expiry outlives the window |
| SlidingWindow.Expiry | core/rate_limiter.py:40 | the expiry, in whole seconds, covers the window |
| TokenBucket.RunCalls | core/rate_limiter.py:48-80 | main theorem: of any consecutive calls i..j on one limiter, those it allows ask for at most capacity + floor(rate * time from call i to call j) tokens |
| TokenBucket.GrantBound | core/rate_limiter.py:48-80 | the same bound on the values, from any state of the key |
| TokenBucket.GrantBoundInside | core/rate_limiter.py:48-80 | the same for calls i..j of a longer run |
| TokenBucket.GrantsAreRefills | core/rate_limiter.py:63-74 | tokens granted plus tokens left never exceed tokens at the start plus the refill, although every call floors its own refill |
| TokenBucket.TokensStayInRange | core/rate_limiter.py:63-74 | tokens stay in [0, capacity] |
| TokenBucket.ExpiryIsRefillToFull | core/rate_limiter.py:55-78 | a key that expired after ceil(capacity / rate) + 10 seconds is worth the same as a key that was kept |
| TokenBucket.Limiter.Allow | core/rate_limiter.py:48-80 | the script, expiry included, refines a key that never expires; a call is allowed exactly when the refilled bucket holds what it asks for, which is then taken out |
| Snowflake.PackUnpack | core/distributed_id.py:169-175 | the shifted and or-ed fields decode back to time, worker and sequence |
| Snowflake.PackIsSum | core/distributed_id.py:94-175 | shift and or of in-range fields is (t - 1700000000000) * 4194304 + worker * 4096 + sequence |
| Snowflake.PackFits | core/distributed_id.py:169-175 | ids of times within 41 bits of the epoch are below 2^63 |
| Snowflake.PackOrder | core/distributed_id.py:169-175 | ids order like (time, sequence) |
| Snowflake.WorkersSeparateIff | core/distributed_id.py:102-111 | a given worker id comes back out of the ids if and only if it is at most 1023; the generator does not check it |
| Snowflake.MaskIsMod | core/distributed_id.py:160 | masking with n ones is the remainder modulo 2^n, which makes the sequence count up and wrap |
| Snowflake.OrIsBitwise | core/distributed_id.py:169-175 | a bit of the or is set exactly when it is set in either field |
| Snowflake.AndIsBitwise | core/distributed_id.py:160 | a bit of the masked number is set exactly when it is set in both |
| Snowflake.Generator.NextId | core/distributed_id.py:140-176 | every id is larger than all ids before, over sequence wrap and tolerated rollback; a new millisecond starts at 0, the same one counts up to 4095 and then waits; the error is raised exactly for a rollback of more than 5 ms and changes nothing |
| Snowflake.Generator.NextSlot | core/distributed_id.py:158-166 | inside a millisecond the sequence counts up, at its end the next millisecond starts at 0 |
| Snowflake.Generator.WaitNextMillis | core/distributed_id.py:178-183 | the spin ends at the first reading after the last timestamp |
| Snowflake.NoCollision | core/distributed_id.py:140-176 | generators with different worker ids never issue the same id |
| Snowflake.AllocateWorker | core/distributed_id.py:123-135 | the number taken is the first whose bit was clear when asked for, others setting bits and the bitmap expiring in between; the error exactly when every question in 1024 rounds finds its bit set; a Redis error ends it, with the bit set or not, and an error of the expiry comes after the number is taken |
| Snowflake.Start | core/distributed_id.py:111-135 | a given number is taken as it is, without Redis a hash of the host name modulo 1024, otherwise an allocated one; never outside 0..1023 unless given |
| Snowflake.SharedIff | core/distributed_id.py:123-135 | whoever allocates, a number given out is given out again if and only if the bitmap expires and the first SETBIT of that bit to arrive afterwards is answered |
| Snowflake.ExpiryShares | core/distributed_id.py:129-131 | and that happens: a run of three steps |
| Saga.WalksBack | core/redis_transaction.py:316-329 | when every compensation that returns undoes its step, k compensations lead back to the world before the k-th last step, also when a later one does not return |
| Saga.RollbackRestores | core/redis_transaction.py:269-329 | a failed saga whose compensations all return ends in the world it started from, whichever step fails |
| Saga.RollbackOrder | core/redis_transaction.py:316-329 | the compensations run are of steps i-1, i-2, ... in that order, up to the first that does not return |
| Saga.RollbackStatus | core/redis_transaction.py:316-329 | statuses tell which steps were undone, which one is stuck compensating, and which are still done |
| Saga.RollbackWorld | core/redis_transaction.py:316-329 | the loop leaves the world after the compensations that ran, and returns what stopped it |
| Saga.ClaimIsTrueIff | core/redis_transaction.py:307-310 | the message claims that all executed steps were rolled back; that is so if and only if every compensation returns |
| Saga.RecordIsTrueIff | core/redis_transaction.py:301-304 | the record says compensated if and only if all steps were, exactly unless an exception with an empty text stopped the rollback |
| Saga.UnluckyStays | core/redis_transaction.py:316-329 | an input at which both are wrong: the only compensation raises, nothing is undone, the world is not restored, and the record says compensated exactly if the text is empty |
| Saga.UnluckyRun | core/redis_transaction.py:269-314 | the same through the coordinator: the message claims one step, the effect stays |
| Saga.DoneFacts | core/redis_transaction.py:284-299 | the run stops at the first step that does not succeed |
| Saga.Coordinator.Execute | core/redis_transaction.py:269-314 | success exactly when all steps succeed; after a failed step the record, the report, the order of compensations and every status are those of the rollback; a step ended by an exit that is no Exception leaves everything uncompensated and the record running |
| Saga.Coordinator.RollBack | core/redis_transaction.py:296-310 | the record says compensation_failed exactly when the returned error text is not empty; an exit in a compensation leaves it running |
| Saga.Coordinator.Compensate | core/redis_transaction.py:316-329 | the loop over the executed steps in reverse is the rollback function |
| Outbox.RunKeepsAll | core/redis_transaction.py:364-405 | conservation in every run of any number of dispatchers and publishers: copies queued, in hand and delivered at the end, with the copies lost, are those at the start, with those published and doubled; a copy is lost by a killed sender, a pop whose answer is lost, or put-backs that do not arrive, and doubled by a put-back whose answer is lost |
| Outbox.DeliveredAtMost | core/redis_transaction.py:364-405 | a published message exists once, plus its doublings, less its losses; the sender takes it at most once more than it was doubled |
| Outbox.NothingLostIff | core/redis_transaction.py:364-405 | at-least-once delivery in full, for any number of dispatchers: every published message is queued, in somebody's hands or delivered if and only if no step gives up the last copy, in one of those ways |
| Outbox.HeldStep | core/redis_transaction.py:381-405 | step by step: somebody has a message exactly when somebody had it or it is published now, unless the step gives up its last copy |
| Outbox.ReliableKeepsAll | core/redis_transaction.py:381-405 | with every command answered and no killed sender no copy is lost or doubled |
| Outbox.FailuresLoseAndDouble | core/redis_transaction.py:387-403 | each of those failures does lose, or double, a message |
| Outbox.InOrder | core/redis_transaction.py:364-405 | one dispatcher whose sends succeed, whatever is published meanwhile: messages leave in the order published |
| Outbox.RaisingRotates | core/redis_transaction.py:401-403 | a sender that always raises only turns the queue round |
| Outbox.WhereMessagesGo | core/redis_transaction.py:364-403 | a pop takes the first message; refused, raised and published ones go to the end; accepted ones to the sender |
| Outbox.TransactionalOutbox.Dispatch | core/redis_transaction.py:381-405 | the loop is a run of the protocol while others act: at most a batch of pops, each followed by what the verdict calls for, ended by a refusal that was put back, an error, an exit or an empty list but not by an exception of the sender; it returns the number of accepted messages |
| Outbox.TransactionalOutbox.Publish | core/redis_transaction.py:364-379 | true means that the message is queued; it may also be after false |
| LocalMessages.StepKeepsInv | core/redis_transaction.py:411-483 | a step of any processor, whatever fails, keeps: every message is in at most one of pending, sent, dead and a processor's hands, as its status says, and has been tried as often as its retry count says |
| LocalMessages.OwnStep | core/redis_transaction.py:450-481 | a processor's step leaves its message in no place exactly when pop or read are not answered, the sender is killed, or the write or push that places it fails |
| LocalMessages.MissingIff | core/redis_transaction.py:411-483 | over every run of any number of processors, for every message whose hash lives: it is in none of the lists and in nobody's hands if and only if some step lost it in one of those ways, or its creation did not get as far as the push |
| LocalMessages.FailuresLose | core/redis_transaction.py:411-480 | each of those failures does lose a message |
| LocalMessages.TriedAtMost | core/redis_transaction.py:469-481 | in every run of any number of processors a message is tried at most max(max_retry, 0) + 1 times, exactly that often once dead, and is in the list its status says |
| LocalMessages.PopsAreBounded | core/redis_transaction.py:450-481 | no retrying for ever: in every run all processors together take at most as many messages off the list as the waiting and the new messages have tries, whatever fails |
| LocalMessages.PopsPerMessage | core/redis_transaction.py:450-481 | in numbers: with at most m retries a message, all pops that take something are at most m + 1 for each message waiting or created |
| LocalMessages.Drains | core/redis_transaction.py:445-483 | with more pops than that some pop finds the list empty |
| LocalMessages.NothingForgotten | core/redis_transaction.py:445-483 | with every command answered and no killed sender, a message whose hash lives is in exactly one of pending, sent, dead or a processor's hands, in every run |
| LocalMessages.Processor.CreateLocalMessage | core/redis_transaction.py:411-442 | a new message is pending if and only if its hash, its expiry and its push arrive; the first error ends it silently |
| LocalMessages.WhereMessagesGo | core/redis_transaction.py:450-480 | a pop takes the first id; accepted messages are marked as sent; refused ones count a retry and go to the end while that is within max_retry, else are marked as failed and go to the dead ones |
| LocalMessages.Processor.ProcessLocalMessages | core/redis_transaction.py:445-483 | the loop is a run of the protocol while others act: at most that many pops, each message read, sent, marked and placed as its verdict calls for, ended by an error, an exit or an empty list; it returns how many accepted messages were marked |
| DelayQueue.StepKeepsInv | core/redis_delay_queue.py:77-266 | a step of any worker, whatever fails, keeps: a task is in at most one place, a batch holds what its worker popped, a task waiting to run has had as many handler calls and as much back-off as its retry count says, and every due time is the one asked for or at least the back-off after the last call |
| DelayQueue.EveryRun | core/redis_delay_queue.py:77-266 | main theorem: in every run a task is in at most one of queued, popped, done, failed; its handler is called at most max(1, max_retry) times, never before the time asked for nor before the k-th back-off after the k-th call; a failed one was called exactly that often |
| DelayQueue.NothingDroppedIff | core/redis_delay_queue.py:170-266 | over every run: no added task is missing from queue, batches, done and failed if and only if no step dropped one; a step drops what a pop without answer removed, a task whose execution does not call its handler or does not place it, and, if an execution raises, the rest of its batch |
| DelayQueue.ExactlyOnePlaceIff | core/redis_delay_queue.py:170-266 | from the empty queue: every added task is in exactly one place if and only if the run is clean in that sense |
| DelayQueue.DroppedStep | core/redis_delay_queue.py:183-266 | step by step: a task is in no place exactly when it was before or the step drops it |
| DelayQueue.LostPopDrops | core/redis_delay_queue.py:192-197 | a pop whose answer is lost drops all it popped |
| DelayQueue.KilledHandlerDrops | core/redis_delay_queue.py:199-228 | a handler ended by an exit that is no Exception drops its task and the one behind it, which was never tried |
| DelayQueue.SmoothRun | core/redis_delay_queue.py:170-266 | in a run without failures, with handlers for all kinds, every added task is exactly one of queued, in a worker's hands, done or failed, and a failed one has waited 60 (m + ... + m^(max_retry-1)) seconds in all |
| DelayQueue.BackoffClosed | core/redis_delay_queue.py:242 | (m - 1) times the total back-off of n retries is 60 (m^(n+1) - m) |
| DelayQueue.Queue.AddTask | core/redis_delay_queue.py:77-130 | a task is queued at its absolute time or after its delay exactly when data and expiry are written and the push arrives; its id is returned exactly when all is answered |
| DelayQueue.Queue.PopDue | core/redis_delay_queue.py:183-196 | the pop takes the earliest tasks with a time from 0 up to now, at most 20, in order, all if fewer, and removes exactly them unless it is lost |
| DelayQueue.Queue.ExecuteTask | core/redis_delay_queue.py:203-266 | without lock, data or handler nothing changes; after success the data is deleted; after failure number n the task is due again 60 m^n seconds later while n is below the limit, and marked as failed otherwise; it raises where the first command is not answered, and nowhere else |
| DelayQueue.PowersMultiply | core/redis_delay_queue.py:242 | the back-off factor is a power |
| DelayQueue.Queue.ProcessDueTasks | core/redis_delay_queue.py:170-201 | one poll is one pop followed by one execution per popped task, in due order, up to the first that raises |
| DelayQueue.EarliestDue | core/redis_delay_queue.py:188 | the ids are due, ascending by time, and no due id left behind is earlier |
| CacheFill.ReadBackIff | core/redis_client.py:350-360 | what was stored for a value reads back as that value if and only if it is no string equal to the null marker or readable as other JSON |
| CacheFill.RightIff | core/redis_client.py:325-396 | main theorem: for a stable source, every completed call of every run, under expiry, mutex loss, time-outs and lost commands, returns the source's value if and only if that value survives storing; None, dicts and lists always do |
| CacheFill.NullMarkerMeansNothing | core/redis_client.py:385-390 | the null marker is stored only if the source has nothing, or is that very string |
| CacheFill.StepKeepsInv | core/redis_client.py:349-396 | a step of any caller keeps the entry and every call's value tied to the source |
| CacheFill.HowLongThingsLive | core/redis_client.py:364-396 | a stored value lives for its TTL, the null marker and the mutex for theirs; unlocking deletes the mutex, whoever holds it |
| CacheFill.Client.GetOrSetAdvanced | core/redis_client.py:325-396 | one call is a run of the protocol and returns the source's value whenever that value survives storing; it looks up, takes the mutex if nothing is there, looks at most five more times if that is taken, and asks the source at most once, storing and unlocking then |
| CacheFill.Client.WaitOrLock | core/redis_client.py:363-380 | either the mutex is won or the entry is looked up five more times, then the source is asked anyway |
| CacheFill.Client.Fill | core/redis_client.py:382-396 | ask, store or mark as null, give the mutex back, return the source's value |
| Stock.Conserved | core/redis_client.py:231-274 | over any run and for any amounts, all stocks plus all purchase counters plus what was deducted stay the same |
| Stock.NeverOversold | core/redis_client.py:231-274 | no stock goes negative in any run, whatever the amounts |
| Stock.NeverOverLimit | core/redis_client.py:258-274 | no user exceeds a constant limit in any run; one counter is shared by all items |
| Stock.Counters.AtomicDeduct | core/redis_client.py:278-290 | the stock falls by the amount exactly when it suffices, a missing key counting as 0; true exactly when it did and the answer arrived |
| Stock.Counters.AtomicCheckAndPurchase | core/redis_client.py:293-320 | limit before stock; both counters move together or not at all; an error leaves open which |
| Bloom.PresentIff | core/redis_bloom.py:80-132 | no false negatives; the false positives are exactly the elements all of whose positions other elements share |
| Bloom.MarkedAllExact | core/redis_bloom.py:105-116 | after any adds the bitmap is exactly the positions of the added elements |
| Bloom.RedisBloomFilter.GetPositions | core/redis_bloom.py:80-93 | the i-th position is (h1 + i h2) mod size |
| Bloom.RedisBloomFilter.Add | core/redis_bloom.py:95-103 | an addition reported as done is present from then on, one that failed sets only bits of its element; without failures the bitmap stays exact |
| Bloom.RedisBloomFilter.AddBatch | core/redis_bloom.py:105-116 | one pipeline that arrives reaches the bitmap of adding the elements one by one, answered or not |
| Bloom.RedisBloomFilter.Exists | core/redis_bloom.py:118-132 | an added element tests present, failing server or not; false means that some bit is missing, so it was never added |
| Bloom.RedisBloomFilter.ExistsBatch | core/redis_bloom.py:134-158 | regrouping the flat reply by hash count equals asking for each element |

## Left out

- Connections, pools, sentinel and cluster modes, threads, logging and real sleeping: replaced by atomic steps and a clock. Branches that let a request pass when Redis is down are not modelled.
- SchemaPredictor.Predictor.MultiStagePredict: the answers of the model and the search for the "[a, b]" suffix of English classification names are parameters; the two node fields `prefix` and `parent_relations`, always assigned together, are one field; `k`, `path` and `shape` on results are bookkeeping.
- SchemaExtraction.SchemaTree.constructor: takes all children at once; the source adds them one by one.
- SingleStage.SingleStagePredict: tokenizer and model are a function from questions to offsets and probabilities. The length budget, computed from the lexicographically largest prompt, is a parameter; padding, batching and sentence-level splitting by regular expressions, which loses newlines, are left out.
- TextSplitting.ConvertIds: options in the prompt are slices with Python's rules for negative bounds; that they are the right ones is `TokenHits.PromptComesBackIff`.
- ReaderChunks.Reader: reading the file and JSON; for labels that are neither sorted disjoint spans nor all in the prompt only the content is promised when it is cut.
- SpanMatching.GetSpan: positions without probabilities are the same algorithm; unequal probabilities of one position do not occur because positions are distinct.
- PostsaleClient.Submission.DoCommit: the other columns of the row (status, refund, reason) and the messages to the user.
- PostsaleClient.Submission.Acquire: a Redis error on the last attempt is raised by the source and reported as a conflict by the action; both are the outcome `Conflict` here.
- SlidingWindow.Limiter.Allow: wall-clock values finer than the member string shows; two such calls could share a member.
- Saga.Coordinator.Execute: the Redis record is its status only; its expiry is left out.
- LocalMessages.Processor.ProcessLocalMessages: a hash that expires between being read and being written, and exceptions from malformed hashes.
- DelayQueue.Queue.PopDue: ties in due time may come in any order; Redis orders them by name. Tasks with a negative due time are never due, as in the source.
- DelayQueue.Queue.ProcessDueTasks: one worker's poll; interleaving with other workers is covered by the statements about all runs of the protocol. A lock key that outlives its task's execution shows as a lock that is taken.
- CacheFill.Client.GetOrSetAdvanced: a source that raises, and values other than None, strings, dicts and lists. How often the source is asked is not bounded: the mutex is deleted without an owner check.
- The idempotency decorator, whose record cannot be encoded as JSON; TCC; streams; the fixed-window limiter; HyperLogLog, GEO and pub/sub; compare-and-set; segment ids; the sizing formulas of the Bloom filter; all other actions, flows, tables, data generation, retrieval and training code.
- A lower bound on what the token bucket grants: rejected calls also move its refill time, so there is none.
