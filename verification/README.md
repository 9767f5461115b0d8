# LinkerToOtzaria: verified model of the relink pipeline

The linker finds citations in the lines of a library and publishes, per book, a sorted list of link
records. A full run is slow, so the repository does it incrementally, in parallel, on hosts that kill
processes. This project models the parts that make that safe and proves that the cheap, interrupted,
parallel run publishes what one simple sequential run would.

`dafny verify dfyconfig.toml` checks everything.

## How the modules fit together

| file | what it models |
|---|---|
| `Ranges.dfy`, `Transport.dfy`, `LineMatch.dfy` | half-open line ranges, content-bounded batches and their seams, pairing the lines of two versions of a book |
| `Ibid.dfy`, `PassTrace.dfy`, `SeamCounts.dfy` | the citation history of a book, what the resolver is asked line by line, the truncation at batch seams, and the seam counts that summarise it |
| `ContextProbe.dfy` | the incremental planner, and why an inert context probe is exact |
| `Producer.dfy`, `Handoff.dfy` | the GPU side of one book under crashes and escalation, and how the resolver reads its bundle |
| `Artifact.dfy`, `Linking.dfy` | link records, their stable sort, and reuse of the prior artifact |
| `Checkpoint.dfy` | one book linked through shards, ibid sidecars, kills and recycles |
| `Releases.dfy` | all of the above over any sequence of runs, finished or not, in a store that may drift |
| `MicroBatcher.dfy` | the micro-batching queue in front of the one GPU model |
| `Claims.dfy`, `MemoryRetry.dfy`, `Pool.dfy` | the worker protocol of a run, memory retries, and the pool's exit ledger |

The linker itself is a parameter: NER is a function from a line to its entities, the resolver a function
from a query to links, history moves and the last citation read. `Ibid.Query` lists everything a line may
look at; the line index enters only as the test whether the preceding citation stood on the same line.
The resolver's history (three refs, three titles, the latest ref of each title) is modelled concretely,
after the stand-in the repository's own tests use for it, so that what a seam forgets is a theorem
(`Ibid.SeamForgets`) and not an assumption.

Two assumptions are stated as hypotheses where they are used. `Linking.HistoryFree`: a line without the
ibid token links the same under any history (the planner's own assumption). `Transport.Ordered`: the rows
of a book come in strictly increasing line-index order, which the snapshot reader enforces. Content hashes,
digests and line fingerprints are taken to be injective and are represented by what they digest.

## Main results

* `Releases.RunReleases`: over any sequence of runs of a book, given what each run finds, how NER is
  reached, where every life of the book ends and how the other books fare, the exact file and the record
  each run leaves. No flag and no seam list ever recorded is wrong, whatever is killed, drifts or fails.
  If every run finds its store restored and no live book is done after a late kill, a run that does its
  work publishes a from-scratch link of the current lines, and any other leaves standing what was
  published; the digest gate never fires. `Releases.RelinkUnderCrashes` shows that the crash models of
  producer and resolver yield runs of just this kind.
* `PassTrace.BatchAsks`, `PassTrace.BookAsks`: what a batch and a whole pass ask the resolver, and what they
  make of the answers, for every book and every state before. `PassTrace.HistoryIs` says what the history
  holds after any citations, and `PassTrace.SeamChangesQuestion` that the same lines with and without a seam
  ask different questions.
* `ContextProbe.InertProbeIsExact`: the stateless short cut for a book full of "ibid" citations.
  `ContextProbe.ProbedExactly` says when a fully recorded book gets it: exactly if some line is reused and
  the history goes through the same lines, cut at the same places. So an edit of lines without entities
  loses it only if it moves a seam among the others or leaves no line to reuse.
* `Linking.LinkBookExactly`, `Linking.FreshIsEveryLink`: when a book is linked at all, which records its
  artifact holds, and in what order.
* `SeamCounts.FoldIsEntityFold`, `SeamCounts.CountsDetermineLinks`: the seam counts and the texts of the
  lines with entities determine every link.
* `LineMatch.MatchUnique`, `LineMatch.MatchIsMaximum`: the line pairing is pinned down and maximum.
* `Handoff.ProducedPlanAccepted`: whatever crashes the producer went through, the resolver never meets a
  probe that is not inert, and a book was covered whole exactly when a probed line had an entity.
* `Checkpoint.BookRun.Lives`: for every plan, a schedule of kills, lost files and recycles leaves the file
  and the marker of `Checkpoint.AfterLives`; `Checkpoint.LivesSettle` and
  `Checkpoint.ResumesExactlyRepeatable` say when that is the artifact of one uninterrupted life. Every kill,
  error, deferral and peer is an input, so resumption is a theorem: whatever earlier lives left, one life to
  which nothing happens finishes the book. The same holds of `Producer.BookDisk.Lives`, except for the two
  kills named below.
* `MicroBatcher.OrderedMicroBatcher`: in every interleaving requests are answered in order, once, and
  end in exactly one way; the thread waits only while the leading requests of one kind hold fewer
  unanswered texts than a batch, and sends the first ones of them.
* `Claims`: one live owner per book, no done book owned again, no duplicate completion, the heavy phase,
  and the driver's gate. `Claims.AlwaysFinishable`: whatever schedule of workers and crashes went before,
  one worker left alone can finish the run.

## Where the code and its promises part

* **A late kill of a live book that moves lines.** A book linked with live NER reads the lines it reuses
  from its published artifact (src/link_books.py:2589-2628) and then replaces that very file
  (src/link_books.py:2786-2789). A worker that dies after that and before its `done` marker
  (src/link_books.py:6437-6439) leaves a successor that takes the new file for the old one: links of
  reused lines whose index changed are lost or misplaced, or the book fails its own checks. Recycles,
  deferrals, errors and earlier kills do no harm (`Checkpoint.LivesSettle`), and books with an NER bundle
  are not affected, since they capture the old artifact first (src/link_books.py:1776-1804).
  `Checkpoint.ResumesExactlyRepeatable` gives the exact condition: every schedule of lives ends in the
  artifact of one uninterrupted life, for every readable prior artifact, if and only if the old artifact is
  captured or no reused line changes its index. `Checkpoint.MovedLinkLost` gives a losing prior artifact for
  any plan that moves a line, and `Releases.InsertedLineLosesLinks` an ordinary one: a line without
  entities put before the only line of a book.
* **The digest gate and unchanged books.** src/incremental.py:984-987 says that the gate keeps a missing or
  drifted artifact from becoming silent link loss. It stops exactly the changed books that reuse anything
  while the store is out of step (`Releases.GateExactly`). It does not look at an unchanged book: whatever
  file is there is digested as the book's artifact, and the new record is accurate if and only if the store
  was in step (`Releases.UnchangedIsNotGated`). A failed run can put it out of step, for instance by
  deleting a book that left the snapshot (src/incremental.py:1019-1021) before a peer fails
  (src/incremental.py:1142): a book that returns unchanged in the next run over that store is published
  without its links (`Releases.ReturnsWithoutLinks`). What rules this out is the restoration of the store
  before every run (.github/workflows/relink.yml:346-351, ci/restore_artifact_store.sh:5), which the
  driver itself neither performs nor checks; in `Releases` it is the input `restored` of a run.
* **Two kills that strand a book of the producer.** An attempt to produce a book that failed before removes
  the `failed` marker and then the `done` marker (src/precompute_ner.py:397-399). Killed in between, where
  nothing was published yet, it leaves a book that is done and has no bundle, which every later attempt
  refuses. So does a kill while the checkpoint of the narrow layout is removed for escalation
  (src/precompute_ner.py:642-643), if the ledger survives a batch it names. `Producer.BookDisk.Life` says
  that these states stay refused, and that an attempt to which nothing happens goes through from any other.
* **The pool ledger.** ci/add_pool_replacements.py:48-51 says that the published number of replacements
  falls short by at most one per label with an empty list. `Pool.ExactIffSettled` proves what is so: the
  number is exact if and only if no label that was already replaced is still open when the master leaves
  its loop, and otherwise short by the number of those labels, whose lists are not empty.
  Two runs of the master show both that no empty list is needed for it to fall short
  (`Pool.ShortWithoutEmptyList`) and that empty lists need not make it so (`Pool.ExactWithEmptyLists`).

## Model

| member | source | states |
|---|---|---|
| Ranges.CoalesceRanges | src/line_baseline.py:131-147 | raises exactly on a negative index; otherwise the maximal runs of the set of indices |
| Ranges.MaximalRuns | src/line_baseline.py:136-147 | the loop over sorted values yields sorted, disjoint, non-touching ranges that cover exactly those values |
| Ranges.RunsUnique | src/line_baseline.py:131-147 | maximal runs are canonical: two lists that cover the same indices are equal |
| Ranges.IndicesFromRanges | src/line_baseline.py:150-165 | accepts exactly sorted, positive, non-overlapping ranges and returns what they cover |
| Ranges.ExpandCoalesce | src/line_baseline.py:131-165 | expanding coalesced non-negative indices returns them and never raises |
| Ranges.CoalesceExpand | src/line_baseline.py:131-165 | re-coalescing accepted ranges returns them if and only if no two of them touch |
| Transport.TransportBatches | src/link_books.py:165-193 | the accumulating loop computes the batches of the selected eligible rows |
| Transport.BatchesCut | src/link_books.py:165-193 | batches concatenate to exactly those rows in order, keep both limits unless a single row exceeds them, start at their first row, and are greedy |
| Transport.BatchesUnique | src/link_books.py:165-193 | these properties hold of one list of batches only |
| Transport.BatchStarts | src/link_books.py:168-171 | batch starts strictly increase, so a start names its batch |
| LineMatch.MatchLines | src/line_baseline.py:586-613 | returns a one-to-one pairing of equal lines sorted by new index and the unpaired current lines, preferring stable indices, first come first served, saturated |
| LineMatch.MatchUnique | src/line_baseline.py:586-613 | these properties determine both lists |
| LineMatch.MatchIsMaximum | src/line_baseline.py:586-613 | no one-to-one pairing of equal lines reuses more, so the NER list is as short as possible |
| LineMatch.MatchedPerFingerprint | src/line_baseline.py:602-611 | per fingerprint as many lines are reused as the scarcer side has |
| LineMatch.PairStable | src/line_baseline.py:592-601 | the first loop pairs with itself every line whose index and fingerprint survive and leaves the others in order |
| LineMatch.QueueRemaining | src/line_baseline.py:602-605 | every unused old line waits, in order, in the queue of its fingerprint |
| LineMatch.DrawMoved | src/line_baseline.py:606-611 | the last loop hands out queued lines oldest first to the earliest current lines, and leaves a line to NER only when its queue is empty |
| LineMatch.SortByNew | src/line_baseline.py:612-612 | the same pairs in order of their new index |
| Artifact.SortStable | src/link_books.py:2788-2788 | sorting keeps the order of records that agree in line, offsets and target |
| Artifact.SortOrders | src/link_books.py:2788-2788 | the published file holds just the records sorted: by line, on one line by start, then by end, then by target in code-point order |
| Artifact.SortCanonical | src/link_books.py:2786-2789 | collections that agree under every key sort to the same artifact, however they were assembled |
| Ibid.CarryLaws | src/link_books.py:2010-2037 | crossing a second seam changes nothing more, and a seam before any citation is no seam |
| Ibid.ReplayRefs | src/link_books.py:2010-2013 | replaying at most three refs remembers exactly those refs |
| Ibid.SeamForgets | tests/test_context_probe.py:314-338 | a seam is not a no-op: a title cited four refs ago is known without the seam and forgotten across it |
| PassTrace.HistoryIs | tests/test_context_probe.py:314-338 | after any citations and forgettings the history holds the last three refs, at most three titles, and for each the ref cited last under it |
| PassTrace.FourthTitleForgetsFirst | tests/test_context_probe.py:314-338 | when a fourth title comes, the one known longest is forgotten |
| PassTrace.BatchAsks | src/link_books.py:2015-2037 | for every batch: one question per line with an entity, in order; each carries the history all earlier readings left, their last emitted ref and citation, and the line itself; the links are the readings' and the final state is what they leave |
| PassTrace.BookAsks | src/link_books.py:2040-2062 | the same for a whole pass: behind a seam a batch knows what a resolver would that had cited just the refs it still remembers, with the last emitted ref and the preceding citation; linked statelessly it knows nothing; and no later batch changes the links read |
| PassTrace.ToldUnique | src/link_books.py:2015-2037 | a batch has only one such run of questions and answers |
| PassTrace.SeamChangesQuestion | src/link_books.py:2010-2037 | the same five lines with and without a seam before the last put different questions to the resolver about it |
| Ibid.BatchesAreFold | src/link_books.py:2040-2062 | linking batch by batch is linking line by line, crossing a seam exactly at the lines `transport_seams` reports |
| SeamCounts.IbidSeamCounts | src/line_baseline.py:298-314 | no summary if a flag is unknown, otherwise the counts of entity lines before each seam |
| SeamCounts.FoldIsEntityFold | src/line_baseline.py:298-314 | the whole pass is the pass over the entity lines alone, crossing a seam before line k exactly when k is a count; inert lines, repeated and leading seams leave no trace |
| SeamCounts.CountsDetermineLinks | src/line_baseline.py:301-303 | equal entity-line texts and equal counts give equal links on every entity line, whatever the line indices |
| SeamCounts.SummarySound | src/line_baseline.py:298-314 | two books whose entity lines read the same and whose seams have the same counts link alike on those lines and not at all elsewhere, whatever else they contain |
| SeamCounts.CountBounds | src/line_baseline.py:304-314 | counts lie between one and the number of entity lines |
| ContextProbe.CheckedDelta | src/line_baseline.py:616-635 | raises exactly when reused and NER lines do not partition the current lines |
| ContextProbe.MatchPartitions | src/line_baseline.py:610-635 | a match always partitions the book, so that error cannot arise |
| ContextProbe.JudgeMatch | src/line_baseline.py:560-578 | decides whether a match keeps the history, as the planner's probe asks |
| ContextProbe.ContextProbeDelta | src/line_baseline.py:548-583 | no probe unless the old book is comparable; otherwise the probe of a match that keeps the history |
| ContextProbe.ProbedExactly | src/line_baseline.py:548-583 | for a fully recorded book and a match whose unpaired lines carry no entity there is a probe if and only if some line is reused, the entity lines before and after are, in order, the two sides of reused pairs, and the true seam counts agree; the probe then is that of the match |
| ContextProbe.DeltaSendsLeast | src/line_baseline.py:524-545 | from a baseline on record only the unpaired lines go to NER, unless the book has a history that moved; then the whole book does |
| ContextProbe.ComputeLineDelta | src/line_baseline.py:524-545 | an ibid book gets a probe or the whole book, any other book reuse along a match; from true seams no more lines go to NER than must |
| ContextProbe.PlanCovers | src/line_baseline.py:638-683 | every plan lists each current line once, and a probe sends strictly less than the whole book it can escalate to |
| ContextProbe.AssumedFlagsTrue | src/line_baseline.py:573-578 | the flags the planner assumed for the current lines are the true ones once the probe found nothing |
| ContextProbe.SameEntities | src/line_baseline.py:553-557 | if the entity lines before and after are the two sides of the carried pairs, they are the same texts in the same order |
| ContextProbe.InertProbeIsExact | src/line_baseline.py:548-583 | an accepted probe whose lines turn out free of entities is exact: the entity lines are the same texts in the same order, the whole-book pass yields the old links moved along the reuse and none on probed lines, and flags and counts carry over |
| Producer.LayoutEntities | src/precompute_ner.py:552-580 | the stored answers of a layout report an entity exactly when a line it sends has one |
| Producer.CompleteIsProduced | src/precompute_ner.py:608-675 | just one book is fit to be handed over: the one a producer that is never interrupted makes |
| Producer.CompleteAnswers | src/precompute_ner.py:552-580 | a complete book's files hold, batch by batch, the entities of exactly the eligible lines it sends |
| Producer.BookDisk.constructor | src/precompute_ner.py:377-381 | an empty, valid checkpoint of a plan whose escalation strictly covers its probe |
| Producer.BookDisk.RemovePartial | src/precompute_ner.py:642-643 | an interrupted removal leaves any part of the directory, a finished one nothing |
| Producer.BookDisk.CommitBatch | src/precompute_ner.py:553-600 | wherever it stops, a ledger that names the new batch has its file; finished, both are there |
| Producer.BookDisk.KeepBatch | src/precompute_ner.py:543-555 | a batch in the ledger is verified again and never refused: its file is there, and the layout is one batch further |
| Producer.BookDisk.AskBatch | src/precompute_ner.py:556-599 | a batch not in the ledger comes right after those that are; answered, the ledger is one batch longer and still verified |
| Producer.BookDisk.ProduceBatch | src/precompute_ner.py:540-600 | one batch: kept if the ledger names it, else answered, its file before the ledger |
| Producer.BookDisk.ProduceBatches | src/precompute_ner.py:535-600 | batches already in the ledger are verified and kept, the others answered in order |
| Producer.BookDisk.ProduceLayout | src/precompute_ner.py:516-605 | a finished layout holds every batch of its plan and knows whether any line had an entity |
| Producer.BookDisk.Widen | src/precompute_ner.py:636-647 | a probe that found an entity is removed and the escalation begun; a kill half way leaves part of the narrow checkpoint |
| Producer.BookDisk.ClearFailed | src/precompute_ner.py:394-401 | a failed book is unpublished, then its two markers go, `failed` first |
| Producer.BookDisk.ProducePartial | src/precompute_ner.py:623-647 | a resumed or fresh book ends with one warranted layout, escalated exactly when a probed line has an entity |
| Producer.BookDisk.ProduceBook | src/precompute_ner.py:608-675 | a book that finishes is published complete and then marked done |
| Producer.BookDisk.Prepare | src/precompute_ner.py:385-434 | a committed ledger survives and is verified, uncommitted batches are dropped, and a ledger or book that does not verify fails closed; undisturbed, it goes on exactly from what can be resumed |
| Producer.BookDisk.Life | src/precompute_ner.py:747-771 | an attempt that ends well leaves a done, not failed, verified book; one to which nothing happens does so exactly if it could go on from what it found; a stranded book stays refused, and a kill between the two markers strands an unpublished one |
| Producer.BookDisk.Lives | src/precompute_ner.py:814-814 | any number of crashes, errors and retries keeps every published book complete, and unless one strands it, a single undisturbed attempt publishes it |
| Producer.BookDisk.Finalize | src/precompute_ner.py:783-794 | only a done, not failed, published book is handed over, and it is complete |
| Handoff.EntityLines | src/ner_handoff.py:353-384 | the flag of every line sent; raises exactly on a repeated line, bad ranges or a line outside the plan |
| Handoff.CompletedFlags | src/ner_handoff.py:353-384 | on a completed book it never raises and reports the truth about exactly the eligible lines sent |
| Handoff.ProducedPlanAccepted | src/link_books.py:5908-5946 | with a completed book `book_line_plan` never raises; a probe is narrow and stateless if and only if it is inert, else the whole book is linked statefully |
| Linking.ReusedRecords | src/link_books.py:2595-2628 | exactly the prior records of reused lines, moved; raises on the first source or context mismatch |
| Linking.LinesPassAt | src/link_books.py:2679-2682 | a selected eligible line was linked from some state, any other line has no links |
| Linking.LinkedAlone | src/line_baseline.py:513-521 | a line without the ibid token gets the same links in every run that selects it |
| Linking.PriorBelongs | src/link_books.py:2601-2616 | reuse along a match never raises |
| Linking.WholeBookIsFresh | src/link_books.py:2533-2790 | selecting every line links the book from scratch |
| Linking.FreshIsEveryLink | src/link_books.py:2533-2790 | a from-scratch artifact is in order and holds exactly one record per link of the whole pass: its line, offsets, target, text and direction, and the context exactly of a relative link |
| Linking.ReuseExactly | src/link_books.py:2595-2628 | reuse fails exactly on a record whose text, or kept context, is not that of the line it moves to, and else yields the old records of reused lines on their new lines |
| Linking.LinkBookExactly | src/link_books.py:2533-2790 | a book is linked if and only if its plan lists each line once and every reused record fits; its artifact is in order and holds the reused records, moved, one record per new link, and no other |
| Linking.ReuseIsExact | src/link_books.py:2533-2790 | reusing the prior artifact along a match and linking only the NER lines gives the artifact of a run from scratch |
| Checkpoint.ShardsAreThePass | src/link_books.py:2786-2787 | the shards in order are the records of the whole pass |
| Checkpoint.OwnShardBelongs | src/link_books.py:2656-2690 | the shard of the uninterrupted life passes every check of a resuming one: the book, the line's batch, its source and its context |
| Checkpoint.ShardBelongsExactly | src/link_books.py:2656-2690 | the checks refuse a shard exactly if a record's line is not in the batch, or its source or kept context differs |
| Checkpoint.RerunExactlyUnmoved | src/link_books.py:2589-2628 | reading one's own artifact as the prior one is harmless for every readable prior artifact if and only if no reused line moves |
| Checkpoint.MovedLinkLost | src/link_books.py:2589-2628 | for any plan that moves a line, a prior artifact `read_artifact` accepts and the first run links, whose link the second run loses |
| Checkpoint.SecondRunForgets | src/link_books.py:2589-2628 | where no finished link stands at an index lines were reused from, a second run forgets every reused link |
| Checkpoint.LivesSettle | src/link_books.py:2533-2790 | unless a live book that moves lines is killed late, its lives end in the artifact of one uninterrupted life exactly if one of them completes; until a late kill the old file stands |
| Checkpoint.ResumesExactlyRepeatable | src/link_books.py:2588-2628 | that holds for every readable prior artifact and every schedule of lives if and only if the old artifact is captured or no reused line moves |
| Checkpoint.IbidContext.constructor | src/link_books.py:1906-1914 | no history yet |
| Checkpoint.IbidContext.Capture | src/link_books.py:1916-1946 | the captured state fits exactly this start, extent and shard, holds whatever the context keeps, and begins the next batch as the context would |
| Checkpoint.IbidContext.RestoreState | src/link_books.py:1948-1996 | adopts exactly a state that fits this batch and shard, after which the context keeps what the state holds and begins where the captured one did; otherwise changes nothing |
| Checkpoint.IbidContext.Resolve | src/link_books.py:2015-2037 | links a batch from the carried history and keeps what its questions and answers leave: the history after all citations of the batch, the last emitted ref and the last citation |
| Checkpoint.BookRun.constructor | src/link_books.py:2629-2646 | the directory of a book not started, with its layout and its uninterrupted script |
| Checkpoint.BookRun.Disturb | src/link_books.py:2636-2645 | losing or tearing files keeps every shard and readable sidecar faithful |
| Checkpoint.BookRun.LoseMarker | src/link_books.py:1014-1018 | an unreadable recycle marker counts as none, and the count of recycles starts anew |
| Checkpoint.BookRun.Discard | src/link_books.py:2652-2655 | drops a shard, then its sidecar |
| Checkpoint.BookRun.Adopt | src/link_books.py:2692-2711 | a resumed shard is skipped with its history adopted, or dropped to be recomputed; which of the two is decided by the sidecar alone |
| Checkpoint.BookRun.Compute | src/link_books.py:2721-2725 | the records an uninterrupted life computes for the batch |
| Checkpoint.BookRun.Commit | src/link_books.py:2726-2735 | shard before sidecar, each as an uninterrupted life writes it: what is on disk wherever it stops, and what it ends in, for every fate of the batch |
| Checkpoint.BookRun.ComputeAndCommit | src/link_books.py:2721-2735 | a batch linked and committed has its shard, and the context keeps the state after it |
| Checkpoint.BookRun.RecordRecycle | src/link_books.py:998-1036 | refused exactly when a marker is there and no more shards are committed than it says |
| Checkpoint.BookRun.Judge | src/link_books.py:2763-2780 | growth defers the book, memory recycles it unless the guard refuses, and nothing else ends a life here |
| Checkpoint.BookRun.PriorArtifact | src/link_books.py:2588-2595 | a cooperative book captures the old artifact once; any other reads the published one |
| Checkpoint.BookRun.LinkBatch | src/link_books.py:2712-2780 | a batch linked now is committed before the life may end; how it ends is decided by its fate and the recycle guard alone |
| Checkpoint.BookRun.Resume | src/link_books.py:2647-2711 | a shard already there is adopted if and only if the history is not needed or in hand with a readable sidecar that fits, and then left as it is; it never fails the book |
| Checkpoint.BookRun.DoBatch | src/link_books.py:2647-2780 | one batch of a life keeps the history in step with the uninterrupted life; an adoptable shard is always skipped untouched, and an error, kill, deferral or recycle has its cause among the inputs |
| Checkpoint.BookRun.ReadShards | src/link_books.py:2786-2787 | the shards on disk are the script's records in order |
| Checkpoint.BookRun.Assemble | src/link_books.py:2782-2790 | the file becomes all records sorted, an empty one is removed again, and only then is the book done |
| Checkpoint.BookRun.Life | src/link_books.py:6300-6440 | one life moves the file and the marker as `AfterLife` says for where it ended; only a life killed late leaves the file changed and the book undone; one to which nothing happens finishes whatever earlier lives left, if the book can be linked |
| Checkpoint.BookRun.Lives | src/link_books.py:6261-6440 | for every plan: done without a harmful late kill, the artifact is that of an uninterrupted life; not done and never killed late, the old file stands; a linkable book is done once a single life is left undisturbed; at most as many accepted recycles as batches each time the marker is lost |
| Checkpoint.RecyclesBounded | src/link_books.py:998-1036 | strictly increasing committed counts allow at most one recycle per batch |
| Releases.NextBookState | src/line_baseline.py:325-384 | sent lines take the bundle's flag, carried lines keep theirs, and the seams are those of the artifact |
| Releases.NextStateTrue | src/line_baseline.py:337-343 | from true evidence the stored flags and seams are true and nothing raises |
| Releases.ChangedEvidence | src/line_baseline.py:351-377 | the evidence of a relinked book is true, and no planned line is missing from its bundle |
| Releases.ComparableAgain | src/line_baseline.py:335-384 | an ibid book linked through a bundle can be probed again at the next release: all flags known, true seam counts on record |
| Releases.PlanBook | src/line_baseline.py:655-679 | one book's plan: the whole book without a usable baseline or when placed by daf headings; else no more lines than must |
| Releases.PlanUnique | src/line_baseline.py:638-683 | a book has only one plan |
| Releases.RecordIsUsed | src/line_baseline.py:655-679 | a readable record of the same engine is always planned from: only the unpaired lines of a book without history, or of one whose history is unmoved, go to NER |
| Releases.NoRecordIsUsed | src/line_baseline.py:655-679 | without one, or placed by daf headings, the whole book goes to NER |
| Releases.PlanLinks | src/link_books.py:5908-5946 | any plan from an accurate baseline, with any producer outcome, links the book as from scratch |
| Releases.StoredLinks | src/incremental.py:984-1002 | past the digest gate this holds for the file that is there, and none of the resolver's checks fails |
| Releases.RelinkedFresh | src/link_books.py:6261-6440 | a changed book past the gate is done exactly if a life of it completes, with a from-scratch link, unless a live book that moves lines is killed late |
| Releases.ProduceBundle | src/precompute_ner.py:814-814 | whatever the attempts went through, what is handed over is the bundle an uninterrupted producer makes of this plan, or nothing; it is handed over if one attempt is undisturbed and none stranded the book |
| Releases.LinkPlanned | src/link_books.py:6261-6440 | lives through kills, recycles and lost files, for every plan, leave what `Relinked` says for the ends they came to; one undisturbed life is enough for an end |
| Releases.Relink | src/incremental.py:984-1241 | a changed book under its one plan: stopped by the gate or a missing bundle, else relinked, and recorded if it and every peer is done |
| Releases.RelinkUnderCrashes | src/incremental.py:984-1241 | planned, produced and linked through real crashes, the book goes as `Relinks` says for some handoff and some ends of its lives, and comes to its end where producer and resolver are left alone once |
| Releases.Keep | src/incremental.py:1183-1201 | an unchanged book keeps its file and, where all were known, its flags and seam counts |
| Releases.UnchangedKeepsFile | src/incremental.py:1183-1201 | a book whose lines and engine did not change keeps its file, and is accepted whenever its peers are |
| Releases.RunRelease | src/incremental.py:939-1241 | one run: what the file and the record are afterwards, for a removed, an unchanged and a changed book, finished or not |
| Releases.StaysTruthful | src/line_baseline.py:325-384 | no run records a wrong flag or a wrong seam list |
| Releases.UndeliveredStands | src/incremental.py:1130-1155 | a run that does not do its work records nothing new |
| Releases.ClearRunServes | src/incremental.py:939-1241 | with the store in step or nothing reused, and no harmful late kill, a run that does its work publishes a from-scratch link of the new lines |
| Releases.GateExactly | src/incremental.py:984-1002 | the digest gate fires exactly when something is reused and the store is out of step |
| Releases.RestoredIsClear | ci/restore_artifact_store.sh:5-5 | in a restored store the gate never fires |
| Releases.UnchangedIsNotGated | src/incremental.py:984-1002 | an unchanged book is accepted with whatever file is there; its record is accurate if and only if the store was in step |
| Releases.ReturnsWithoutLinks | src/incremental.py:1019-1150 | a book removed by a failed run and back unchanged in the next one over the same store is published without its links |
| Releases.LateKillForgets | src/link_books.py:2589-2628 | a live book with only entity-free new lines and no link at an index reused from loses every link to one late kill |
| Releases.InsertedLineLosesLinks | src/link_books.py:2589-2628 | a line without entities put before the only line of a book is enough, and the gate and every check pass |
| Releases.NewEntry | src/line_baseline.py:190-284 | the new baseline entry is true, and can be probed from once all flags and seam counts are known |
| Releases.RunReleases | src/incremental.py:939-1241 | over any sequence of runs: each as `Follows` says, nothing untrue recorded, and from restored stores without harmful late kills every finished run publishes a from-scratch link, any other leaves what stood |
| MicroBatcher.OrderedMicroBatcher.constructor | ci/gpu_server_microbatch.py:48-76 | an empty queue with a batch size of at least one |
| MicroBatcher.OrderedMicroBatcher.Submit | ci/gpu_server_microbatch.py:78-91 | an empty list never queues, a dead scheduler refuses, any other request is queued last |
| MicroBatcher.OrderedMicroBatcher.Expire | ci/gpu_server_microbatch.py:92-107 | a timeout cancels and unqueues exactly a request not yet complete; the others keep their order |
| MicroBatcher.OrderedMicroBatcher.Full | ci/gpu_server_microbatch.py:141-155 | true if and only if the leading requests of one kind hold a full batch of unanswered texts |
| MicroBatcher.OrderedMicroBatcher.Load | ci/gpu_server_microbatch.py:158-187 | all leading requests of one kind as far as the batch holds; no queued request is exhausted |
| MicroBatcher.OrderedMicroBatcher.TakeBatch | ci/gpu_server_microbatch.py:133-187 | waits only while no full batch of texts is there, takes a prefix of the queue and sends the first unanswered texts of its leading kind, a full batch or all there are; raises exactly when the queue emptied during the wait |
| MicroBatcher.OrderedMicroBatcher.Deliver | ci/gpu_server_microbatch.py:212-229 | every share reaches its ticket in order, completes it exactly if it was the last one, and an unfinished ticket goes back to the head of the queue |
| MicroBatcher.OrderedMicroBatcher.FailBatch | ci/gpu_server_microbatch.py:230-236 | everyone aboard who is not cancelled fails with this error, everyone else is left alone, and nobody is sent again |
| MicroBatcher.OrderedMicroBatcher.Returned | ci/gpu_server_microbatch.py:203-236 | a payload of the wrong shape fails everyone aboard and leaves the queue; any other is delivered; afterwards nothing is in flight |
| MicroBatcher.OrderedMicroBatcher.Abort | ci/gpu_server_microbatch.py:193-201 | after a scheduler failure every request has ended, and later ones are refused |
| MicroBatcher.OrderedMicroBatcher.Collect | ci/gpu_server_microbatch.py:108-112 | a completed request without error returns the model's answer to each of its texts, in order; results are never missing |
| MicroBatcher.OrderedMicroBatcher.Run | ci/gpu_server_microbatch.py:78-236 | every interleaving keeps the invariant, an ended request stays as it ended, and every request that arrived has its ticket, in order of arrival |
| MicroBatcher.OrderedMicroBatcher.Handle | ci/gpu_server_microbatch.py:78-236 | one event of a waiter or the thread: past its deadline a free thread takes a batch, an answer or failure ends the flight, and a raised scheduler dies |
| MicroBatcher.ReadyIsFull | ci/gpu_server_microbatch.py:141-155 | the sum the wait loop compares reaches the batch size if and only if the leading requests of one kind hold that many unanswered texts |
| MicroBatcher.LoadedTexts | ci/gpu_server_microbatch.py:158-187 | what the loading loop collected are the first unanswered texts of the leading requests of one kind: a full batch, or all there are |
| MicroBatcher.WithoutKeepsOrder | ci/gpu_server_microbatch.py:98-104 | taking a request out of the queue takes out just its place |
| MicroBatcher.AnswerSlice | ci/gpu_server_microbatch.py:213-219 | the answers at a share's cursor are those to its own texts |
| MicroBatcher.CreditAll | ci/gpu_server_microbatch.py:212-229 | the delivery loop credits every live ticket with its share and finds the one left over |
| MicroBatcher.CreditSound | ci/gpu_server_microbatch.py:216-222 | crediting a share extends the answered prefix and completes exactly an answered ticket |
| MicroBatcher.DepartSound | ci/gpu_server_microbatch.py:158-187 | leaving with a prefix of the queue keeps queue and flight sound |
| Claims.LocksStep | src/link_books.py:1111-1165 | a book is locked by exactly the live worker that holds it, or by the master accounting it |
| Claims.OpenStep | src/link_books.py:1074-1089 | while a book's fate is open it is not done, and no marker is created twice |
| Claims.OutcomesStep | src/link_books.py:6345-6440 | a done book failed or has its output in place |
| Claims.PhaseStep | src/link_books.py:6139-6162 | a worker is in the heavy phase only when every undone book is marked heavy |
| Claims.SlotsStep | src/link_books.py:1712-1769 | slots are held only on the way through the heavy phase, one or all as asked |
| Claims.DirsStep | src/link_books.py:1131-1162 | only a dead owner's claim directory is ever recovered |
| Claims.StepKeeps | src/link_books.py:6261-6473 | every step, crashes included, keeps the invariant and takes back no marker |
| Claims.OneOwner | src/link_books.py:1092-1219 | in every reachable state a book has at most one live owner, and no duplicate completion is ever recorded, the master's accounting included |
| Claims.DoneForGood | src/link_books.py:1129-1132 | a done book is never owned again |
| Claims.HeavyPhaseSafe | src/link_books.py:1682-1769 | while a slot is held every undone book is marked heavy, then and later; holders do not exceed slots; a holder of all is alone |
| Claims.AlwaysFinishable | src/link_books.py:6130-6170 | whatever workers, crashes and charges went before, once all is quiet one worker alone can finish the run, deferred books included: every book ends done, failed if its linking fails and with its output in place otherwise |
| Claims.Tries | src/link_books.py:6261-6440 | a worker alone tries a book and is idle again: its links and its failure leave it done, a deferral or giving up does not |
| Claims.MasterCloses | src/link_books.py:1613-1682 | the master closes a killed worker's free book: failed and done, its lock free again, nothing else touched |
| Claims.AdvanceBaseline | src/incremental.py:1119-1155 | advances exactly when every planned book is done and none failed |
| Claims.AdvanceSafe | src/incremental.py:1119-1155 | when it advances every planned book's output is in place |
| Claims.QuietStays | src/incremental.py:1117-1124 | once all workers ended, the markers read one after the other cannot change in between |
| Pool.PoolReplacements | ci/add_pool_replacements.py:79-88 | the sum over labels of recorded exits beyond the first |
| Pool.ReadPoolReplacements | ci/add_pool_replacements.py:108-149 | nothing where another master ran or no life was recorded; called a lower bound exactly when a list is empty |
| Pool.DerivedExactly | src/link_books.py:784-944 | the derived number misses exactly the open lives of replaced labels |
| Pool.ExactIffSettled | ci/add_pool_replacements.py:48-51 | it never overcounts, and is exact if and only if no replaced label is open at exit |
| Pool.EmptyMeansNone | ci/add_pool_replacements.py:43-51 | a label with an empty list was never replaced |
| Pool.ShortWithoutEmptyList | ci/add_pool_replacements.py:48-51 | a run of the master whose number is one short although no list is empty |
| Pool.ExactWithEmptyLists | ci/add_pool_replacements.py:48-51 | a run with two empty lists whose number is exact |
| Pool.PoolMaster.constructor | src/link_books.py:773-776 | no exit recorded, no replacement, every label still open |
| Pool.PoolMaster.ForkChild | src/link_books.py:782-847 | a failed fork records one exit and gives the label up; one that works opens a life, and one that raises leaves the label open |
| Pool.PoolMaster.Reap | src/link_books.py:884-924 | recycles and governor kills are not recorded, any other exit is, and only a recorded failure within the limit counts as a replacement; the ledger balances |
| Pool.PoolMaster.Supervise | src/link_books.py:878-944 | after a normal exit the derived number is the replacements begun, after any other no more |
| MemoryRetry.RequeueMarkers.constructor | src/link_books.py:130-130 | no retry yet, and a limit of at least one |
| MemoryRetry.RequeueMarkers.Claim | src/link_books.py:1502-1535 | grants exactly while progress is made, one standstill forgiven, within the limit; a torn marker or a lost race denies |
| MemoryRetry.GrantedExactly | src/link_books.py:1502-1535 | a retry is granted exactly within the limit, with a readable last marker, and unless the book stands still without a committed count or for the second time |
| MemoryRetry.GovernorIsForgiven | src/link_books.py:1502-1519 | a stop by the governor is retried whatever the records say, within the limit, and the standstill after it is forgiven like a first one |
| MemoryRetry.RequeueMarkers.Tear | src/link_books.py:1474-1489 | a torn marker only makes later grants stricter |
| MemoryRetry.RetriesBounded | src/link_books.py:1502-1519 | a book of n batches that loses none is granted at most 2n + 2 retries |
| MemoryRetry.BoundAttained | src/link_books.py:1502-1519 | and no smaller bound holds |

## Left out

- Citation recovery, quotation evidence, chapter terms and the rest of `process_batch`: behind `Ibid.Linker`, a deterministic parameter.
- A citation or batch that raises inside the linker: an interrupted life of the book, not a value of `Ibid.Linker`.
- Sefaria's library, spaCy and GPU inference, Django, Mongo and HTTP: foreign calls.
- Digests, JSON, tar, fsync and path handling: a digest is represented by what it digests, an atomic rename by one assignment.
- UTF-16 offsets of a record and the check that they lie inside the line: character widths are not modelled.
- English renames of targets and adoption of an engine fingerprint between releases: both rewrite or accept artifacts by operator decision.
- Batch limits that change between lives of one book: the layout of a book is fixed, so the extent check of a sidecar never has to fire.
- The lock of a single batch in cooperative linking: a batch whose lock is refused is skipped, and the book stays unfinished.
- `_try_claim` in src/precompute_ner.py and the older SSH helpers: time-based leases, about which exclusivity is not promised.
- The host measurements of `PoolMemoryGovernor`: a governor stop is any kill, recycle or retry record marked so.
- Validators of manifests and payloads beyond those named above, telemetry, logging, cache cleanup and the shape of relink_work.json.
- Several books at once: `Releases` follows one book; its peers enter through `Peers`, as whether they stop the run, fail or finish.
- Completed books adopted from a local checkpoint: such a run is not an input of `Releases`.
- How the store is restored: an input of each run says whether it was.
- The linker's own records: `Ibid.Linker` is taken to yield only ones `validate_record` accepts.
- SeamCounts.IbidSeamCounts: returns the set of counts, since the sorted list is determined by it.
- MicroBatcher.OrderedMicroBatcher.Run: tickets are values in a table named by submission number, so aliasing of ticket objects is not modelled; the model is taken to answer each text on its own.
- Producer.BookDisk.Lives: assumes one owner of a book at a time, which the lease protocol does not guarantee.
