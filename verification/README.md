# PDF Hub: a verified model

PDF Hub is a job server for PDF operations. A queued job is claimed by a worker, its outputs are
written to object storage and published as file records, and users, operators, retention and the
queue act on the same rows meanwhile. This project models the parts where that can go wrong and
proves what they keep, in Dafny 4.11. `dafny verify dfyconfig.toml` checks everything.

**The fenced execution protocol.** `Rows`, `Statements` and `Protocol` are the system as a
transition system: one action is one SQL statement with its commit, one storage call or one clock
reading. The state holds the job rows, the write journal, file records, artifact links, the object
store, every attempt with its program counter and the clock readings it holds, pending cancels,
enqueues and recoveries, and a clock that may move either way. Commits may be applied and still
raise, storage calls may raise after taking effect, deliveries may be duplicated, and any worker may
crash between any two steps. `ProtocolInvariant` proves the inductive invariant action by action;
`ProtocolClosure`, `ProtocolRecords`, `ProtocolTheorems`, `ProtocolStores` and `LeaseTheorems` draw the
theorems about whole runs from it; `ProtocolRuns` gives concrete runs for the three things the protocol
does not exclude.
`WriteJournal`, `Attempt`, `LeaseRecovery` and `Heartbeat` are the same statements as the code
executes them, as classes whose methods are proved against the statement functions; `AttemptRuns`
proves that what `Attempt` leaves behind is what a run of the protocol leaves behind. `StoredNames`
justifies the abstract destination names, and `Manifest` with `ManifestTheorems` ties the manifest
endpoint to what the protocol publishes.

**Webhooks.** `Webhooks`, `WebhookTheorems` and `WebhookDispatcher`: the retry life cycle, bounds on
the waiting time and fairness of the dispatcher, commit by commit, with passes that are cut short.

**Printers, readers and checkers.** `Utf16`, `Decimals`, `Rtf`, `RtfRoundTrip`, `RtfEmitter`: the RTF
emitter against a reader after the RTF 1.9.1 specification. `ChmFragment`, `ChmTheorems`,
`ChmReader`, `ChmRoundTrip`, `ChmChecker`: the CHM HTML boundary, its normal form, and a reader of HTML
written on its own that finds in the boundary's output the accepted pieces and nothing else. `PageRanges`: unique texts of page ranges.
`Text`, `Settings`, `SettingsTheorems`: the .env merge. `Arithmetic`, `ImageFormats`, `Options` and
`TextOrder` hold what several models share.

**Loops with exact inventory claims.** `RuledGrid`, `RuledTable`, `RuledPage` and `RuledTheorems` (ruled
tables), `EmbeddedImages` and `ImageArchive` (image archive producer and stager), `RasterPages` (raster
staging), `Reconciliation` and `ReconciliationTheorems` (records against objects) and `NonceTable` (the
replay guard).

Clock readings, network outcomes, storage outcomes and fresh identifiers are parameters of the
actions and methods, so every statement holds for all of them.

Two places where the code and its own words differ; the model follows the code:

- The comment on `renew_execution_lease` says an expired lease cannot revive. A renewal that read
  the clock before the deadline and is executed after it does revive the lease;
  `LeaseTheorems.RevivalExactly` gives the exact condition and `ProtocolRuns.LateBeatRevives` a run.
- `cancel_job` answers with a conflict for finished jobs, but its write has no status predicate, so
  a cancel that read the job as running can overwrite `completed`
  (`ProtocolTheorems.TerminalChangesExactly`, `ProtocolRuns.CancelOverwritesCompleted`); so can the
  error branch of a submission (`ProtocolRuns.EnqueueErrorOverwritesCompleted`). The set
  {completed, failed, cancelled} is what is never left (`ProtocolTheorems.EndedJobIsClosed`).

## Model

| member | source | states |
|---|---|---|
| ProtocolInvariant.StepKeepsInv | apps/api/app/worker_tasks.py:835-1064 | Every one of the thirty actions (claims, heartbeats, fenced updates, reservations, storage calls that raise before or after taking effect, commits that raise after committing, crashes, cancels, recovery, retention) keeps the invariant over jobs, attempts, journal rows, objects, files and links. |
| ProtocolInvariant.ReachableInv | apps/api/app/worker_tasks.py:156-1064 | The invariant holds after every finite run from the empty system. |
| ProtocolTheorems.SingleEnding | apps/api/app/worker_tasks.py:996-1060 | In every reachable state at most one of publication, worker failure and recovery has taken effect on a job. |
| ProtocolTheorems.EndingsAreTransitions | apps/api/app/lease_recovery.py:82-101 | The recorded endings are exactly the fenced transitions: publication, worker failure and recovery each move one row that was running under its token to completed or failed at progress 100, keep its other fields (recovery drops the token, publication sets the output), touch no other job and record that ending; no other action records one. |
| ProtocolTheorems.EndedJobIsClosed | apps/api/app/write_journal.py:43-89 | Once a job has ended, or is terminal for any reason, it stays completed, failed or cancelled while its row exists, and no fenced statement of any attempt at any clock reading, no claim and no recovery matches it, for the rest of every run. |
| ProtocolTheorems.TerminalChangesExactly | apps/api/app/routers/jobs.py:229-315 | A terminal status is changed exactly by the write half of a pending cancel and by the error branch of a pending enqueue, which carry no status predicate, and by nothing else. |
| ProtocolTheorems.RouteWrites | apps/api/app/routers/jobs.py:229-315 | A submission creates a queued row at progress and epoch nought; a cancel is admitted exactly for an enqueued, unfinished job; its write and the error branch of a submission set status and progress of their row and nothing else. |
| ProtocolRuns.CancelOverwritesCompleted | apps/api/app/routers/jobs.py:229-263 | A reachable run in which a job completes and publishes its file and the cancel request that had read it as running then overwrites the completed status; the output stays. |
| ProtocolRuns.EnqueueErrorOverwritesCompleted | apps/api/app/routers/jobs.py:296-310 | A reachable run in which the worker completes the job before the enqueue call returns with an error, whose branch then overwrites the completed status; the output stays. |
| ProtocolTheorems.ClaimOnce | apps/api/app/write_journal.py:20-40 | A job is claimed by at most one token; its epoch is the number of its claims, 0 while queued, and a running job carries the token of its only claim. |
| ProtocolTheorems.NeverRequeued | apps/api/app/routers/jobs.py:266-313 | No action of any run moves a job back to queued, so duplicate deliveries find nothing to claim. |
| ProtocolTheorems.WriteAhead | apps/api/app/worker_tasks.py:914-941 | Every stored object has a durable row; without a file record that row is planned or needs_review; a compensated row has neither object nor file; a file record is exactly what its committed row says. |
| ProtocolTheorems.ReservedBeforeStored | apps/api/app/write_journal.py:102-115 | When a worker stands at a storage call the planned row of that destination is already committed. |
| ProtocolTheorems.CleanupSparesFiles | apps/api/app/worker_tasks.py:1020-1031 | The deletions after a failure never remove an object that a committed file record owns. |
| ProtocolTheorems.PublicationAtomic | apps/api/app/worker_tasks.py:942-1008 | For every attempt in every reachable state: either nothing of it is visible, or the set is complete: every slot is committed to a file of its own with the right role, its file record is there unless the removal of that very file has begun, and its link is there unless the same holds or the finished job's row was cleared. |
| ProtocolRecords.CommittedHaveFiles | apps/api/app/worker_tasks.py:942-1008 | In every reachable state every committed reservation has its file record, unless the removal of that very file has begun. |
| ProtocolTheorems.PublishMakesTheSet | apps/api/app/worker_tasks.py:991-1008 | One publishing transaction turns an attempt of which nothing is visible into the complete set, sets the job completed and makes its root file the job's output. |
| ProtocolTheorems.NothingPublishedBeforeCompletion | apps/api/app/worker_tasks.py:994-1008 | While a job is queued or running nothing of its attempts is visible and it has no output. |
| ProtocolTheorems.ExpiredIsRecovered | apps/api/app/lease_recovery.py:30-105 | In every reachable state an inspection and an update with nothing in between recover a running job whose deadline has passed by the grace: it is failed, its token is gone and the ending is recorded, so no committed row of it can be in the way. |
| ProtocolTheorems.CommittedGuardNeverFires | apps/api/app/lease_recovery.py:61-67 | Recovery's refusal because of a committed row can never occur once its other guards have passed. |
| ProtocolStores.FilesHaveObjects | apps/api/app/worker_tasks.py:932-1008 | In every reachable state every file record has its object in the store, unless the removal of that very file has begun. |
| ProtocolStores.DestinationIsFree | apps/api/app/worker_tasks.py:934-938 | The worker's look-up of a destination never finds a saved file. |
| ProtocolTheorems.OutputIsRoot | apps/api/app/worker_tasks.py:955-1004 | A set output is the file of the committed root row of the job's only attempt. |
| LeaseTheorems.ExpiredLeaseNeverRevives | apps/api/app/write_journal.py:61-99 | With a clock that never goes back, once the lease has run out and the attempt holds no older reading, the deadline stays frozen and no fenced statement that samples its time from then on succeeds, for the rest of the run. |
| LeaseTheorems.RevivalExactly | apps/api/app/write_journal.py:73-89 | A renewal executed after the deadline makes the lease live again exactly when its clock reading was taken before the deadline, its new deadline lies ahead and its commit is applied, whether or not the commit then raises. |
| ProtocolRuns.LateBeatRevives | apps/api/app/write_journal.py:73-89 | A reachable run with a monotone clock in which that happens: the beat reads the clock ten seconds before the deadline and is executed twenty seconds after it. |
| WriteJournal.SizeTestFindsDuplicates | apps/api/app/write_journal.py:105-106 | Comparing the size of the set of names with the length of the plan finds exactly the plans with a repeated name. |
| WriteJournal.AttemptPlanReserves | apps/api/app/write_journal.py:102-115 | Inserting an attempt's plan row by row is the one-step reservation of the protocol, with distinct destinations. |
| WriteJournal.Session.ClaimQueuedJob | apps/api/app/write_journal.py:20-40 | The claim on a session: refused TTL, duplicate delivery, commit applied or not, each with the whole new database; a claim that answers its token leaves the row running under that token, one epoch later, with a lease that is live at exactly the readings before now + ttl. |
| WriteJournal.Session.FencedProgress | apps/api/app/write_journal.py:43-58 | Progress is written exactly when the fence matches, else nothing changes and the lease error is raised. |
| WriteJournal.Session.RenewExecutionLease | apps/api/app/write_journal.py:61-89 | The renewal matches exactly the current live attempt of that epoch; TTLs outside 61..3600 are refused. |
| WriteJournal.Session.ReserveWrites | apps/api/app/write_journal.py:102-115 | All rows of the plan or none, and which answer is given when: a lost lease (a deleted job row is one) first, then an empty or repeating plan, then a destination that is already reserved, then the commit. |
| WriteJournal.Session.MarkCommitted | apps/api/app/write_journal.py:118-132 | Succeeds exactly when every named row is a planned row of the attempt; then each named row, and no other, is committed to its file. |
| WriteJournal.Session.CompensateWrites | apps/api/app/write_journal.py:135-152 | Every planned row of the attempt becomes compensated when its result is confirmed and needs_review otherwise; nothing else changes. |
| Attempt.Worker.StoreAll | apps/api/app/worker_tasks.py:932-990 | The storing loop: it ends at the first output that raises or whose destination is a file; which names it noted and which objects there are then, output by output. |
| Attempt.Worker.PublishOutputs | apps/api/app/worker_tasks.py:932-1008 | The whole transaction of a successful attempt is the protocol's publish statement: it takes effect exactly when every write succeeded and the statement matches, and then as a whole. |
| Attempt.Worker.Cleanup | apps/api/app/worker_tasks.py:1020-1031 | Which attempted names the cleanup confirms, which it leaves unknown, and that it deletes exactly the names without a file record. |
| Attempt.Worker.Fail | apps/api/app/worker_tasks.py:1020-1064 | The failure path as a whole: rollback, deletion, classification of every reservation, and the conditional failure. |
| Attempt.Worker.Finish | apps/api/app/worker_tasks.py:914-1064 | The journaled tail of an attempt, whatever raises: its exact rows and objects; nothing left in the store is unaccounted for, compensated rows hold nothing, and the outputs are visible all together or not at all. |
| AttemptRuns.FinishIsRun | apps/api/app/worker_tasks.py:905-1064 | Refinement: from every reachable state with a worker before its reservation, the rows and objects the method leaves are those of a run of protocol actions of that worker, for all answers of storage, database and clock, and the worker is finished; so all theorems about reachable states apply after it. |
| Attempt.PublicationOutcome | apps/api/app/worker_tasks.py:932-1008 | The two ways a publication can end, seen from the rows before the attempt. |
| Attempt.FailureAccounted | apps/api/app/worker_tasks.py:1020-1041 | The failure path keeps every object accounted for, with or without a committed classification. |
| LeaseRecovery.Recovery.InspectOrRecover | apps/api/app/lease_recovery.py:22-105 | A dry run reports exactly when the actor is named, epoch and grace are in bounds, the row is running under a token of that epoch without output and past its deadline by the grace, the RQ job and invocation match, RQ says failed, stopped or canceled, and no row of the attempt is committed; it changes nothing. An application fails the row exactly when it is still what the guards saw, whatever other transactions did in between. |
| LeaseRecovery.EligibleIsRecovered | apps/api/app/lease_recovery.py:82-101 | With nothing in between an eligible job is always recovered; its token is gone, no fenced statement matches it, and no row, file or link is touched. |
| Heartbeat.WorkerHeartbeat.Create | apps/api/app/worker_heartbeat.py:29-31 | The constructor accepts exactly intervals of at least 5 seconds of which three are shorter than the TTL. |
| Heartbeat.WorkerHeartbeat.Loop | apps/api/app/worker_heartbeat.py:44-54 | The beat loop performs exactly the renewals of its beats, swallows exceptions, and stops with the lost flag at the first denied one. |
| Heartbeat.NeverLapsesExactly | apps/api/app/worker_heartbeat.py:44-54 | Evenly spaced beats keep the lease alive at every beat exactly when each run of missed beats together with the next beat is shorter than the TTL. |
| Heartbeat.TwoMissesAreHarmless | apps/api/app/worker_heartbeat.py:29-31 | Under the constructor's constraint two consecutive missed beats never cost the lease. |
| Heartbeat.ClaimSurvivesTwoMisses | apps/api/app/worker_heartbeat.py:29-31 | A successful claim establishes the lease that two consecutive missed beats never cost, so a claimed job keeps its lease from the claim on. |
| Heartbeat.ThirdMissCanLoseTheLease | apps/api/app/worker_heartbeat.py:29-31 | The constraint does not buy a third miss: with a TTL of at most four intervals the fourth beat finds the lease lost. |
| StoredNames.DestinationsAreDistinct | apps/api/app/storage.py:100-121 | Destination names are never refused and agree only for the same piece of the same job and token on the same backend, so names of the two backends never meet either. |
| Manifest.GetJobArtifacts | apps/api/app/routers/jobs.py:119-197 | The manifest endpoint: which refusal is given when, in order, among them another service's job, a file that is gone or of another service, more than 201 links, and links that are not one root with gapless parts or a bundle that is no archive; for a listing the root first and the parts by number, each from a stored link. |
| ManifestTheorems.ServedExactly | apps/api/app/routers/jobs.py:134-197 | In every reachable state the manifest of a completed job is served exactly when the caller requested the job, its root and an unbroken run of its first parts remain, all of them belong to the caller and a bundle's root is an archive. |
| ManifestTheorems.UntouchedIsServed | apps/api/app/routers/jobs.py:160-197 | With file records as the worker creates them, a completed job with untouched files is always listed for its requester: the root, then parts 1..n, each the file its slot was published under. |
| Webhooks.LimitThenFilter | apps/api/app/webhooks.py:275-285 | Taking the first `batch` active rows by due time and then dropping those not due selects exactly the first `batch` due rows, however ties are broken. |
| Webhooks.DueCount | apps/api/app/webhooks.py:276-287 | The number of rows a pass attempts is the smaller of the batch and the number of due rows. |
| WebhookTheorems.Lifecycle | apps/api/app/webhooks.py:127-309 | In every reachable table, also in the middle of a pass: attempts never exceed the maximum, queued means 0, retrying between 1 and max-1, and a job and event have at most one delivery. |
| WebhookTheorems.TerminalRowsStay | apps/api/app/webhooks.py:171-173 | A delivered row never changes and a dead letter changes only through the requeue, to queued. |
| WebhookTheorems.DeliveredForever | apps/api/app/webhooks.py:171-173 | Delivered rows stay delivered, unchanged, over every run, aborted passes included, that does not clear their job. |
| WebhookTheorems.EndsExactly | apps/api/app/webhooks.py:215-272 | Per event of a run: a row becomes delivered exactly by an accepted attempt, and dead exactly by an attempt that finds its job gone or by a raised attempt that reaches the maximum. |
| WebhookTheorems.EndsHaveCauses | apps/api/app/webhooks.py:127-309 | Over every run: a delivered row was accepted by some attempt of the run and a dead one was given up by some attempt. |
| WebhookTheorems.DelayMonotone | apps/api/app/webhooks.py:163-168 | Delays never decrease with the attempt number and never exceed the cap. |
| WebhookTheorems.DeadLetterTime | apps/api/app/webhooks.py:215-251 | A delivery whose attempts all raise is dead after exactly its maximum of attempts; the scheduled waits add up to at most (m-1)*cap and initial*(2^(m-1)-1), the latter met exactly when the last delay is not capped. |
| WebhookTheorems.AttemptedSoon | apps/api/app/webhooks.py:275-287 | A due delivery with r active rows ahead is attempted before floor(r/batch)+1 passes have run to their end, whatever is queued, requeued or cleared meanwhile, between two passes or between two commits of one pass, and however many passes are cut short by a failing commit, a deleted row or a crash. |
| WebhookDispatcher.Deliveries.Queue | apps/api/app/webhooks.py:127-149 | Queueing is idempotent per job and event: no URL, an existing delivery, the insert, and an insert refused because another transaction queued the same event in between, each with the whole new table. |
| WebhookDispatcher.Deliveries.Deliver | apps/api/app/webhooks.py:171-272 | One delivery attempt: an active row becomes delivered exactly when it is accepted, dead when its job is gone (no attempt counted) or when a raised attempt was its last, and otherwise retrying with the next delay; any other row stays; each with the whole new table. |
| WebhookDispatcher.Deliveries.ProcessDue | apps/api/app/webhooks.py:275-287 | One dispatcher pass, with clears of finished jobs between its commits, is a run of the model: the first due rows are attempted in order up to exactly the first one whose commit fails or whose row was deleted, which raises; a pass that gets past all of them returns their number. |
| WebhookDispatcher.Deliveries.RetryDead | apps/api/app/webhooks.py:290-300 | Only dead letters are requeued, with attempts back at zero. |
| Utf16.DecodeEncode | apps/api/app/services/from_pdf_rtf.py:82-84 | UTF-16 units of any Unicode text decode to that text, surrogate pairs included. |
| RtfRoundTrip.ReadDocument | apps/api/app/services/from_pdf_rtf.py:72-124 | Reading an emitted document by the RTF 1.9.1 rules gives back exactly its pages and lines, over all Unicode scalar values. |
| RtfRoundTrip.ReadUnit | apps/api/app/services/from_pdf_rtf.py:82-87 | A code unit written as a signed 16-bit number with its fallback character reads back as that unit. |
| RtfRoundTrip.PlainLine | apps/api/app/services/from_pdf_rtf.py:72-88 | A line of printable ASCII without braces and backslashes is written as it is. |
| RtfRoundTrip.DocumentFits | apps/api/app/services/from_pdf_rtf.py:98-124 | The output is pure ASCII and at most 18 bytes a character, 6 a line, 6 a page and 92 for the frame. |
| RtfEmitter.RtfEscape | apps/api/app/services/from_pdf_rtf.py:72-88 | The escaping loop computes the escape function the round trip is about. |
| RtfEmitter.ToRtf | apps/api/app/services/from_pdf_rtf.py:91-126 | A document is produced exactly when it has 1 to 12 pages, at most 150000 characters and at most 3 MiB of output; it is then pure ASCII and a reader gets back exactly its pages and lines. |
| ChmTheorems.AcceptsExactlyNormalForms | apps/api/app/services/chm_html_boundary.py:58-178 | The boundary lets through exactly the parser events that stand, one by one and with their attributes in any order, for the pieces of a normal form; these are the pieces it rebuilds. |
| ChmRoundTrip.NormalFormMeans | apps/api/app/services/chm_html_boundary.py:20-36 | The normal forms: canonical pieces, properly nested to depth 128 and closed, distinct topics and every link with its topic, something printable, at most 80000 elements, 32 illustrations of 8 MiB together, 250000 characters and 16 MiB of text. |
| ChmRoundTrip.ElementMeans | apps/api/app/services/chm_html_boundary.py:20-121 | The start tags of canonical pieces are exactly those of a written-out list: 34 bare elements, sections with a topic from 1 to 9999, links to such a topic, and illustrations with a base64 data URI of one of four types and 1 byte to 3 MiB. |
| ChmReader.UnescapeEscape | apps/api/app/services/chm_html_boundary.py:147-147 | Resolving the character references of an escaped text gives the text back. |
| ChmReader.EscapeSafe | apps/api/app/services/chm_html_boundary.py:147-147 | Escaped text holds no angle bracket and no quote, and every ampersand begins one of the five references. |
| ChmRoundTrip.ReadRendered | apps/api/app/services/chm_html_boundary.py:75-147 | A reader of HTML written on its own, tags with quoted attributes and text with character references, finds in the rendered text exactly the pieces, with adjacent texts joined. |
| ChmRoundTrip.OutputIsPermitted | apps/api/app/services/chm_html_boundary.py:58-178 | Reading the text the boundary returns finds nothing but the permitted start tags with their fixed attributes, end tags and text: no other element or attribute, no comment, declaration or instruction, and no link without its section. |
| ChmRoundTrip.Idempotent | apps/api/app/services/chm_html_boundary.py:161-178 | The checker's own output is never oversized; checking it again with a parser that reads it as HTML accepts it and returns the same text. |
| ChmTheorems.MergeSame | apps/api/app/services/chm_html_boundary.py:140-147 | How the parser cuts text into chunks changes neither the verdict nor the text. |
| ChmTheorems.FeedFaithful | apps/api/app/services/chm_html_boundary.py:58-147 | After any accepted events the handler's stack, sets and counters are exactly what its pieces say. |
| ChmChecker.ValidateFragment | apps/api/app/services/chm_html_boundary.py:173-178 | An oversized payload is refused before it is parsed; otherwise the handler object, fed event by event, computes the function the theorems are about, and what it returns reads as permitted markup only. |
| RuledTable.Assign | apps/api/app/services/from_pdf_csv.py:116-134 | The assignment loop succeeds exactly when every fragment lies in a cell, none looks like a formula and no two share a cell; the table then holds each text in its cell and nothing else. |
| RuledTable.FillPage | apps/api/app/services/from_pdf_csv.py:95-137 | On a recognised grid a page is filled exactly when every text on it that is not blank is one untransformed line of at most 240 characters and the resulting fragments meet a condition that ignores their order; the table holds each in its cell. |
| RuledTable.FragmentIsCellText | apps/api/app/services/from_pdf_csv.py:99-111 | Every fragment that reaches a cell is one line of 1 to 240 characters without blanks around it and comes from one of the extracted texts. |
| RuledTable.TableUnique | apps/api/app/services/from_pdf_csv.py:116-137 | The fragments determine the table, whatever order they arrive in. |
| RuledTable.CellsAreFragments | apps/api/app/services/from_pdf_csv.py:116-134 | Non-empty cells and fragments are in bijection and each fragment lies inside the drawn cell it fills, rows from the top, columns from the left. |
| RuledTable.PlacedWhereItLies | apps/api/app/services/from_pdf_csv.py:119-127 | On a spaced grid a fragment is placed in a cell exactly when it lies inside it. |
| RuledGrid.Recognise | apps/api/app/services/from_pdf_csv.py:53-89 | A stroke list is accepted exactly when it draws a fully ruled rectangle and nothing else, and the lines read are its own. |
| RuledGrid.GridIsUnique | apps/api/app/services/from_pdf_csv.py:67-74 | The strokes fix the grid whatever order they are drawn in, and its lines are at least 12 apart pairwise. |
| RuledPage.ReadPage | apps/api/app/services/from_pdf_csv.py:27-137 | A page is accepted exactly when it is not rotated, its texts are readable and together with its strokes they make a table. |
| RuledPage.OneTable | apps/api/app/services/from_pdf_csv.py:27-137 | Strokes and texts determine the table, whatever order either of them comes in. |
| RuledPage.TextsFillTheirCells | apps/api/app/services/from_pdf_csv.py:67-134 | No text is lost, moved or made up: each lies inside exactly one cell of the drawn grid and is its content, and cells without a text are empty. |
| RuledTheorems.GridMeans | apps/api/app/services/from_pdf_csv.py:53-89 | The recognised grids said of the strokes: every stroke upright, level or a speck; 2 to 12 columns and 2 to 60 rows at least 12 apart; each line, at a stroke position rounded to two decimals, ruled by one stroke from edge to edge within a point; no stroke beyond the frame by more than a point. |
| RuledTheorems.AcceptableMeans | apps/api/app/services/from_pdf_csv.py:113-137 | The texts a grid accepts said of where they lie: each alone inside a cell, a point or more from its lines, none beginning with = + - or @ after blanks, a header without gaps and no empty row. |
| RuledTheorems.SpanMeans | apps/api/app/services/from_pdf_csv.py:99-111 | What becomes of one extracted text: nothing of a blank one; of any other, if between its line breaks it is one untransformed line of at most 240 characters, the text without blanks around it at its place. |
| RuledTheorems.FragmentsCounted | apps/api/app/services/from_pdf_csv.py:99-113 | Every text that is not blank gives exactly one fragment and no fragment comes from elsewhere. |
| EmbeddedImages.OrderMeansPages | apps/api/app/services/pdf_extract_embedded_images.py:147-152 | A member sequence passes the order check exactly when it lists strictly increasing pages, each numbered 1..k. |
| ImageArchive.Extract | apps/api/app/services/pdf_extract_embedded_images.py:70-113 | The archive is completed exactly when every image is acceptable and all budgets hold, and lists every image once in page and image order. |
| ImageArchive.StagingDirectory.Stage | apps/api/app/services/pdf_extract_embedded_images.py:116-171 | Staging succeeds exactly when every member is acceptable after the ones before it; a refusal leaves the directory empty; no more than the budget is ever written, not even by a staging that is refused. |
| ImageArchive.ProducedIsStageable | apps/api/app/services/pdf_extract_embedded_images.py:70-171 | Every archive the producer completes is accepted under the default budget, as the same images in the same order with ordinals 1..count. |
| ImageArchive.AcceptedExactly | apps/api/app/services/pdf_extract_embedded_images.py:133-167 | The stager's step-by-step checks accept exactly the members that pass their own checks and list strictly increasing pages, each numbered 1..k. |
| ImageArchive.StageableMeans | apps/api/app/services/pdf_extract_embedded_images.py:116-171 | What the stager accepts, written out: 50 bytes to 64 MiB of archive, 1 to 80 plain members on pages up to 200 in increasing order and numbered from 1 on each, declared and actual bytes within the budget, 50 bytes to 64 MiB each and verified as the format in the name. |
| ImageArchive.ExtractableMeans | apps/api/app/services/pdf_extract_embedded_images.py:70-113 | What the producer completes, written out: 1 to 200 pages with 1 to 80 images, each verified as the format of its suffix, with images and archive (124 bytes a member and 22 more) in 64 MiB. |
| ImageArchive.InventoryAt | apps/api/app/services/pdf_extract_embedded_images.py:82-106 | Image i of page p is the archive member after all earlier images, under the name of that page, number and format, with its own bytes. |
| RasterPages.StagingDirectory.Stage | apps/api/app/services/output_artifacts.py:25-86 | Staging succeeds exactly when every member is acceptable and none of its pages is in the directory already; no more than the budget is ever written whatever sizes an archive declares; parts are numbered 1..n over consecutive pages; bad limits leave the directory alone and any other refusal empties it, of earlier files too. |
| RasterPages.StageableMeans | apps/api/app/services/output_artifacts.py:43-62 | An accepted archive lists consecutive pages of one format and fits the budget as a whole. |
| RasterPages.StageableExactly | apps/api/app/services/output_artifacts.py:25-76 | The acceptable archives, written out: 1 to 200 plain members, consecutive pages of one format, verified as that format, with declared and actual bytes within the budget. |
| RasterPages.WithPagesMeans | apps/api/app/services/output_artifacts.py:64-86 | The directory afterwards holds what was there and each page with its bytes, and nothing else. |
| Reconciliation.Reconcile | apps/api/app/storage_reconciliation.py:73-211 | The report's counts and verdict are those of all issues of both loops, on either backend, and its details are the first ones of the issues in sorted order, categories by their text, then names. |
| ReconciliationTheorems.ReportedExactly | apps/api/app/storage_reconciliation.py:98-195 | Which issue is reported when, said of records and objects: invalid name, other backend, missing when no object has the name, duplicate when more than one has, wrong size when the only one differs, orphan when no record on the backend has the name. |
| ReconciliationTheorems.CountsMean | apps/api/app/storage_reconciliation.py:196-211 | The count of each category is the number of the records or objects in that condition. |
| Reconciliation.DetailsIgnoreScanOrder | apps/api/app/storage_reconciliation.py:196-211 | The sorted details are the same issues in key order and do not depend on the order in which the scan lists the objects. |
| Reconciliation.HealthyExactly | apps/api/app/storage_reconciliation.py:98-211 | Healthy exactly when all records are on the backend under plain names and records and objects are in a bijection that keeps names and sizes. |
| Reconciliation.HealthyTotals | apps/api/app/storage_reconciliation.py:98-211 | A healthy report means equal counts and equal total bytes. |
| Reconciliation.CountsSumToTotal | apps/api/app/storage_reconciliation.py:196-211 | The category counts sum to the number of issues also when the details are cut. |
| NonceTable.Guard.CheckNonce | ops/url-fetcher/server.py:48-56 | The purge and the insertion under the lock: a nonce is accepted exactly when its entry, if any, has expired and fewer than 1000 entries have not; afterwards the table holds the unexpired entries as they were and an accepted nonce until 100 seconds after the reading. |
| NonceTable.AcceptedExactly | ops/url-fetcher/server.py:48-161 | Over runs: a request is accepted exactly when its timestamp is within 45 seconds of the reading, no accepted request still live carries its nonce and fewer than 1000 of them are live. |
| NonceTable.AcceptedAtMostOnce | ops/url-fetcher/server.py:144-161 | A timestamp and nonce are accepted at most once in any run whose checks see clock readings out of order by at most 10 seconds. |
| NonceTable.MoreDisorderAllowsReplay | ops/url-fetcher/server.py:48-56 | The bound is exact: any larger disorder admits a run that accepts a request twice. |
| NonceTable.TableStaysBounded | ops/url-fetcher/server.py:53-55 | The table holds at most 1000 nonces after any run. |
| Settings.ParseValues | scripts/setup-rcat-workspace.py:45-52 | The reading loop: the last assignment of each key, stripped. |
| Settings.MergeSettings | scripts/setup-rcat-workspace.py:82-101 | The merging loop computes the merge the theorems are about. |
| SettingsTheorems.MergeSetsExactlyTheTargets | scripts/setup-rcat-workspace.py:82-101 | After a merge every target reads as its value and is assigned on exactly one line, and every other key reads as before. |
| SettingsTheorems.MergeIdempotent | scripts/setup-rcat-workspace.py:82-101 | Merging the same settings again changes nothing. |
| SettingsTheorems.AssignmentOf | scripts/setup-rcat-workspace.py:22-22 | A written assignment line reads back as its key and value, also for keys that start with export. |
| SettingsTheorems.AssignmentMeans | scripts/setup-rcat-workspace.py:22-22 | A line assigns a value to a key exactly when it is blanks, perhaps export and blanks, the key, blanks, an equals sign and the value. |
| SettingsTheorems.LastOneReads | scripts/setup-rcat-workspace.py:45-52 | The last assignment of a key is the one that counts, without the blanks around its value. |
| SettingsTheorems.OtherLinesKept | scripts/setup-rcat-workspace.py:82-101 | Lines that assign no target are all kept, in order; behind them stands only the comment, after an empty line if needed, when some target had to be added; what the merge makes of the first lines stays in front. |
| PageRanges.AcceptedText | apps/api/app/page_ranges.py:12-29 | Every accepted text is the print of the list it parses to, so no list has two texts. |
| PageRanges.PrintedIsAccepted | apps/api/app/page_ranges.py:12-29 | Every non-empty list within the number and length limits prints to an accepted text that parses back to it. |
| PageRanges.AcceptsExactlyPrints | apps/api/app/page_ranges.py:12-29 | The accepted texts are exactly the prints of valid lists of at most 256 characters. |
| PageRanges.DocumentedRanges | apps/api/app/page_ranges.py:1-8 | The documented texts are accepted and stand for these lists, descending ones as written. |

## Left out

- The per-operation branches of `process_job` and all PDF, raster and OCR engines: one step that yields an output with up to 200 parts or raises.
- The non-journal mode of `process_job`: its names are not attempt-unique and its writes are unfenced, so the protocol's statements are about journal mode.
- A commit or storage write that takes effect only after its client has already seen an error and moved on: an outcome is decided when the call ends.
- File records that are not job outputs (uploads), and sizes and hashes of file records: they do not decide any step of the protocol. Owners and content types enter only at the manifest, as functions of the record.
- Retention works per record; its batch commit is the sequence of those removals, and objects removed without their records are included.
- Starting the heartbeat with a TTL outside 61..3600: the class accepts such a TTL, every beat then raises and nothing is renewed; the loop covers it, the lease theorem assumes a valid TTL.
- Heartbeat.NeverLapsesExactly: assumes instantaneous, evenly spaced beats and a valid TTL; drift and slow statements are covered by the protocol's separate clock readings, without a timing bound.
- A submission whose commit of the queue's answer was refused may record an answer once more before its error branch runs; this only adds runs.
- The HTTP layer, scopes, audit, metrics, malware scanning and quota checks: they only add refusals before the modelled steps.
- WebhookTheorems.AttemptedSoon: one dispatcher with one batch size, the delivery due when each pass begins and its own job not cleared, and nothing queued or requeued at or before its due time; rows with the same due time may go first. Passes that are cut short do not count towards the bound, and nothing bounds how many there are.
- AttemptRuns.FinishIsRun: no other transaction runs between the statements of the method, as in `Attempt`, and its file ids are fresh; interleavings with other actions are those of the protocol.
- Webhook URLs, signatures, payloads and the HTTP call itself: an attempt is accepted, raises, or finds its job gone.
- RTF text extraction from a PDF: the emitter starts from pages of lines; lone surrogates, which the encoder refuses, are excluded by the type of text.
- The HTML parser and image decoding behind the CHM boundary: events and the decoded size of an acceptable image are inputs. `ChmRoundTrip.Idempotent` takes a parser that reads the checker's own output as `ChmReader` does, which knows lower-case tags with quoted attributes and the five references the boundary writes; other HTML is not read.
- PDF drawing operators: the grid starts from the list of stroked segments; coordinates are finite exact reals and two-digit rounding is exact with halves to even.
- The CSV writer and the archive around the tables.
- Image archives are sequences of named members with ZIP's fixed header sizes; compression, CRC checks and file modes are one flag.
- The scans that list objects for reconciliation, and the sizes and locations that its details carry; the last component of a path is a parameter.
- Signatures and header checks of the URL fetcher before its timestamp window.
- The quoting helpers and the secure write of the settings script.
