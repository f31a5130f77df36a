/** What the protocol promises of every run, whatever the interleaving, the clock readings,
    the lost acknowledgements and the crashes. */
module ProtocolTheorems {
  import opened Options
  import opened Rows
  import S = Statements
  import opened Protocol
  import opened ProtocolInvariant
  import opened ProtocolClosure
  import opened ProtocolRecords

  // ---- one fenced ending per job

  lemma SingleEnding(s: State)
    requires Reachable(s)
    ensures forall i, k :: 0 <= i < k < |s.ends| ==> s.ends[i].job != s.ends[k].job
  {
    ReachableInv(s);
    hide JobsOk, ClaimsOk, WorkersOk, RowsOk, ObjectsOk, FilesOk, LinksOk;
  }

  // One fenced ending: a running row is moved under its token, and no other row.
  ghost predicate Ends(jobs: map<JobId, Job>, jobs1: map<JobId, Job>, e: End) {
    && e.job in jobs && jobs[e.job].status.Running? && jobs[e.job].token == Some(e.token)
    && jobs1.Keys == jobs.Keys && (forall j :: j in jobs && j != e.job ==> jobs1[j] == jobs[j])
    && var job, job1 := jobs[e.job], jobs1[e.job];
       && job1.status == (if e.kind.ByPublish? then Completed else Failed) && job1.progress == 100
       && job1.token == (if e.kind.ByRecovery? then None else job.token)
       && (if e.kind.ByPublish? then job1.output.Some? else job1.output == job.output)
       && job1.epoch == job.epoch && job1.expires == job.expires && job1.rq == job.rq
  }

  // The history of endings is exactly the three fenced transitions of job rows: no other action
  // records an ending, and each of these three records one when it ends a job and only then.
  lemma EndingsAreTransitions(s: State, a: Action)
    ensures var s1 := Step(s, a);
            || (s1.ends == s.ends && (a.Publish? || a.MarkFailed? || a.Recover? ==> s1.db.jobs == s.db.jobs))
            || (&& (a.Publish? || a.MarkFailed? || a.Recover?)
                && |s1.ends| == |s.ends| + 1 && s.ends <= s1.ends
                && var e := s1.ends[|s.ends|];
                   && Ends(s.db.jobs, s1.db.jobs, e)
                   && (e.kind.ByPublish? <==> a.Publish?) && (e.kind.ByWorker? <==> a.MarkFailed?))
  {
    hide Step, Ends;
    if a.Publish? || a.MarkFailed? || a.Recover? {
      FencedEndings(s, a);
    } else {
      NoEnding(s, a);
    }
  }

  lemma FencedEndings(s: State, a: Action)
    requires a.Publish? || a.MarkFailed? || a.Recover?
    ensures var s1 := Step(s, a);
            || (s1.ends == s.ends && s1.db.jobs == s.db.jobs)
            || (&& |s1.ends| == |s.ends| + 1 && s.ends <= s1.ends
                && var e := s1.ends[|s.ends|];
                   && Ends(s.db.jobs, s1.db.jobs, e)
                   && (e.kind.ByPublish? <==> a.Publish?) && (e.kind.ByWorker? <==> a.MarkFailed?))
  {
    hide DoPublish, DoMarkFailed, DoRecover, Ends;
    match a {
      case Publish(t, ids, net) => PublishTransition(s, t, ids, net);
      case MarkFailed(t, net) => FailTransition(s, t, net);
      case Recover(r, net) => RecoverTransition(s, r, net);
    }
  }

  lemma NoEnding(s: State, a: Action)
    requires !a.Publish? && !a.MarkFailed? && !a.Recover?
    ensures Step(s, a).ends == s.ends
  {
    hide Step;
    if WritesRecords(a) {
      WriterEndsNothing(s, a);
    } else {
      OtherSteps(s, a);
    }
  }

  lemma WriterEndsNothing(s: State, a: Action)
    requires a.InsertRows? || a.Compensate? || a.PurgeObject? || a.PurgeRecord?
    ensures Step(s, a).ends == s.ends
  {
    hide DoInsertRows, DoCompensate, DoPurgeObject, DoPurgeRecord;
    match a {
      case InsertRows(t, net) => ReservationEndsNothing(s, t, net);
      case Compensate(t, net) => ClassificationEndsNothing(s, t, net);
      case PurgeObject(nm) => RemovalEndsNothing(s, nm, false);
      case PurgeRecord(nm, clearOutput) => RemovalEndsNothing(s, nm, clearOutput);
    }
  }

  lemma FailTransition(s: State, t: Token, net: Net)
    ensures var s1 := DoMarkFailed(s, t, net);
            || (s1.ends == s.ends && s1.db.jobs == s.db.jobs)
            || (&& t in s.workers
                && var e := End(ByWorker, s.workers[t].job, t);
                   s1.ends == s.ends + [e] && Ends(s.db.jobs, s1.db.jobs, e))
  {
    hide S.MarkFailed;
    if t in s.workers && s.workers[t].sample.Some? {
      var w := s.workers[t];
      if S.MarkFailed(s.db, w.job, t, w.sample.value).Some? {
        FailedRow(s.db, w.job, t, w.sample.value);
      }
    }
  }

  lemma FailedRow(db: Db, j: JobId, t: Token, now: int)
    requires S.MarkFailed(db, j, t, now).Some?
    ensures Ends(db.jobs, S.MarkFailed(db, j, t, now).value.jobs, End(ByWorker, j, t))
  {
  }

  lemma RecoverTransition(s: State, r: nat, net: Net)
    ensures var s1 := DoRecover(s, r, net);
            || (s1.ends == s.ends && s1.db.jobs == s.db.jobs)
            || (&& r in s.evidence
                && var e := End(ByRecovery, s.evidence[r].job, s.evidence[r].token);
                   s1.ends == s.ends + [e] && Ends(s.db.jobs, s1.db.jobs, e))
  {
  }

  lemma PublishTransition(s: State, t: Token, ids: seq<FileId>, net: Net)
    ensures var s1 := DoPublish(s, t, ids, net);
            || (s1.ends == s.ends && s1.db.jobs == s.db.jobs)
            || (&& t in s.workers
                && var e := End(ByPublish, s.workers[t].job, t);
                   s1.ends == s.ends + [e] && Ends(s.db.jobs, s1.db.jobs, e))
  {
    hide S.Publish, FreshIds, NameIds;
    if t in s.workers && s.workers[t].sample.Some? && |ids| > 0 {
      var w := s.workers[t];
      if S.Publish(s.db, w.job, t, w.sample.value, w.bundle, ids).Some? {
        PublishedStatus(s.db, w.job, t, w.sample.value, w.bundle, ids);
      }
    }
  }

  // Once a job has ended, or is terminal for any other reason, its row stays terminal while it
  // exists, and no fenced statement of any attempt, no claim and no recovery matches it again, for
  // the rest of every run.
  lemma EndedJobIsClosed(s: State, run: seq<Action>, j: JobId)
    requires Reachable(s)
    requires (exists i :: 0 <= i < |s.ends| && s.ends[i].job == j) || (j in s.db.jobs && Terminal(s.db.jobs[j].status))
    ensures var db := Exec(s, run).db;
            && (j in db.jobs ==> Terminal(db.jobs[j].status))
            && (forall t, now :: !S.Fenced(db, j, t, now))
            && (forall t, now, ttl :: S.Claim(db, j, t, now, ttl).None?)
            && (forall e: S.Evidence :: e.job == j ==> S.Recover(db, e).None?)
  {
    ReachableInv(s);
    RunOnward(s, run);
    EndedIsTerminal(s, j);
  }

  lemma EndedIsTerminal(s: State, j: JobId)
    requires Inv(s)
    requires (exists i :: 0 <= i < |s.ends| && s.ends[i].job == j) || (j in s.db.jobs && Terminal(s.db.jobs[j].status))
    ensures j in s.usedJobs && (j in s.db.jobs ==> Terminal(s.db.jobs[j].status))
  {
    hide ClaimsOk, WorkersOk, RowsOk, ObjectsOk, FilesOk, LinksOk;
  }

  // A terminal status is changed by two actions only, and exactly when they find it different:
  // the second half of a cancel request whose read saw the job live, and the error branch of a
  // submission whose enqueue call had not returned. Neither write has a status predicate.
  lemma TerminalChangesExactly(s: State, a: Action, j: JobId)
    requires Reachable(s) && j in s.db.jobs && Terminal(s.db.jobs[j].status) && j in Step(s, a).db.jobs
    ensures Step(s, a).db.jobs[j].status != s.db.jobs[j].status <==>
            || (a.CancelWrite? && a.c in s.cancels && s.cancels[a.c] == j && !s.db.jobs[j].status.Cancelled?)
            || (a.EnqueueRaised? && a.j == j && j in s.enqueuing && !s.db.jobs[j].status.Failed?)
  {
    hide DoCancelWrite, DoEnqueueRaised;
    match a {
      case CancelWrite(c) => CancelChanges(s, c, j);
      case EnqueueRaised(i) => EnqueueErrorChanges(s, i, j);
      case _ =>
        hide Step;
        IdsUsed(s);
        OthersKeepTerminal(s, a, j);
    }
  }

  lemma IdsUsed(s: State)
    requires Reachable(s)
    ensures s.db.jobs.Keys <= s.usedJobs
  {
    ReachableInv(s);
    JobsUsed(s);
  }

  lemma OthersKeepTerminal(s: State, a: Action, j: JobId)
    requires j in s.db.jobs && Terminal(s.db.jobs[j].status) && j in Step(s, a).db.jobs && j in s.usedJobs
    requires !a.CancelWrite? && !a.EnqueueRaised?
    ensures Step(s, a).db.jobs[j].status == s.db.jobs[j].status
  {
    hide Quiet, Busy;
    if !(a.CreateJob? || a.ClearTerminal? || a.Tick?) {
      hide Step;
      StepKind(s, a);
      KeepsTerminal(s, Step(s, a), j, a.Beat?);
    }
  }

  lemma CancelChanges(s: State, c: nat, j: JobId)
    requires j in s.db.jobs
    ensures j in DoCancelWrite(s, c).db.jobs
    ensures DoCancelWrite(s, c).db.jobs[j].status != s.db.jobs[j].status <==>
            c in s.cancels && s.cancels[c] == j && !s.db.jobs[j].status.Cancelled?
  {
  }

  lemma EnqueueErrorChanges(s: State, i: JobId, j: JobId)
    requires j in s.db.jobs
    ensures j in DoEnqueueRaised(s, i).db.jobs
    ensures DoEnqueueRaised(s, i).db.jobs[j].status != s.db.jobs[j].status <==>
            i == j && i in s.enqueuing && !s.db.jobs[j].status.Failed?
  {
  }

  lemma KeepsTerminal(s: State, s1: State, j: JobId, renewal: bool)
    requires j in s.db.jobs && Terminal(s.db.jobs[j].status) && (Quiet(s, s1) || Busy(s, s1, renewal, false))
    ensures j in s1.db.jobs && s1.db.jobs[j].status == s.db.jobs[j].status
  {
  }

  // ---- one claim per job

  ghost function ClaimsOf(s: State, j: JobId): set<Token> {
    set t | t in s.workers && s.workers[t].job == j
  }

  lemma ClaimOnce(s: State, j: JobId)
    requires Reachable(s)
    ensures |ClaimsOf(s, j)| <= 1
    ensures j in s.db.jobs ==> s.db.jobs[j].epoch == |ClaimsOf(s, j)|
    ensures j in s.db.jobs && s.db.jobs[j].status.Queued? ==> ClaimsOf(s, j) == {}
    ensures j in s.db.jobs && s.db.jobs[j].status.Running? ==>
              s.db.jobs[j].token.Some? && ClaimsOf(s, j) == {s.db.jobs[j].token.value}
  {
    ReachableInv(s);
    hide WorkersOk, RowsOk, ObjectsOk, FilesOk, LinksOk, EndsOk;
    if j in s.claims {
      assert ClaimsOf(s, j) == {s.claims[j]};
    } else {
      assert ClaimsOf(s, j) == {};
    }
    if j in s.db.jobs {
      JobAt(s, j);
    }
  }

  // No action requeues a job, so duplicate deliveries of a claimed job find nothing to claim.
  lemma NeverRequeued(s: State, run: seq<Action>, j: JobId)
    requires Reachable(s) && j in s.usedJobs && (j in s.db.jobs ==> !s.db.jobs[j].status.Queued?)
    ensures j in Exec(s, run).db.jobs ==> !Exec(s, run).db.jobs[j].status.Queued?
  {
    ReachableInv(s);
    RunOnward(s, run);
  }

  // ---- write-ahead

  lemma WriteAhead(s: State)
    requires Reachable(s)
    // every stored object has a durable row
    ensures forall nm :: nm in s.objects ==> nm in s.db.journal
    // an object without a file record has a row that keeps it visible for review
    ensures forall nm :: nm in s.objects && nm !in s.db.files ==>
      s.db.journal[nm].state.Planned? || s.db.journal[nm].state.NeedsReview?
    // a compensated row has neither object nor file record
    ensures forall nm :: nm in s.db.journal && s.db.journal[nm].state.Compensated? ==>
              nm !in s.objects && nm !in s.db.files
    // a file record is exactly what its committed row says
    ensures forall nm :: nm in s.db.files ==>
      nm in s.db.journal && s.db.journal[nm].state.Committed? && s.db.journal[nm].file == Some(s.db.files[nm])
  {
    ReachableInv(s);
    hide JobsOk, ClaimsOk, WorkersOk, LinksOk, EndsOk;
  }

  // The row is durable before the write: when a worker stands at a storage call,
  // the destination's planned row is already committed.
  lemma ReservedBeforeStored(s: State, t: Token)
    requires Reachable(s) && t in s.workers && s.workers[t].pc.AtStore?
    ensures s.workers[t].attempted > 0
    ensures var nm := SlotName(s.workers[t], t, s.workers[t].attempted - 1);
            nm in s.db.journal && s.db.journal[nm].state.Planned?
  {
    ReachableInv(s);
    WritableRow(s, t);
  }

  // Cleanup after a failure never deletes an object that a committed file record owns.
  lemma CleanupSparesFiles(s: State, t: Token, io: Io)
    requires Reachable(s)
    ensures forall nm :: nm in s.db.files && nm in s.objects ==> nm in DoDelete(s, t, io).objects
  {
    hide Inv;
    ReachableInv(s);
    if t in s.workers {
      WorkerAt(s, t);
    }
  }

  // ---- publication is all or nothing

  // Nothing of the attempt is visible.
  ghost predicate Unpublished(s: State, t: Token) {
    && (forall nm :: nm in s.db.journal && nm.token == t ==>
        !s.db.journal[nm].state.Committed? && s.db.journal[nm].file.None?)
    && (forall nm :: nm in s.db.files ==> nm.token != t)
    && (forall l :: l in s.db.links ==> l.file in s.named && s.named[l.file].token != t)
  }

  // The complete set: every slot up to the last part is committed to a file of its own, with its
  // record and its link. A record can be missing only if the removal of that very file has begun,
  // and a link only for the same reason or because the finished job's row was cleared.
  ghost predicate FullyPublished(s: State, t: Token)
    requires t in s.workers
  {
    var w := s.workers[t];
    && (forall k :: 0 <= k <= w.parts ==>
          var nm := Name(w.job, t, k);
          && nm in s.db.journal && s.db.journal[nm].state.Committed? && s.db.journal[nm].file.Some?
          && s.db.journal[nm].role == (if k > 0 then Part else if w.bundle then Bundle else Result)
          && (nm in s.db.files || nm in s.purging)
          && (nm in s.db.files ==> Some(s.db.files[nm]) == s.db.journal[nm].file)
          && (w.job in s.db.jobs && (nm in s.db.files || nm !in s.purging) ==>
                Link(w.job, s.db.journal[nm].file.value, s.db.journal[nm].role, if k > 0 then Some(k) else None)
                in s.db.links))
    && (forall nm :: nm in s.db.journal && nm.token == t ==> nm.job == w.job && nm.slot <= w.parts)
    && (forall k, m :: 0 <= k < m <= w.parts ==>
          s.db.journal[Name(w.job, t, k)].file != s.db.journal[Name(w.job, t, m)].file)
    && (w.job in s.db.jobs ==> Terminal(s.db.jobs[w.job].status))
  }

  lemma PublicationAtomic(s: State, t: Token)
    requires Reachable(s) && t in s.workers
    ensures if s.workers[t].published then FullyPublished(s, t) else Unpublished(s, t)
  {
    ReachableInv(s);
    if s.workers[t].published {
      CommittedHaveFiles(s);
      PublishedIsComplete(s, t);
    } else {
      UnpublishedIsInvisible(s, t);
    }
  }

  lemma RowAt(s: State, nm: Name)
    requires Inv(s) && nm in s.db.journal
    ensures nm.token in s.workers
    ensures RowOk(nm, s.db.journal[nm], s.workers[nm.token], nm in s.db.files, nm in s.objects, s.named)
  {
    hide JobsOk, ClaimsOk, WorkersOk, ObjectsOk, FilesOk, LinksOk, EndsOk, RowOk;
  }

  lemma PublishedIsComplete(s: State, t: Token)
    requires Inv(s) && t in s.workers && s.workers[t].published
    requires RecordsKept(s.db.journal, s.db.files, s.purging)
    ensures FullyPublished(s, t)
  {
    hide Inv, RowOk, WorkerOk;
    var w := s.workers[t];
    PublishedWorker(s, t);
    ReservedSlots(s, t);
    forall nm | nm in s.db.journal && nm.token == t
      ensures PublishedRow(s, nm, w)
    {
      PublishedRowAt(s, nm);
    }
    forall k | 0 <= k <= w.parts
      ensures Name(w.job, t, k) in s.db.journal && PublishedRow(s, Name(w.job, t, k), w)
    {
      assert Name(w.job, t, k) in Slots(w.job, t, w.parts);
    }
  }

  // A row of a published attempt: committed to a file of its own name, with its link.
  ghost predicate PublishedRow(s: State, nm: Name, w: Worker)
    requires nm in s.db.journal
  {
    var row := s.db.journal[nm];
    && nm.job == w.job && nm.slot <= w.parts && row.state.Committed? && row.role == RoleOf(w.bundle, nm.slot)
    && row.file.Some? && row.file.value in s.named && s.named[row.file.value] == nm
    && (nm in s.db.files ==> Some(s.db.files[nm]) == row.file)
    && (nm in s.db.files && w.job in s.db.jobs ==>
          Link(w.job, s.db.files[nm], RoleOf(w.bundle, nm.slot), OrdinalOf(nm.slot)) in s.db.links)
  }

  lemma PublishedRowAt(s: State, nm: Name)
    requires Inv(s) && nm in s.db.journal && nm.token in s.workers && s.workers[nm.token].published
    ensures PublishedRow(s, nm, s.workers[nm.token])
  {
    RowAt(s, nm);
    hide JobsOk, ClaimsOk, ObjectsOk, EndsOk, WorkersOk, RowsOk;
    if nm in s.db.files && nm.job in s.db.jobs {
      assert LinkFor(nm, s.db.files[nm], s.workers[nm.token].bundle) in s.db.links;
    }
  }

  lemma ReservedSlots(s: State, t: Token)
    requires Inv(s) && t in s.workers && s.workers[t].reserved
    ensures Slots(s.workers[t].job, t, s.workers[t].parts) <= s.db.journal.Keys
  {
    hide JobsOk, ClaimsOk, ObjectsOk, EndsOk, WorkersOk, FilesOk, LinksOk;
  }

  lemma PublishedWorker(s: State, t: Token)
    requires Inv(s) && t in s.workers && s.workers[t].published
    ensures s.workers[t].reserved && (s.workers[t].job in s.db.jobs ==> Terminal(s.db.jobs[s.workers[t].job].status))
  {
    WorkerAt(s, t);
    hide Inv;
  }

  lemma UnpublishedIsInvisible(s: State, t: Token)
    requires Inv(s) && t in s.workers && !s.workers[t].published
    ensures Unpublished(s, t)
  {
    hide JobsOk, ClaimsOk, ObjectsOk, EndsOk, WorkersOk;
    forall nm | nm in s.db.journal && nm.token == t
      ensures !s.db.journal[nm].state.Committed? && s.db.journal[nm].file.None?
    {
      RowAt(s, nm);
    }
  }

  // One slot of the published set.
  ghost predicate SlotPublished(db: Db, j: JobId, t: Token, bundle: bool, ids: seq<FileId>, k: nat)
    requires k < |ids|
  {
    var nm := Name(j, t, k);
    && nm in db.files && db.files[nm] == ids[k]
    && nm in db.journal && db.journal[nm].state.Committed? && db.journal[nm].file == Some(ids[k])
    && Link(j, ids[k], if k > 0 then Part else if bundle then Bundle else Result, if k > 0 then Some(k) else None)
       in db.links
  }

  lemma PublishedSlot(db: Db, j: JobId, t: Token, now: int, bundle: bool, ids: seq<FileId>, k: nat)
    requires k < |ids| && S.Publish(db, j, t, now, bundle, ids).Some?
    ensures SlotPublished(S.Publish(db, j, t, now, bundle, ids).value, j, t, bundle, ids, k)
  {
    assert Name(j, t, k) in Slots(j, t, |ids| - 1);
    assert Link(j, ids[k], RoleOf(bundle, k), OrdinalOf(k)) in S.PublishedLinks(j, bundle, ids);
  }

  // The transaction that publishes makes the whole set at once, and its root is the output it sets.
  lemma PublishMakesTheSet(s: State, t: Token, ids: seq<FileId>, net: Net)
    requires Reachable(s) && Publishing(s, t, ids) && !net.Refused?
    ensures Unpublished(s, t)
    ensures var db, w := DoPublish(s, t, ids, net).db, s.workers[t];
            && w.job in db.jobs && db.jobs[w.job].output == Some(ids[0]) && db.jobs[w.job].status.Completed?
            && (forall k :: 0 <= k <= w.parts ==> SlotPublished(db, w.job, t, w.bundle, ids, k))
  {
    hide Inv, SlotPublished, Unpublished, S.Publish, DoPublish, Publishing;
    ReachableInv(s);
    PublishedDb(s, t, ids, net);
    NotYetPublished(s, t, ids);
    var w := s.workers[t];
    PublishedStatus(s.db, w.job, t, w.sample.value, w.bundle, ids);
    forall k | 0 <= k <= w.parts
      ensures SlotPublished(DoPublish(s, t, ids, net).db, w.job, t, w.bundle, ids, k)
    {
      PublishedSlot(s.db, w.job, t, w.sample.value, w.bundle, ids, k);
    }
  }

  lemma PublishedDb(s: State, t: Token, ids: seq<FileId>, net: Net)
    requires Publishing(s, t, ids) && !net.Refused?
    ensures t in s.workers && s.workers[t].sample.Some? && |ids| == s.workers[t].parts + 1
    ensures var w := s.workers[t];
      var p := S.Publish(s.db, w.job, t, w.sample.value, w.bundle, ids);
      p.Some? && DoPublish(s, t, ids, net).db == p.value
  {
    hide S.Publish, FreshIds, NameIds;
  }

  lemma NotYetPublished(s: State, t: Token, ids: seq<FileId>)
    requires Inv(s) && Publishing(s, t, ids)
    ensures t in s.workers && Unpublished(s, t)
  {
    hide Inv, FreshIds, Unpublished;
    UnpublishedRows(s, t);
    UnpublishedIsInvisible(s, t);
  }

  // While a job is queued or running none of its attempts has published anything.
  lemma NothingPublishedBeforeCompletion(s: State, t: Token)
    requires Reachable(s) && t in s.workers
    requires s.workers[t].job in s.db.jobs && !Terminal(s.db.jobs[s.workers[t].job].status)
    ensures Unpublished(s, t) && s.db.jobs[s.workers[t].job].output.None?
  {
    ReachableInv(s);
    WorkerAt(s, t);
    UnpublishedIsInvisible(s, t);
    JobAt(s, s.workers[t].job);
    hide WorkersOk, RowsOk, ObjectsOk, FilesOk, LinksOk, EndsOk, JobsOk;
  }

  // Recovery's guard against committed rows never fires once its other guards have passed.
  lemma CommittedGuardNeverFires(s: State, j: JobId, epoch: nat, rq: RqId, now: int, grace: int)
    requires Reachable(s) && S.Recoverable(s.db, j, epoch, rq, now, grace)
    ensures !S.CommittedRow(s.db, j, epoch)
  {
    ReachableInv(s);
    hide JobsOk, ObjectsOk, FilesOk, LinksOk, EndsOk, RowsOk, WorkersOk, ClaimsOk;
    forall nm | nm in s.db.journal && s.db.journal[nm].job == j
      ensures !s.db.journal[nm].state.Committed?
    {
      RowAt(s, nm);
      WorkerAt(s, nm.token);
    }
  }

  // The output of a job, when set, names the root of its only attempt.
  lemma OutputIsRoot(s: State, j: JobId)
    requires Reachable(s) && j in s.db.jobs && s.db.jobs[j].output.Some?
    ensures s.db.jobs[j].token.Some?
    ensures var nm := Name(j, s.db.jobs[j].token.value, 0);
            && nm in s.db.journal && s.db.journal[nm].state.Committed? && s.db.journal[nm].file == s.db.jobs[j].output
            && (nm in s.db.files ==> Some(s.db.files[nm]) == s.db.jobs[j].output)
  {
    ReachableInv(s);
    hide ObjectsOk, LinksOk, EndsOk, RowsOk, WorkersOk, ClaimsOk;
    JobAt(s, j);
    RowAt(s, Name(j, s.db.jobs[j].token.value, 0));
  }

  // The row a route finished without a status predicate: its status and progress and nothing else.
  ghost predicate Overwritten(db: Db, db1: Db, j: JobId, st: Status) {
    && db1.journal == db.journal && db1.files == db.files && db1.links == db.links && db1.jobs.Keys == db.jobs.Keys
    && forall i :: i in db.jobs ==>
         && db1.jobs[i].status == (if i == j then st else db.jobs[i].status)
         && db1.jobs[i].progress == (if i == j then 100 else db.jobs[i].progress)
         && db1.jobs[i].output == db.jobs[i].output && db1.jobs[i].token == db.jobs[i].token
         && db1.jobs[i].epoch == db.jobs[i].epoch && db1.jobs[i].expires == db.jobs[i].expires
         && db1.jobs[i].rq == db.jobs[i].rq
  }

  // A submission starts queued at nought. A cancel writes after it has read an enqueued, unfinished
  // job; an error of the queue fails the submission; neither touches a file, a link or the journal.
  lemma RouteWrites(s: State, a: Action)
    ensures a.CreateJob? && a.j !in s.usedJobs ==>
              Step(s, a).db.jobs == s.db.jobs[a.j := Job(Queued, 0, 0, None, None, None, None)]
    ensures a.CancelRead? && a.c !in s.cancels ==>
              (a.c in Step(s, a).cancels <==>
                && a.j in s.db.jobs && s.db.jobs[a.j].rq.Some?
                && (s.db.jobs[a.j].status.Queued? || s.db.jobs[a.j].status.Running?))
    ensures a.CancelWrite? && a.c in s.cancels ==> Overwritten(s.db, Step(s, a).db, s.cancels[a.c], Cancelled)
    ensures a.EnqueueRaised? && a.j in s.enqueuing ==> Overwritten(s.db, Step(s, a).db, a.j, Failed)
  {
    match a {
      case CreateJob(j) =>
      case CancelRead(c, j) =>
      case CancelWrite(c) =>
        if c in s.cancels {
          OverwriteMeans(s.db, s.cancels[c], Cancelled);
        }
        hide S.Overwrite, Overwritten;
      case EnqueueRaised(j) =>
        OverwriteMeans(s.db, j, Failed);
        hide S.Overwrite, Overwritten;
      case _ =>
        hide Step;
    }
  }

  lemma OverwriteMeans(db: Db, j: JobId, st: Status)
    ensures Overwritten(db, S.Overwrite(db, j, st), j, st)
  {
  }

  // The database without these jobs and their links; no file is removed with them.
  ghost predicate Cleared(db: Db, db1: Db, js: set<JobId>) {
    && (forall j :: j in db1.jobs <==> j in db.jobs && j !in js)
    && (forall j :: j in db1.jobs ==> db1.jobs[j] == db.jobs[j])
    && (forall l :: l in db1.links <==> l in db.links && l.job !in js)
    && db1.files == db.files && db1.journal == db.journal
  }

  // Finished jobs are cleared; the clearing is refused when any of them is not finished.
  lemma ClearWrites(s: State, js: set<JobId>)
    ensures var db1 := Step(s, ClearTerminal(js)).db;
      if forall j :: j in js ==> j in s.db.jobs && !s.db.jobs[j].status.Queued? && !s.db.jobs[j].status.Running?
      then Cleared(s.db, db1, js) else db1 == s.db
  {
    ClearMeans(s.db, js);
    hide S.Clear, Cleared;
  }

  lemma ClearMeans(db: Db, js: set<JobId>)
    ensures Cleared(db, S.Clear(db, js), js)
  {
  }

  // A running job whose deadline has passed by the grace is recovered by an inspection and an update
  // with nothing in between.
  lemma ExpiredIsRecovered(s: State, r: nat, j: JobId, epoch: nat, rq: RqId, now: int, grace: int)
    requires Reachable(s) && r !in s.evidence && epoch >= 1 && grace >= 60
    requires j in s.db.jobs && s.db.jobs[j].status.Running? && s.db.jobs[j].output.None?
    requires s.db.jobs[j].token.Some? && s.db.jobs[j].epoch == epoch && s.db.jobs[j].rq == Some(rq)
    requires s.db.jobs[j].expires.Some? && s.db.jobs[j].expires.value + grace <= now
    ensures var job, s1 := s.db.jobs[j], Step(Step(s, Inspect(r, j, epoch, rq, now, grace)), Recover(r, Ack));
      && s1.db.jobs == s.db.jobs[j := job.(status := Failed, progress := 100, token := None)]
      && s1.ends == s.ends + [End(ByRecovery, j, job.token.value)]
  {
    CommittedGuardNeverFires(s, j, epoch, rq, now, grace);
    hide Reachable, S.CommittedRow;
  }

  // The removal of a file's object is noted until its record is gone.
  lemma RemovalBegins(s: State, nm: Name)
    ensures var s1 := Step(s, PurgeObject(nm));
      if nm in s.db.files then s1.purging == s.purging + {nm} && s1.objects == s.objects - {nm} && s1.db == s.db
      else s1 == s
  {
  }

  // The removal of a file takes its record and its links, no others, and at most the output pointers
  // to it.
  lemma RemovalWrites(s: State, nm: Name, clearOutput: bool)
    requires nm in s.purging && nm in s.db.files
    ensures var db, db1, f := s.db, Step(s, PurgeRecord(nm, clearOutput)).db, s.db.files[nm];
      && (forall m :: m in db1.files <==> m in db.files && m != nm)
      && (forall m :: m in db1.files ==> db1.files[m] == db.files[m])
      && (forall l :: l in db1.links <==> l in db.links && l.file != f)
      && db1.jobs.Keys == db.jobs.Keys && db1.journal == db.journal
      && (forall j :: j in db.jobs ==>
            db1.jobs[j]
            == if clearOutput && db.jobs[j].output == Some(f) then db.jobs[j].(output := None) else db.jobs[j])
  {
  }
}
