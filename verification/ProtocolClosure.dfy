/** Closure of the job states over whole runs: no action revives a terminal job, requeues a
    job or reuses a deleted id. */
module ProtocolClosure {
  import opened Options
  import opened Rows
  import S = Statements
  import opened Protocol
  import opened ProtocolInvariant

  predicate JobOnward(job: Job, job1: Job) {
    (Terminal(job.status) ==> Terminal(job1.status)) && (!job.status.Queued? ==> !job1.status.Queued?)
  }

  // A job that left the queue is never queued again and a terminal job stays terminal,
  // unless its row is deleted; deleted ids are never reused.
  ghost predicate JobsOnward(jobs: Jobs, jobs1: Jobs, used: set<JobId>, used1: set<JobId>) {
    && used <= used1
    && (forall j :: j in jobs1 && j in used ==> j in jobs && JobOnward(jobs[j], jobs1[j]))
  }

  ghost predicate WorkersOnward(workers: Workers, workers1: Workers) {
    forall t :: t in workers ==> t in workers1 && workers1[t].job == workers[t].job
  }

  ghost predicate Onward(s: State, s1: State) {
    && JobsOnward(s.db.jobs, s1.db.jobs, s.usedJobs, s1.usedJobs)
    && WorkersOnward(s.workers, s1.workers)
    && s.ends <= s1.ends
  }

  // A reading is kept, dropped or taken from the clock now.
  predicate ReadingStep(r: Option<int>, r1: Option<int>, clock: int) {
    r1.Some? ==> r1 == r || r1.value == clock
  }

  predicate WorkerForward(w: Worker, v: Worker, clock: int) {
    v.job == w.job && ReadingStep(w.sample, v.sample, clock) && ReadingStep(w.beat, v.beat, clock)
  }

  ghost predicate WorkersStep(workers: Workers, workers1: Workers, clock: int) {
    forall t :: t in workers ==> t in workers1 && WorkerForward(workers[t], workers1[t], clock)
  }

  lemma OneWorker(s: State, s1: State, t: Token)
    requires s1.workers == s.workers
             || (t in s.workers && t in s1.workers && s1.workers == s.workers[t := s1.workers[t]]
                                         && WorkerForward(s.workers[t], s1.workers[t], s.clock))
    ensures WorkersStep(s.workers, s1.workers, s.clock)
  {
  }

  // A step that touches no job row and records no ending.
  ghost predicate Quiet(s: State, s1: State) {
    && s1.db.jobs == s.db.jobs && s1.usedJobs == s.usedJobs && s1.ends == s.ends && s1.clock == s.clock
    && WorkersStep(s.workers, s1.workers, s.clock)
  }

  lemma SampleQuiet(s: State, t: Token)
    ensures Quiet(s, DoSample(s, t))
  {
    hide WorkersStep;
    OneWorker(s, DoSample(s, t), t);
  }

  lemma ConvertQuiet(s: State, t: Token, parts: nat, bundle: bool)
    ensures Quiet(s, DoConvert(s, t, parts, bundle))
  {
    hide WorkersStep;
    OneWorker(s, DoConvert(s, t, parts, bundle), t);
  }

  lemma RaiseQuiet(s: State, t: Token)
    ensures Quiet(s, DoRaise(s, t))
  {
    hide WorkersStep;
    OneWorker(s, DoRaise(s, t), t);
  }

  lemma CheckLeaseQuiet(s: State, t: Token)
    ensures Quiet(s, DoCheckLease(s, t))
  {
    hide WorkersStep, S.Fenced;
    OneWorker(s, DoCheckLease(s, t), t);
  }

  lemma CrashQuiet(s: State, t: Token)
    ensures Quiet(s, DoCrash(s, t))
  {
    hide WorkersStep;
    OneWorker(s, DoCrash(s, t), t);
  }

  lemma BeatSampleQuiet(s: State, t: Token)
    ensures Quiet(s, DoBeatSample(s, t))
  {
    hide WorkersStep;
    OneWorker(s, DoBeatSample(s, t), t);
  }

  lemma RefreshQuiet(s: State, t: Token)
    ensures Quiet(s, DoRefresh(s, t))
  {
    hide WorkersStep;
    OneWorker(s, DoRefresh(s, t), t);
  }

  lemma CheckDestQuiet(s: State, t: Token)
    ensures Quiet(s, DoCheckDest(s, t))
  {
    hide WorkersStep;
    OneWorker(s, DoCheckDest(s, t), t);
  }

  lemma LookUpShape(s: State, t: Token, raised: bool)
    ensures var s1 := DoLookUp(s, t, raised);
      s1 == s || (&& t in s.workers
                  && var w := s.workers[t];
                     || s1 == SetWorker(s, t, Goto(w, AtCompensate)) || s1 == SetWorker(s, t, Goto(w, AtDelete))
                     || (w.cursor > 0 && s1 == SetWorker(s, t, w.(cursor := w.cursor - 1))))
  {
    hide SetWorker, Goto, SlotName;
  }

  lemma LookUpQuiet(s: State, t: Token, raised: bool)
    ensures Quiet(s, DoLookUp(s, t, raised))
  {
    hide WorkersStep, DoLookUp;
    LookUpShape(s, t, raised);
    OneWorker(s, DoLookUp(s, t, raised), t);
  }

  lemma WindUpQuiet(s: State, t: Token)
    ensures Quiet(s, DoRefreshFailed(s, t))
  {
    hide WorkersStep;
    OneWorker(s, DoRefreshFailed(s, t), t);
  }

  lemma ReservedJobs(db: Db, w: Worker, t: Token)
    ensures var r := S.Reserve(db, w.job, t, w.epoch, w.bundle, w.parts);
      r.Some? ==> r.value.jobs == db.jobs && r.value.files == db.files
  {
    hide S.PlannedRows;
  }

  lemma InsertRowsQuiet(s: State, t: Token, net: Net)
    ensures Quiet(s, DoInsertRows(s, t, net))
  {
    hide WorkersStep, S.Reserve;
    if t in s.workers {
      ReservedJobs(s.db, s.workers[t], t);
    }
    OneWorker(s, DoInsertRows(s, t, net), t);
  }

  lemma StoreQuiet(s: State, t: Token, io: Io)
    ensures Quiet(s, DoStore(s, t, io))
  {
    hide WorkersStep;
    OneWorker(s, DoStore(s, t, io), t);
  }

  lemma DeleteQuiet(s: State, t: Token, io: Io)
    ensures Quiet(s, DoDelete(s, t, io))
  {
    hide WorkersStep;
    OneWorker(s, DoDelete(s, t, io), t);
  }

  lemma CompensateQuiet(s: State, t: Token, net: Net)
    ensures Quiet(s, DoCompensate(s, t, net))
  {
    hide WorkersStep, Confirmed;
    OneWorker(s, DoCompensate(s, t, net), t);
  }

  // The lease of a job that stays running.
  predicate SameLease(job: Job, job1: Job) {
    job.status.Running? && job1.status.Running? ==> job1.token == job.token && job1.expires == job.expires
  }

  // A step that updates job rows without reviving any; only a renewal moves a lease and only
  // an unconditional route write changes the status of a terminal job.
  ghost predicate Busy(s: State, s1: State, renewal: bool, route: bool) {
    && s1.db.jobs.Keys == s.db.jobs.Keys && s1.usedJobs == s.usedJobs && s1.clock == s.clock
    && WorkersStep(s.workers, s1.workers, s.clock)
    && (forall j :: j in s.db.jobs ==>
          && JobOnward(s.db.jobs[j], s1.db.jobs[j])
          && (renewal || SameLease(s.db.jobs[j], s1.db.jobs[j]))
          && (route || !Terminal(s.db.jobs[j].status) || s1.db.jobs[j].status == s.db.jobs[j].status))
    && s.ends <= s1.ends
  }

  // A step that updates at most one job row.
  lemma OneJob(s: State, s1: State, j: JobId, renewal: bool, route: bool)
    requires s1.usedJobs == s.usedJobs && s1.clock == s.clock && s.ends <= s1.ends
    requires WorkersStep(s.workers, s1.workers, s.clock)
    requires s1.db.jobs == s.db.jobs
             || (&& j in s.db.jobs && j in s1.db.jobs && s1.db.jobs == s.db.jobs[j := s1.db.jobs[j]]
                 && JobOnward(s.db.jobs[j], s1.db.jobs[j]) && (renewal || SameLease(s.db.jobs[j], s1.db.jobs[j]))
                 && (route || !Terminal(s.db.jobs[j].status) || s1.db.jobs[j].status == s.db.jobs[j].status))
    ensures Busy(s, s1, renewal, route)
  {
    hide WorkersStep;
  }

  // What a progress update can change: the progress of the worker's running job, and its worker.
  lemma ProgressShape(s: State, t: Token, net: Net)
    ensures var s1 := DoProgress(s, t, net);
      && s1 == s.(db := s.db.(jobs := s1.db.jobs), workers := s1.workers)
      && (s1 == s
          || (&& t in s.workers && t in s1.workers && s1.workers == s.workers[t := s1.workers[t]]
              && (s1.workers[t] == ToFailure(s.workers[t]) || s1.workers[t] == Goto(s.workers[t], AtConvert)
                  || s1.workers[t] == Goto(s.workers[t], AtRefresh))
              && (s1.db.jobs == s.db.jobs || ProgressMade(s.db.jobs, s1.db.jobs, s.workers[t].job))))
  {
    hide S.Progress, ToFailure, Goto, ProgressMade;
    if t in s.workers && s.workers[t].sample.Some? {
      var w := s.workers[t];
      ProgressedJobs(s.db, w.job, t, w.sample.value, if w.pc.AtProgress25? then 25 else 80);
    }
  }

  predicate ProgressMade(jobs: Jobs, jobs1: Jobs, j: JobId) {
    && j in jobs && j in jobs1 && jobs[j].status.Running? && jobs1 == jobs[j := jobs1[j]]
    && jobs1[j] == jobs[j].(progress := jobs1[j].progress)
  }

  lemma ProgressedJobs(db: Db, j: JobId, t: Token, now: int, progress: nat)
    ensures var r := S.Progress(db, j, t, now, progress);
      r.Some? ==> r.value == db.(jobs := r.value.jobs) && ProgressMade(db.jobs, r.value.jobs, j)
  {
  }

  lemma ProgressBusy(s: State, t: Token, net: Net)
    ensures Busy(s, DoProgress(s, t, net), false, false)
  {
    hide WorkersStep, DoProgress, Busy;
    ProgressShape(s, t, net);
    OneWorker(s, DoProgress(s, t, net), t);
    OneJob(s, DoProgress(s, t, net), if t in s.workers then s.workers[t].job else 0, false, false);
  }

  lemma FailedStatus(db: Db, j: JobId, t: Token, now: int)
    requires S.MarkFailed(db, j, t, now).Some?
    ensures j in db.jobs && db.jobs[j].status.Running?
    ensures var jobs := S.MarkFailed(db, j, t, now).value.jobs;
            j in jobs && jobs[j].status.Failed? && jobs == db.jobs[j := jobs[j]]
  {
  }

  lemma FailBusy(s: State, t: Token, net: Net)
    ensures Busy(s, DoMarkFailed(s, t, net), false, false)
  {
    hide WorkersStep, S.MarkFailed;
    OneWorker(s, DoMarkFailed(s, t, net), t);
    if t in s.workers && s.workers[t].sample.Some? {
      var w := s.workers[t];
      if S.MarkFailed(s.db, w.job, t, w.sample.value).Some? {
        FailedStatus(s.db, w.job, t, w.sample.value);
      }
    }
  }

  lemma BeatBusy(s: State, t: Token, ttl: nat, net: Net)
    ensures Busy(s, DoBeat(s, t, ttl, net), true, false)
  {
    hide WorkersStep;
    hide Busy;
    OneWorker(s, DoBeat(s, t, ttl, net), t);
    OneJob(s, DoBeat(s, t, ttl, net), if t in s.workers then s.workers[t].job else 0, true, false);
  }

  lemma DeliverBusy(s: State, j: JobId, t: Token, now: int, ttl: nat)
    ensures Busy(s, DoDeliver(s, j, t, now, ttl), false, false)
  {
  }

  lemma PublishedStatus(db: Db, j: JobId, t: Token, now: int, bundle: bool, ids: seq<FileId>)
    requires |ids| > 0 && S.Publish(db, j, t, now, bundle, ids).Some?
    ensures j in db.jobs && db.jobs[j].status.Running? && db.jobs[j].token == Some(t)
    ensures var jobs := S.Publish(db, j, t, now, bundle, ids).value.jobs;
            && jobs == db.jobs[j := jobs[j]]
            && jobs[j] == db.jobs[j].(status := Completed, progress := 100, output := Some(ids[0]))
  {
    hide S.CommittedRows, S.PublishedFiles, S.PublishedLinks;
  }

  lemma PublishBusy(s: State, t: Token, ids: seq<FileId>, net: Net)
    ensures Busy(s, DoPublish(s, t, ids, net), false, false)
  {
    hide S.Publish, FreshIds, NameIds, WorkersStep;
    OneWorker(s, DoPublish(s, t, ids, net), t);
    PublishJobs(s, t, ids, net);
    hide DoPublish;
  }

  // A publication completes at most one job, which was running.
  lemma PublishJobs(s: State, t: Token, ids: seq<FileId>, net: Net)
    ensures var s1 := DoPublish(s, t, ids, net);
      && s1.usedJobs == s.usedJobs && s1.clock == s.clock && s.ends <= s1.ends
      && (s1.db.jobs == s.db.jobs
          || exists j :: j in s.db.jobs && s.db.jobs[j].status.Running? && j in s1.db.jobs
                         && s1.db.jobs[j].status.Completed? && s1.db.jobs == s.db.jobs[j := s1.db.jobs[j]])
  {
    hide S.Publish, FreshIds, NameIds;
    if t in s.workers && s.workers[t].sample.Some? && |ids| > 0 {
      var w := s.workers[t];
      if S.Publish(s.db, w.job, t, w.sample.value, w.bundle, ids).Some? {
        PublishedStatus(s.db, w.job, t, w.sample.value, w.bundle, ids);
      }
    }
  }

  lemma EnqueuedBusy(s: State, j: JobId, rq: RqId, net: Net)
    ensures Busy(s, DoEnqueueReturned(s, j, rq, net), false, false)
  {
    hide WorkersStep;
    hide Busy;
    OneWorker(s, DoEnqueueReturned(s, j, rq, net), 0);
    OneJob(s, DoEnqueueReturned(s, j, rq, net), j, false, false);
  }

  lemma CancelReadBusy(s: State, c: nat, j: JobId)
    ensures Busy(s, DoCancelRead(s, c, j), false, false)
  {
    hide Busy, WorkersStep;
    OneWorker(s, DoCancelRead(s, c, j), 0);
    OneJob(s, DoCancelRead(s, c, j), 0, false, false);
  }

  lemma EnqueueRaisedBusy(s: State, j: JobId)
    ensures Busy(s, DoEnqueueRaised(s, j), false, true)
  {
    hide WorkersStep;
    hide Busy;
    OneWorker(s, DoEnqueueRaised(s, j), 0);
    OneJob(s, DoEnqueueRaised(s, j), j, false, true);
  }

  lemma CancelWriteBusy(s: State, c: nat)
    ensures Busy(s, DoCancelWrite(s, c), false, true)
  {
    hide Busy, WorkersStep;
    OneWorker(s, DoCancelWrite(s, c), 0);
    OneJob(s, DoCancelWrite(s, c), if c in s.cancels then s.cancels[c] else 0, false, true);
  }

  lemma RecoverBusy(s: State, r: nat, net: Net)
    ensures Busy(s, DoRecover(s, r, net), false, false)
  {
    hide Busy, WorkersStep;
    OneWorker(s, DoRecover(s, r, net), 0);
    OneJob(s, DoRecover(s, r, net), if r in s.evidence then s.evidence[r].job else 0, false, false);
  }

  lemma PurgeObjectBusy(s: State, nm: Name)
    ensures Busy(s, DoPurgeObject(s, nm), false, false)
  {
    hide Busy, WorkersStep;
    OneWorker(s, DoPurgeObject(s, nm), 0);
    OneJob(s, DoPurgeObject(s, nm), 0, false, false);
  }

  lemma PurgeRecordBusy(s: State, nm: Name, clearOutput: bool)
    ensures Busy(s, DoPurgeRecord(s, nm, clearOutput), false, false)
  {
    hide WorkersStep;
    OneWorker(s, DoPurgeRecord(s, nm, clearOutput), 0);
  }

  // Every action either is quiet, or updates job rows without reviving any, or is one of these.
  lemma StepKind(s: State, a: Action)
    ensures a.CreateJob? || a.ClearTerminal? || a.Tick? || Quiet(s, Step(s, a))
            || Busy(s, Step(s, a), a.Beat?, a.CancelWrite? || a.EnqueueRaised?)
  {
    hide Quiet, Busy, DoCreate, DoEnqueueReturned, DoEnqueueRaised, DoCancelRead, DoCancelWrite, DoClear, DoDeliver,
      DoSample, DoProgress, DoConvert, DoRaise, DoRefresh, DoCheckLease, DoInsertRows, DoCheckDest, DoStore,
      DoPublish, DoLookUp, DoDelete, DoCompensate, DoRefreshFailed, DoMarkFailed, DoCrash, DoBeatSample, DoBeat,
      DoInspect, DoRecover, DoPurgeObject, DoPurgeRecord;
    match a {
      case CreateJob(j) =>
      case EnqueueReturned(j, rq, net) => EnqueuedBusy(s, j, rq, net);
      case EnqueueRaised(j) => EnqueueRaisedBusy(s, j);
      case CancelRead(c, j) => CancelReadBusy(s, c, j);
      case CancelWrite(c) => CancelWriteBusy(s, c);
      case ClearTerminal(js) =>
      case Deliver(j, t, now, ttl) => DeliverBusy(s, j, t, now, ttl);
      case Sample(t) => SampleQuiet(s, t);
      case Progress(t, net) => ProgressBusy(s, t, net);
      case Convert(t, parts, bundle) => ConvertQuiet(s, t, parts, bundle);
      case Raise(t) => RaiseQuiet(s, t);
      case Refresh(t) => RefreshQuiet(s, t);
      case CheckLease(t) => CheckLeaseQuiet(s, t);
      case InsertRows(t, net) => InsertRowsQuiet(s, t, net);
      case CheckDest(t) => CheckDestQuiet(s, t);
      case Store(t, io) => StoreQuiet(s, t, io);
      case Publish(t, ids, net) => PublishBusy(s, t, ids, net);
      case LookUp(t, raised) => LookUpQuiet(s, t, raised);
      case Delete(t, io) => DeleteQuiet(s, t, io);
      case Compensate(t, net) => CompensateQuiet(s, t, net);
      case RefreshFailed(t) => WindUpQuiet(s, t);
      case MarkFailed(t, net) => FailBusy(s, t, net);
      case Crash(t) => CrashQuiet(s, t);
      case BeatSample(t) => BeatSampleQuiet(s, t);
      case Beat(t, ttl, net) => BeatBusy(s, t, ttl, net);
      case Inspect(r, j, epoch, rq, now, grace) => InspectQuiet(s, r, j, epoch, rq, now, grace);
      case Recover(r, net) => RecoverBusy(s, r, net);
      case PurgeObject(nm) => PurgeObjectBusy(s, nm);
      case PurgeRecord(nm, clearOutput) => PurgeRecordBusy(s, nm, clearOutput);
      case Tick(now) =>
    }
  }

  lemma InspectQuiet(s: State, r: nat, j: JobId, epoch: nat, rq: RqId, now: int, grace: int)
    ensures Quiet(s, DoInspect(s, r, j, epoch, rq, now, grace))
  {
    hide S.CommittedRow;
  }

  lemma TickOnward(s: State, now: int)
    requires s.db.jobs.Keys <= s.usedJobs
    ensures Onward(s, s.(clock := now))
  {
  }

  lemma CreateOnward(s: State, j: JobId)
    requires s.db.jobs.Keys <= s.usedJobs
    ensures Onward(s, DoCreate(s, j))
  {
  }

  lemma ClearOnward(s: State, js: set<JobId>)
    requires s.db.jobs.Keys <= s.usedJobs
    ensures Onward(s, DoClear(s, js))
  {
  }

  lemma CalmOnward(s: State, s1: State)
    requires s.db.jobs.Keys <= s.usedJobs
    ensures Quiet(s, s1) || (exists renewal, route :: Busy(s, s1, renewal, route)) ==> Onward(s, s1)
  {
  }

  lemma StepOnward(s: State, a: Action)
    requires s.db.jobs.Keys <= s.usedJobs
    ensures Onward(s, Step(s, a))
  {
    hide Quiet, Busy, Onward;
    StepKind(s, a);
    CalmOnward(s, Step(s, a));
    match a {
      case CreateJob(j) => CreateOnward(s, j);
      case ClearTerminal(js) => ClearOnward(s, js);
      case Tick(now) => TickOnward(s, now);
      case _ =>
    }
  }

  lemma StutterOnward(s: State)
    requires s.db.jobs.Keys <= s.usedJobs
    ensures Onward(s, s)
  {
  }

  lemma {:induction false} RunOnward(s: State, run: seq<Action>)
    requires Inv(s)
    ensures Onward(s, Exec(s, run))
  {
    hide Inv, Step, Onward;
    JobsUsed(s);
    StutterOnward(s);
    if run != [] {
      var prefix := run[..|run| - 1];
      RunOnward(s, prefix);
      ExecKeepsInv(s, prefix);
      JobsUsed(Exec(s, prefix));
      StepOnward(Exec(s, prefix), run[|run| - 1]);
      OnwardOnward(s, Exec(s, prefix), Exec(s, run));
    }
  }

  lemma JobsUsed(s: State)
    requires Inv(s)
    ensures s.db.jobs.Keys <= s.usedJobs
  {
    hide WorkersOk, RowsOk, ObjectsOk, FilesOk, LinksOk, EndsOk, ClaimsOk;
    assert forall j :: j in s.db.jobs ==> JobOk(j, s.db.jobs[j], s.db.journal, s.usedJobs, s.claims);
  }

  lemma OnwardOnward(s: State, s1: State, s2: State)
    requires Onward(s, s1) && Onward(s1, s2)
    ensures Onward(s, s2)
  {
  }
}
