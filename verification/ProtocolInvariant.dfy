/** The inductive invariant of the protocol: one predicate per kind of row, each over
    just the parts of the state it reads. */
module ProtocolInvariant {
  import opened Options
  import opened Rows
  import S = Statements
  import opened Protocol

  type Jobs = map<JobId, Job>
  type Journal = map<Name, Row>
  type Files = map<Name, FileId>
  type Workers = map<Token, Worker>

  // Program points before the reservation is committed, during the writes, and before
  // the reservations are classified.
  predicate BeforeRows(pc: Pc) {
    pc.AtProgress25? || pc.AtConvert? || pc.AtProgress80? || pc.AtRefresh? || pc.AtCheckLease? || pc.AtInsertRows?
  }

  predicate Writing(pc: Pc) {
    pc.AtCheckDest? || pc.AtStore? || pc.AtPublish?
  }

  predicate Cleaning(pc: Pc) {
    pc.AtLookUp? || pc.AtDelete? || pc.AtCompensate?
  }

  predicate JobOk(j: JobId, job: Job, journal: Journal, usedJobs: set<JobId>, claims: map<JobId, Token>) {
    && j in usedJobs
    && job.epoch == (if j in claims then 1 else 0)
    && (job.status.Queued? ==> j !in claims)
    && (job.status.Running? ==>
          j in claims && job.token == Some(claims[j]) && job.expires.Some? && job.output.None?)
    && (job.output.Some? ==>
          && j in claims && job.token == Some(claims[j])
          && Name(j, claims[j], 0) in journal && journal[Name(j, claims[j], 0)].file == job.output)
  }

  ghost predicate JobsOk(jobs: Jobs, journal: Journal, usedJobs: set<JobId>, claims: map<JobId, Token>) {
    forall j :: j in jobs ==> JobOk(j, jobs[j], journal, usedJobs, claims)
  }

  // Every claimed token is the only one of its job.
  ghost predicate ClaimsOk(usedJobs: set<JobId>, claims: map<JobId, Token>, workers: Workers, enqueuing: set<JobId>) {
    && (forall j :: j in claims ==> j in usedJobs && claims[j] in workers && workers[claims[j]].job == j)
    && (forall t :: t in workers ==> workers[t].job in claims && claims[workers[t].job] == t)
    && enqueuing <= usedJobs
  }

  ghost predicate WorkerOk(t: Token, w: Worker, jobs: Jobs, files: Files, objects: set<Name>) {
    && w.epoch == 1
    && (w.parts > 0 ==> w.bundle) && w.parts <= MAX_PARTS
    && w.attempted <= w.parts + 1 && w.cursor <= w.attempted
    && (w.attempted > 0 ==> w.reserved)
    && (BeforeRows(w.pc) ==> !w.reserved)
    && (Writing(w.pc) ==> w.reserved)
    && (w.pc.AtCheckDest? ==> w.attempted <= w.parts)
    && (w.pc.AtStore? ==> w.attempted > 0)
    && (w.pc.AtPublish? ==> w.attempted == w.parts + 1)
    && (w.published ==> w.reserved && w.attempted == w.parts + 1 && !BeforeRows(w.pc) && !Writing(w.pc)
                        && (w.job in jobs ==> Terminal(jobs[w.job].status)))
    && (w.pc.AtDelete? ==> w.cursor > 0 && SlotName(w, t, w.cursor - 1) !in files)
    && (w.pc.AtCompensate? ==> w.cursor == 0)
    && (Cleaning(w.pc) ==> forall nm :: nm in w.confirmed ==> nm.token == t && nm !in objects)
  }

  ghost predicate WorkersOk(workers: Workers, jobs: Jobs, files: Files, objects: set<Name>) {
    forall t :: t in workers ==> WorkerOk(t, workers[t], jobs, files, objects)
  }

  predicate RowOk(nm: Name, row: Row, w: Worker, filed: bool, stored: bool, named: map<FileId, Name>) {
    && w.job == nm.job && w.reserved && nm.slot <= w.parts
    && row.job == nm.job && row.token == nm.token && row.epoch == 1 && row.role == RoleOf(w.bundle, nm.slot)
    && (row.state.Committed? <==> w.published)
    && (row.state.Committed? <==> row.file.Some?)
    && (row.file.Some? ==> row.file.value in named && named[row.file.value] == nm)
    && ((Writing(w.pc) || Cleaning(w.pc)) && !w.published ==> row.state.Planned?)
    && (row.state.Compensated? ==> !stored)
    && (row.state.Committed? && !filed ==> !stored)
  }

  ghost predicate RowsOk(journal: Journal, files: Files, objects: set<Name>, workers: Workers,
                         named: map<FileId, Name>) {
    && (forall nm :: nm in journal ==>
          nm.token in workers && RowOk(nm, journal[nm], workers[nm.token], nm in files, nm in objects, named))
    && (forall t :: t in workers && workers[t].reserved ==>
          Slots(workers[t].job, t, workers[t].parts) <= journal.Keys)
  }

  ghost predicate ObjectsOk(objects: set<Name>, purging: set<Name>, journal: Journal, workers: Workers) {
    && (forall nm :: nm in objects ==> nm in journal && nm.token in workers && nm.slot < workers[nm.token].attempted)
    && (forall nm :: nm in purging ==> nm in journal && journal[nm].state.Committed? && nm !in objects)
  }

  ghost predicate FilesOk(files: Files, journal: Journal) {
    forall nm :: nm in files ==> nm in journal && journal[nm].file == Some(files[nm])
  }

  function LinkFor(nm: Name, f: FileId, bundle: bool): Link {
    Link(nm.job, f, RoleOf(bundle, nm.slot), OrdinalOf(nm.slot))
  }

  // Links are exactly those of the files whose job row still exists.
  ghost predicate LinksOk(links: set<Link>, jobs: set<JobId>, files: Files, workers: Workers,
                          named: map<FileId, Name>) {
    && (forall l :: l in links ==>
          && l.job in jobs && l.file in named && named[l.file] in files && named[l.file].token in workers
          && l == LinkFor(named[l.file], files[named[l.file]], workers[named[l.file].token].bundle))
    && (forall nm :: nm in files && nm.token in workers && nm.job in jobs ==>
          LinkFor(nm, files[nm], workers[nm.token].bundle) in links)
  }

  ghost predicate EndsOk(ends: seq<End>, usedJobs: set<JobId>, jobs: Jobs) {
    && (forall i :: 0 <= i < |ends| ==>
          ends[i].job in usedJobs && (ends[i].job in jobs ==> Terminal(jobs[ends[i].job].status)))
    && (forall i, k :: 0 <= i < k < |ends| ==> ends[i].job != ends[k].job)
  }

  ghost predicate Inv(s: State) {
    && JobsOk(s.db.jobs, s.db.journal, s.usedJobs, s.claims)
    && ClaimsOk(s.usedJobs, s.claims, s.workers, s.enqueuing)
    && WorkersOk(s.workers, s.db.jobs, s.db.files, s.objects)
    && RowsOk(s.db.journal, s.db.files, s.objects, s.workers, s.named)
    && ObjectsOk(s.objects, s.purging, s.db.journal, s.workers)
    && FilesOk(s.db.files, s.db.journal)
    && LinksOk(s.db.links, s.db.jobs.Keys, s.db.files, s.workers, s.named)
    && EndsOk(s.ends, s.usedJobs, s.db.jobs)
  }

  // ---- a step of one worker that changes no row

  // The worker still agrees with what the rows say about it.
  predicate SameShape(w: Worker, v: Worker) {
    && v.job == w.job && v.reserved == w.reserved && v.published == w.published
    && (w.reserved ==> v.parts == w.parts && v.bundle == w.bundle)
    && w.attempted <= v.attempted
    && (Writing(v.pc) || Cleaning(v.pc) ==> Writing(w.pc) || Cleaning(w.pc) || !w.reserved)
  }

  // What such an action does to one worker record.
  ghost predicate Moves(s: State, t: Token, v: Worker)
    requires t in s.workers
  {
    SameShape(s.workers[t], v) && WorkerOk(t, v, s.db.jobs, s.db.files, s.objects)
  }

  lemma LinksFollow(s: State, t: Token, v: Worker)
    requires t in s.workers && SameShape(s.workers[t], v)
    requires RowsOk(s.db.journal, s.db.files, s.objects, s.workers, s.named) && FilesOk(s.db.files, s.db.journal)
    requires LinksOk(s.db.links, s.db.jobs.Keys, s.db.files, s.workers, s.named)
    ensures LinksOk(s.db.links, s.db.jobs.Keys, s.db.files, s.workers[t := v], s.named)
  {
    forall nm | nm in s.db.files && nm.token == t
      ensures s.workers[t].bundle == v.bundle
    {
      assert RowOk(nm, s.db.journal[nm], s.workers[t], true, nm in s.objects, s.named);
    }
  }

  lemma RowsFollow(s: State, t: Token, v: Worker)
    requires RowsOk(s.db.journal, s.db.files, s.objects, s.workers, s.named) && t in s.workers
    requires SameShape(s.workers[t], v)
    ensures RowsOk(s.db.journal, s.db.files, s.objects, s.workers[t := v], s.named)
  {
  }

  lemma WorkersFollow(s: State, t: Token, v: Worker)
    requires WorkersOk(s.workers, s.db.jobs, s.db.files, s.objects) && t in s.workers && Moves(s, t, v)
    ensures WorkersOk(s.workers[t := v], s.db.jobs, s.db.files, s.objects)
  {
  }

  lemma WorkerStep(s: State, t: Token, v: Worker)
    requires Inv(s) && t in s.workers && Moves(s, t, v)
    ensures Inv(SetWorker(s, t, v))
  {
    hide WorkerOk, RowsOk, LinksOk, EndsOk, FilesOk, JobsOk, WorkersOk;
    LinksFollow(s, t, v);
    RowsFollow(s, t, v);
    WorkersFollow(s, t, v);
  }

  lemma WorkerAt(s: State, t: Token)
    requires Inv(s) && t in s.workers
    ensures WorkerOk(t, s.workers[t], s.db.jobs, s.db.files, s.objects)
  {
    hide WorkerOk;
  }

  lemma JobAt(s: State, j: JobId)
    requires Inv(s) && j in s.db.jobs
    ensures JobOk(j, s.db.jobs[j], s.db.journal, s.usedJobs, s.claims)
  {
    hide JobOk;
  }

  lemma SettleMoves(s: State, t: Token, v: Worker)
    requires Inv(s) && t in s.workers && (v.pc.Crashed? || v.pc == s.workers[t].pc)
    requires v == s.workers[t].(pc := v.pc, sample := v.sample, beat := v.beat, beating := v.beating)
    ensures Moves(s, t, v)
  {
    hide Inv;
    WorkerAt(s, t);
  }

  lemma ToFailureMoves(s: State, t: Token)
    requires Inv(s) && t in s.workers && InTry(s.workers[t].pc)
    ensures Moves(s, t, ToFailure(s.workers[t]))
  {
    hide Inv;
    WorkerAt(s, t);
  }

  lemma AdvanceMoves(s: State, t: Token, pc: Pc)
    requires Inv(s) && t in s.workers && BeforeRows(s.workers[t].pc) && (BeforeRows(pc) || pc.Finished?)
    ensures Moves(s, t, Goto(s.workers[t], pc))
  {
    hide Inv;
    WorkerAt(s, t);
  }

  lemma WindUpMoves(s: State, t: Token, pc: Pc)
    requires Inv(s) && t in s.workers && (pc.AtRefreshFailed? || pc.AtMarkFailed? || pc.Finished?)
    ensures Moves(s, t, Goto(s.workers[t], pc))
  {
    hide Inv;
    WorkerAt(s, t);
  }

  lemma ConvertMoves(s: State, t: Token, parts: nat, bundle: bool)
    requires Inv(s) && t in s.workers
    ensures DoConvert(s, t, parts, bundle) == s || Moves(s, t, DoConvert(s, t, parts, bundle).workers[t])
  {
    hide Inv;
    WorkerAt(s, t);
  }

  lemma CheckDestMoves(s: State, t: Token)
    requires Inv(s) && t in s.workers
    ensures DoCheckDest(s, t) == s || Moves(s, t, DoCheckDest(s, t).workers[t])
  {
    hide Inv;
    WorkerAt(s, t);
  }

  lemma LookUpEnds(s: State, t: Token)
    requires Inv(s) && t in s.workers && s.workers[t].pc.AtLookUp? && s.workers[t].cursor == 0
    ensures Moves(s, t, Goto(s.workers[t], AtCompensate))
  {
    hide Inv;
    WorkerAt(s, t);
  }

  lemma LookUpKeeps(s: State, t: Token)
    requires Inv(s) && t in s.workers && s.workers[t].pc.AtLookUp? && s.workers[t].cursor > 0
    ensures Moves(s, t, s.workers[t].(cursor := s.workers[t].cursor - 1))
  {
    hide Inv;
    WorkerAt(s, t);
  }

  lemma LookUpMisses(s: State, t: Token)
    requires Inv(s) && t in s.workers && s.workers[t].pc.AtLookUp? && s.workers[t].cursor > 0
    requires SlotName(s.workers[t], t, s.workers[t].cursor - 1) !in s.db.files
    ensures Moves(s, t, Goto(s.workers[t], AtDelete))
  {
    hide Inv;
    WorkerAt(s, t);
  }

  lemma LookUpMoves(s: State, t: Token, raised: bool)
    requires Inv(s) && t in s.workers && s.workers[t].pc.AtLookUp?
    ensures Moves(s, t, DoLookUp(s, t, raised).workers[t])
  {
    hide Inv, Moves;
    var w := s.workers[t];
    if w.cursor == 0 {
      LookUpEnds(s, t);
    } else if raised || SlotName(w, t, w.cursor - 1) in s.db.files {
      LookUpKeeps(s, t);
    } else {
      LookUpMisses(s, t);
    }
  }

  lemma SampleKeepsInv(s: State, t: Token)
    requires Inv(s)
    ensures Inv(DoSample(s, t))
  {
    hide Inv, Moves;
    if t in s.workers && !s.workers[t].pc.Crashed? {
      SettleMoves(s, t, DoSample(s, t).workers[t]);
      WorkerStep(s, t, DoSample(s, t).workers[t]);
    }
  }

  lemma CrashKeepsInv(s: State, t: Token)
    requires Inv(s)
    ensures Inv(DoCrash(s, t))
  {
    hide Inv, Moves;
    if t in s.workers {
      SettleMoves(s, t, DoCrash(s, t).workers[t]);
      WorkerStep(s, t, DoCrash(s, t).workers[t]);
    }
  }

  lemma BeatSampleKeepsInv(s: State, t: Token)
    requires Inv(s)
    ensures Inv(DoBeatSample(s, t))
  {
    hide Inv, Moves;
    if t in s.workers && s.workers[t].beating {
      SettleMoves(s, t, DoBeatSample(s, t).workers[t]);
      WorkerStep(s, t, DoBeatSample(s, t).workers[t]);
    }
  }

  lemma InspectKeepsInv(s: State, r: nat, j: JobId, epoch: nat, rq: RqId, now: int, grace: int)
    requires Inv(s)
    ensures Inv(DoInspect(s, r, j, epoch, rq, now, grace))
  {
    hide JobsOk, ClaimsOk, WorkersOk, RowsOk, ObjectsOk, FilesOk, LinksOk, EndsOk, S.CommittedRow;
  }

  lemma TickKeepsInv(s: State, now: int)
    requires Inv(s)
    ensures Inv(s.(clock := now))
  {
    hide JobsOk, ClaimsOk, WorkersOk, RowsOk, ObjectsOk, FilesOk, LinksOk, EndsOk;
  }

  lemma RefreshFailedKeepsInv(s: State, t: Token)
    requires Inv(s)
    ensures Inv(DoRefreshFailed(s, t))
  {
    hide Inv, Moves;
    if t in s.workers && s.workers[t].pc.AtRefreshFailed? {
      WindUpMoves(s, t, AtMarkFailed);
      WindUpMoves(s, t, Finished);
      WorkerStep(s, t, DoRefreshFailed(s, t).workers[t]);
    }
  }

  // A worker step that either does nothing or moves the worker as described.
  lemma MoveKeepsInv(s: State, s1: State, t: Token)
    requires Inv(s)
    requires s1 == s || (t in s.workers && t in s1.workers && Moves(s, t, s1.workers[t])
                         && s1 == SetWorker(s, t, s1.workers[t]))
    ensures Inv(s1)
  {
    hide Inv, Moves;
    if s1 != s {
      WorkerStep(s, t, s1.workers[t]);
    }
  }

  lemma ConvertKeepsInv(s: State, t: Token, parts: nat, bundle: bool)
    requires Inv(s)
    ensures Inv(DoConvert(s, t, parts, bundle))
  {
    hide Inv, Moves;
    if t in s.workers {
      ConvertMoves(s, t, parts, bundle);
    }
    MoveKeepsInv(s, DoConvert(s, t, parts, bundle), t);
  }

  lemma RaiseKeepsInv(s: State, t: Token)
    requires Inv(s)
    ensures Inv(DoRaise(s, t))
  {
    hide Inv, Moves, ToFailure;
    if t in s.workers && InTry(s.workers[t].pc) {
      ToFailureMoves(s, t);
    }
    MoveKeepsInv(s, DoRaise(s, t), t);
  }

  lemma RefreshKeepsInv(s: State, t: Token)
    requires Inv(s)
    ensures Inv(DoRefresh(s, t))
  {
    hide Inv, Moves, ToFailure, Goto;
    if t in s.workers && s.workers[t].pc.AtRefresh? {
      AdvanceMoves(s, t, Finished);
      AdvanceMoves(s, t, AtCheckLease);
      ToFailureMoves(s, t);
    }
    MoveKeepsInv(s, DoRefresh(s, t), t);
  }

  lemma CheckLeaseKeepsInv(s: State, t: Token)
    requires Inv(s)
    ensures Inv(DoCheckLease(s, t))
  {
    hide Inv, Moves, ToFailure, Goto, S.Fenced;
    if t in s.workers && s.workers[t].pc.AtCheckLease? {
      AdvanceMoves(s, t, AtInsertRows);
      ToFailureMoves(s, t);
    }
    MoveKeepsInv(s, DoCheckLease(s, t), t);
  }

  lemma CheckDestKeepsInv(s: State, t: Token)
    requires Inv(s)
    ensures Inv(DoCheckDest(s, t))
  {
    hide Inv, Moves;
    if t in s.workers {
      CheckDestMoves(s, t);
    }
    MoveKeepsInv(s, DoCheckDest(s, t), t);
  }

  lemma LookUpKeepsInv(s: State, t: Token, raised: bool)
    requires Inv(s)
    ensures Inv(DoLookUp(s, t, raised))
  {
    hide Inv, Moves;
    if t in s.workers && s.workers[t].pc.AtLookUp? {
      LookUpMoves(s, t, raised);
    }
    MoveKeepsInv(s, DoLookUp(s, t, raised), t);
  }

  // ---- an update of one job row

  lemma JobStep(s: State, j: JobId, job: Job)
    requires Inv(s) && j in s.db.jobs
    requires JobOk(j, job, s.db.journal, s.usedJobs, s.claims)
    requires Terminal(s.db.jobs[j].status) ==> Terminal(job.status)
    ensures Inv(s.(db := S.SetJob(s.db, j, job)))
  {
    assert s.db.jobs[j := job].Keys == s.db.jobs.Keys;
  }

  // The same, recorded as a fenced ending.
  lemma EndStep(s: State, j: JobId, job: Job, e: End)
    requires Inv(s) && j in s.db.jobs && s.db.jobs[j].status.Running? && e.job == j
    requires job.status.Failed? && job.epoch == s.db.jobs[j].epoch && job.output.None?
    ensures Inv(s.(db := S.SetJob(s.db, j, job), ends := s.ends + [e]))
  {
    hide ClaimsOk, WorkersOk, RowsOk, ObjectsOk, FilesOk, LinksOk, JobsOk;
    JobAt(s, j);
    EndedJob(s, j, job);
    JobStep(s, j, job);
    assert forall i :: 0 <= i < |s.ends| ==> s.ends[i].job != j;
  }

  lemma EndedJob(s: State, j: JobId, job: Job)
    requires j in s.db.jobs && JobOk(j, s.db.jobs[j], s.db.journal, s.usedJobs, s.claims)
    requires s.db.jobs[j].status.Running? && job.status.Failed? && job.epoch == s.db.jobs[j].epoch && job.output.None?
    ensures JobOk(j, job, s.db.journal, s.usedJobs, s.claims)
  {
  }

  lemma FencedStep(s: State, t: Token, j: JobId, now: int, progress: nat, expires: int)
    requires Inv(s) && S.Fenced(s.db, j, t, now)
    ensures Inv(s.(db := S.SetJob(s.db, j, s.db.jobs[j].(progress := progress, expires := Some(expires)))))
  {
    hide Inv;
    JobAt(s, j);
    JobStep(s, j, s.db.jobs[j].(progress := progress, expires := Some(expires)));
  }

  lemma ProgressedInv(s: State, t: Token, j: JobId, now: int, progress: nat)
    requires Inv(s) && S.Progress(s.db, j, t, now, progress).Some?
    ensures Inv(s.(db := S.Progress(s.db, j, t, now, progress).value))
    ensures S.Progress(s.db, j, t, now, progress).value.journal == s.db.journal
  {
    hide Inv;
    FencedStep(s, t, j, now, progress, s.db.jobs[j].expires.value);
  }

  lemma ProgressKeepsInv(s: State, t: Token, net: Net)
    requires Inv(s)
    ensures Inv(DoProgress(s, t, net))
  {
    hide Inv, Moves, S.Progress;
    if t in s.workers && s.workers[t].sample.Some? && (s.workers[t].pc.AtProgress25? || s.workers[t].pc.AtProgress80?) {
      var w := s.workers[t];
      var r := S.Progress(s.db, w.job, t, w.sample.value, if w.pc.AtProgress25? then 25 else 80);
      var s1 := s;
      if r.Some? && !net.Refused? {
        ProgressedInv(s, t, w.job, w.sample.value, if w.pc.AtProgress25? then 25 else 80);
        s1 := s.(db := r.value);
      }
      ToFailureMoves(s1, t);
      AdvanceMoves(s1, t, if w.pc.AtProgress25? then AtConvert else AtRefresh);
      WorkerStep(s1, t, DoProgress(s, t, net).workers[t]);
    }
  }

  lemma BeatKeepsInv(s: State, t: Token, ttl: nat, net: Net)
    requires Inv(s)
    ensures Inv(DoBeat(s, t, ttl, net))
  {
    hide Inv, Moves;
    if t in s.workers && s.workers[t].beating && s.workers[t].beat.Some? {
      var w := s.workers[t];
      var r := S.Renew(s.db, w.job, t, w.epoch, w.beat.value, ttl);
      var s1 := s;
      if r.Some? && !net.Refused? {
        FencedStep(s, t, w.job, w.beat.value, s.db.jobs[w.job].progress, w.beat.value + ttl);
        s1 := s.(db := r.value);
      }
      SettleMoves(s1, t, DoBeat(s, t, ttl, net).workers[t]);
      WorkerStep(s1, t, DoBeat(s, t, ttl, net).workers[t]);
    }
  }

  lemma MarkFailedKeepsInv(s: State, t: Token, net: Net)
    requires Inv(s)
    ensures Inv(DoMarkFailed(s, t, net))
  {
    hide Inv, Moves;
    if t in s.workers && s.workers[t].pc.AtMarkFailed? && s.workers[t].sample.Some? {
      var w := s.workers[t];
      var r := S.MarkFailed(s.db, w.job, t, w.sample.value);
      var s1 := s;
      if r.Some? && !net.Refused? {
        JobAt(s, w.job);
        EndStep(s, w.job, s.db.jobs[w.job].(status := Failed, progress := 100), End(ByWorker, w.job, t));
        s1 := s.(db := r.value, ends := s.ends + [End(ByWorker, w.job, t)]);
      }
      WindUpMoves(s1, t, Finished);
      WorkerStep(s1, t, DoMarkFailed(s, t, net).workers[t]);
    }
  }

  lemma RecoverKeepsInv(s: State, r: nat, net: Net)
    requires Inv(s)
    ensures Inv(DoRecover(s, r, net))
  {
    if r in s.evidence {
      var e := s.evidence[r];
      var s1 := s.(evidence := s.evidence - {r});
      if S.Recover(s.db, e).Some? && !net.Refused? {
        EndStep(s1, e.job, s.db.jobs[e.job].(status := Failed, progress := 100, token := None),
                End(ByRecovery, e.job, e.token));
      }
    }
  }

  // ---- submission and the unfenced routes

  lemma CreateKeepsInv(s: State, j: JobId)
    requires Inv(s)
    ensures Inv(DoCreate(s, j))
  {
    if j !in s.usedJobs {
      var job := Job(Queued, 0, 0, None, None, None, None);
      assert JobsOk(s.db.jobs[j := job], s.db.journal, s.usedJobs + {j}, s.claims);
      NoFileOfUnclaimed(s, j);
      LinksGrow(s.db.links, s.db.jobs.Keys, j, s.db.files, s.workers, s.named);
      assert s.db.jobs[j := job].Keys == s.db.jobs.Keys + {j};
    }
  }

  lemma NoFileOfUnclaimed(s: State, j: JobId)
    requires Inv(s) && j !in s.claims
    ensures forall nm :: nm in s.db.files ==> nm.job != j
  {
    forall nm | nm in s.db.files
      ensures nm.job != j
    {
      assert RowOk(nm, s.db.journal[nm], s.workers[nm.token], true, nm in s.objects, s.named);
    }
  }

  lemma LinksGrow(links: set<Link>, jobs: set<JobId>, j: JobId, files: Files, workers: Workers,
                  named: map<FileId, Name>)
    requires LinksOk(links, jobs, files, workers, named) && forall nm :: nm in files ==> nm.job != j
    ensures LinksOk(links, jobs + {j}, files, workers, named)
  {
  }

  lemma OverwriteKeepsInv(s: State, j: JobId, st: Status)
    requires Inv(s) && Terminal(st)
    ensures Inv(s.(db := S.Overwrite(s.db, j, st)))
  {
    hide Inv;
    if j in s.db.jobs {
      JobAt(s, j);
      JobStep(s, j, s.db.jobs[j].(status := st, progress := 100));
    }
  }

  lemma EnqueueReturnedKeepsInv(s: State, j: JobId, rq: RqId, net: Net)
    requires Inv(s)
    ensures Inv(DoEnqueueReturned(s, j, rq, net))
  {
    if j in s.enqueuing && j in s.db.jobs {
      JobAt(s, j);
      JobStep(s.(enqueuing := s.enqueuing - {j}), j, s.db.jobs[j].(rq := Some(rq)));
    }
    hide JobsOk, WorkersOk, RowsOk, ObjectsOk, FilesOk, LinksOk, EndsOk;
  }

  lemma EnqueueRaisedKeepsInv(s: State, j: JobId)
    requires Inv(s)
    ensures Inv(DoEnqueueRaised(s, j))
  {
    hide JobsOk, WorkersOk, RowsOk, ObjectsOk, FilesOk, LinksOk, EndsOk, S.Overwrite;
    OverwriteKeepsInv(s.(enqueuing := s.enqueuing - {j}), j, Failed);
  }

  lemma CancelReadKeepsInv(s: State, c: nat, j: JobId)
    requires Inv(s)
    ensures Inv(DoCancelRead(s, c, j))
  {
    hide JobsOk, ClaimsOk, WorkersOk, RowsOk, ObjectsOk, FilesOk, LinksOk, EndsOk;
  }

  lemma CancelWriteKeepsInv(s: State, c: nat)
    requires Inv(s)
    ensures Inv(DoCancelWrite(s, c))
  {
    hide JobsOk, ClaimsOk, WorkersOk, RowsOk, ObjectsOk, FilesOk, LinksOk, EndsOk, S.Overwrite;
    if c in s.cancels {
      OverwriteKeepsInv(s, s.cancels[c], Cancelled);
    }
  }

  lemma LinksShrink(db: Db, js: set<JobId>, workers: Workers, named: map<FileId, Name>)
    requires LinksOk(db.links, db.jobs.Keys, db.files, workers, named)
    ensures LinksOk(S.Clear(db, js).links, S.Clear(db, js).jobs.Keys, db.files, workers, named)
  {
    assert S.Clear(db, js).jobs.Keys == db.jobs.Keys - js;
  }

  lemma ClearKeepsInv(s: State, js: set<JobId>)
    requires Inv(s)
    ensures Inv(DoClear(s, js))
  {
    hide LinksOk, RowsOk, ObjectsOk, FilesOk;
    LinksShrink(s.db, js, s.workers, s.named);
  }

  // ---- objects

  lemma RemoveObjectKeepsInv(s: State, nm: Name)
    requires Inv(s)
    ensures Inv(s.(objects := s.objects - {nm}))
  {
  }

  lemma WritableRow(s: State, t: Token)
    requires Inv(s) && t in s.workers && s.workers[t].pc.AtStore?
    ensures s.workers[t].attempted > 0
    ensures var nm := SlotName(s.workers[t], t, s.workers[t].attempted - 1);
            nm in s.db.journal && s.db.journal[nm].state.Planned?
  {
    hide LinksOk, EndsOk, JobsOk, ObjectsOk, FilesOk;
    var w := s.workers[t];
    WorkerAt(s, t);
    var nm := SlotName(w, t, w.attempted - 1);
    assert nm in Slots(w.job, t, w.parts);
    assert RowOk(nm, s.db.journal[nm], w, nm in s.db.files, nm in s.objects, s.named);
  }

  lemma AddObjectKeepsInv(s: State, t: Token)
    requires Inv(s) && t in s.workers && s.workers[t].pc.AtStore?
    ensures s.workers[t].attempted > 0
    ensures Inv(s.(objects := s.objects + {SlotName(s.workers[t], t, s.workers[t].attempted - 1)}))
  {
    hide LinksOk, EndsOk, JobsOk, FilesOk, RowsOk, ObjectsOk, WorkersOk;
    WritableRow(s, t);
    AddedObjectRows(s, t);
    AddedObjectWorkers(s, t);
  }

  lemma AddedObjectRows(s: State, t: Token)
    requires Inv(s) && t in s.workers && s.workers[t].pc.AtStore? && s.workers[t].attempted > 0
    ensures var objects := s.objects + {SlotName(s.workers[t], t, s.workers[t].attempted - 1)};
      RowsOk(s.db.journal, s.db.files, objects, s.workers, s.named)
        && ObjectsOk(objects, s.purging, s.db.journal, s.workers)
  {
    hide LinksOk, EndsOk, JobsOk, FilesOk, ClaimsOk, WorkersOk, RowsOk;
    WritableRow(s, t);
    var nm := SlotName(s.workers[t], t, s.workers[t].attempted - 1);
    StoredRows(s, nm);
  }

  // A planned row may have its object.
  lemma StoredRows(s: State, nm: Name)
    requires RowsOk(s.db.journal, s.db.files, s.objects, s.workers, s.named)
    requires nm in s.db.journal && s.db.journal[nm].state.Planned?
    ensures RowsOk(s.db.journal, s.db.files, s.objects + {nm}, s.workers, s.named)
  {
    hide RowOk;
    forall nn | nn in s.db.journal
      ensures RowOk(nn, s.db.journal[nn], s.workers[nn.token], nn in s.db.files, nn in s.objects + {nm}, s.named)
    {
      StoredRow(nn, s.db.journal[nn], s.workers[nn.token], nn in s.db.files, nn in s.objects, s.named);
    }
  }

  lemma StoredRow(nm: Name, row: Row, w: Worker, filed: bool, stored: bool, named: map<FileId, Name>)
    requires RowOk(nm, row, w, filed, stored, named)
    ensures row.state.Planned? ==> RowOk(nm, row, w, filed, true, named)
  {
  }

  lemma AddedObjectWorkers(s: State, t: Token)
    requires Inv(s) && t in s.workers && s.workers[t].pc.AtStore? && s.workers[t].attempted > 0
    ensures WorkersOk(s.workers, s.db.jobs, s.db.files,
                      s.objects + {SlotName(s.workers[t], t, s.workers[t].attempted - 1)})
  {
    hide LinksOk, EndsOk, JobsOk, FilesOk, RowsOk, ObjectsOk;
  }

  lemma StoredMoves(s: State, t: Token)
    requires Inv(s) && t in s.workers && s.workers[t].pc.AtStore?
    ensures Moves(s, t,
                  Goto(s.workers[t], if s.workers[t].attempted <= s.workers[t].parts then AtCheckDest else AtPublish))
  {
    hide Inv;
    WorkerAt(s, t);
  }

  lemma StoreKeepsInv(s: State, t: Token, io: Io)
    requires Inv(s)
    ensures Inv(DoStore(s, t, io))
  {
    hide Inv, Moves;
    if t in s.workers && s.workers[t].pc.AtStore? {
      AddObjectKeepsInv(s, t);
      var w := s.workers[t];
      var s1 := if io.RaisedBefore? then s else s.(objects := s.objects + {SlotName(w, t, w.attempted - 1)});
      ToFailureMoves(s1, t);
      StoredMoves(s1, t);
      WorkerStep(s1, t, DoStore(s, t, io).workers[t]);
    }
  }

  lemma DeletedMoves(s: State, t: Token, io: Io)
    requires Inv(s) && t in s.workers && s.workers[t].pc.AtDelete? && s.workers[t].cursor > 0
    ensures Moves(if io.RaisedBefore? then s
                  else s.(objects := s.objects - {SlotName(s.workers[t], t, s.workers[t].cursor - 1)}),
                  t, DoDelete(s, t, io).workers[t])
  {
    hide Inv;
    WorkerAt(s, t);
  }

  lemma DeleteKeepsInv(s: State, t: Token, io: Io)
    requires Inv(s)
    ensures Inv(DoDelete(s, t, io))
  {
    hide Inv, Moves;
    if t in s.workers && s.workers[t].pc.AtDelete? && s.workers[t].cursor > 0 {
      var nm := SlotName(s.workers[t], t, s.workers[t].cursor - 1);
      RemoveObjectKeepsInv(s, nm);
      DeletedMoves(s, t, io);
      WorkerStep(if io.RaisedBefore? then s else s.(objects := s.objects - {nm}), t, DoDelete(s, t, io).workers[t]);
    }
  }

  // ---- claiming

  lemma ClaimedJob(s: State, j: JobId, t: Token, job: Job)
    requires Inv(s) && j in s.db.jobs && s.db.jobs[j].status.Queued?
    requires job == s.db.jobs[j].(status := Running, progress := job.progress, token := Some(t),
                                  epoch := s.db.jobs[j].epoch + 1, expires := job.expires)
    requires job.expires.Some?
    ensures JobsOk(s.db.jobs[j := job], s.db.journal, s.usedJobs, s.claims[j := t])
  {
    hide LinksOk, RowsOk, EndsOk, WorkersOk, ObjectsOk, ClaimsOk;
  }

  lemma ClaimedWorkers(s: State, j: JobId, t: Token, job: Job, w: Worker)
    requires Inv(s) && j in s.db.jobs && s.db.jobs[j].status.Queued? && t !in s.workers && w.job == j
    requires WorkerOk(t, w, s.db.jobs[j := job], s.db.files, s.objects)
    ensures WorkersOk(s.workers[t := w], s.db.jobs[j := job], s.db.files, s.objects)
    ensures ClaimsOk(s.usedJobs, s.claims[j := t], s.workers[t := w], s.enqueuing)
    ensures ObjectsOk(s.objects, s.purging, s.db.journal, s.workers[t := w])
  {
    hide LinksOk, RowsOk, EndsOk, JobsOk, FilesOk;
    JobAt(s, j);
  }

  lemma DeliverKeepsInv(s: State, j: JobId, t: Token, now: int, ttl: nat)
    requires Inv(s)
    ensures Inv(DoDeliver(s, j, t, now, ttl))
  {
    hide JobsOk, ClaimsOk, WorkersOk, RowsOk, ObjectsOk, FilesOk, LinksOk, EndsOk;
    var s1 := DoDeliver(s, j, t, now, ttl);
    if t !in s.workers && j in s.db.jobs && s.db.jobs[j].status.Queued? {
      JobAt(s, j);
      assert s1.db.jobs.Keys == s.db.jobs.Keys;
      ClaimedJob(s, j, t, s1.db.jobs[j]);
      ClaimedWorkers(s, j, t, s1.db.jobs[j], s1.workers[t]);
      NewWorkerKeepsRows(s, t, s1.workers[t]);
      QueuedJobNotEnded(s, j, s1.db.jobs[j]);
    }
  }

  lemma NewWorkerKeepsRows(s: State, t: Token, w: Worker)
    requires Inv(s) && t !in s.workers && !w.reserved
    ensures RowsOk(s.db.journal, s.db.files, s.objects, s.workers[t := w], s.named)
    ensures LinksOk(s.db.links, s.db.jobs.Keys, s.db.files, s.workers[t := w], s.named)
  {
    hide JobsOk, EndsOk, WorkersOk, ObjectsOk;
    assert RowsOk(s.db.journal, s.db.files, s.objects, s.workers[t := w], s.named);
  }

  lemma QueuedJobNotEnded(s: State, j: JobId, job: Job)
    requires Inv(s) && j in s.db.jobs && s.db.jobs[j].status.Queued?
    ensures EndsOk(s.ends, s.usedJobs, s.db.jobs[j := job])
  {
    hide JobsOk, LinksOk, WorkersOk, ObjectsOk, RowsOk;
  }

  // ---- the reservation

  lemma NoRowsBeforeReservation(s: State, t: Token)
    requires Inv(s) && t in s.workers && !s.workers[t].reserved
    ensures forall nm :: nm in s.db.journal ==> nm.token != t && nm.token in s.workers
    ensures s.workers[t].attempted == 0 && !s.workers[t].published
  {
    hide JobsOk, LinksOk, EndsOk, ObjectsOk, FilesOk;
    WorkerAt(s, t);
    forall nm | nm in s.db.journal
      ensures nm.token != t
    {
      assert RowOk(nm, s.db.journal[nm], s.workers[nm.token], nm in s.db.files, nm in s.objects, s.named);
    }
  }

  lemma ReservedRows(s: State, t: Token, v: Worker, rows: Journal)
    requires RowsOk(s.db.journal, s.db.files, s.objects, s.workers, s.named) && t in s.workers
    requires forall nm :: nm in s.db.journal ==> nm.token != t && nm.token in s.workers
    requires v.reserved && !v.published
    requires rows == S.PlannedRows(v.job, t, 1, v.bundle, v.parts)
    ensures RowsOk(s.db.journal + rows, s.db.files, s.objects, s.workers[t := v], s.named)
  {
    var journal := s.db.journal + rows;
    forall nm | nm in journal
      ensures nm.token in s.workers
      ensures RowOk(nm, journal[nm], s.workers[t := v][nm.token], nm in s.db.files, nm in s.objects, s.named)
    {
    }
  }

  lemma ReservationKeepsLinks(s: State, t: Token, v: Worker)
    requires Inv(s) && t in s.workers && !s.workers[t].reserved
    ensures LinksOk(s.db.links, s.db.jobs.Keys, s.db.files, s.workers[t := v], s.named)
  {
    hide JobsOk, EndsOk, ObjectsOk, WorkersOk, RowsOk;
    NoRowsBeforeReservation(s, t);
  }

  lemma ReservationKeepsJobs(s: State, t: Token, v: Worker, rows: Journal)
    requires Inv(s) && t in s.workers && v.job == s.workers[t].job && s.workers[t].attempted <= v.attempted
    requires rows.Keys !! s.db.journal.Keys && WorkerOk(t, v, s.db.jobs, s.db.files, s.objects)
    ensures JobsOk(s.db.jobs, s.db.journal + rows, s.usedJobs, s.claims)
    ensures ClaimsOk(s.usedJobs, s.claims, s.workers[t := v], s.enqueuing)
    ensures WorkersOk(s.workers[t := v], s.db.jobs, s.db.files, s.objects)
    ensures ObjectsOk(s.objects, s.purging, s.db.journal + rows, s.workers[t := v])
    ensures FilesOk(s.db.files, s.db.journal + rows)
  {
    hide RowsOk, LinksOk, EndsOk, WorkerOk;
  }

  lemma InsertRowsKeepsInv(s: State, t: Token, net: Net)
    requires Inv(s)
    ensures Inv(DoInsertRows(s, t, net))
  {
    hide JobsOk, ClaimsOk, WorkersOk, RowsOk, ObjectsOk, FilesOk, LinksOk, EndsOk, Moves, S.PlannedRows;
    if t in s.workers && s.workers[t].pc.AtInsertRows? {
      var w, s1 := s.workers[t], DoInsertRows(s, t, net);
      if S.Reserve(s.db, w.job, t, w.epoch, w.bundle, w.parts).None? || net.Refused? {
        ToFailureMoves(s, t);
        WorkerStep(s, t, s1.workers[t]);
      } else {
        WorkerAt(s, t);
        NoRowsBeforeReservation(s, t);
        var rows := S.PlannedRows(w.job, t, w.epoch, w.bundle, w.parts);
        ReservedRows(s, t, s1.workers[t], rows);
        ReservationKeepsLinks(s, t, s1.workers[t]);
        ReservationKeepsJobs(s, t, s1.workers[t], rows);
      }
    }
  }

  // ---- the classification of the reservations

  lemma CompensateMoves(s: State, t: Token)
    requires Inv(s) && t in s.workers && s.workers[t].pc.AtCompensate?
    ensures Moves(s, t, Goto(s.workers[t], AtRefreshFailed))
    ensures forall nm :: nm in Confirmed(s.workers[t], t) ==> nm !in s.objects
  {
    hide JobsOk, LinksOk, EndsOk, RowsOk;
    var w := s.workers[t];
    WorkerAt(s, t);
    forall nm | nm in Confirmed(w, t)
      ensures nm !in s.objects
    {
      if nm !in w.confirmed {
        assert nm == SlotName(w, t, nm.slot);
      }
    }
  }

  lemma ClassifiedRows(s: State, t: Token, confirmed: set<Name>)
    requires Inv(s) && t in s.workers && s.workers[t].pc.AtRefreshFailed?
    requires forall nm :: nm in confirmed ==> nm !in s.objects
    ensures RowsOk(S.Compensate(s.db, s.workers[t].job, t, confirmed).journal, s.db.files, s.objects, s.workers,
                   s.named)
  {
    hide JobsOk, LinksOk, EndsOk, WorkersOk, ObjectsOk, FilesOk, RowOk;
    var journal := S.Compensate(s.db, s.workers[t].job, t, confirmed).journal;
    assert journal.Keys == s.db.journal.Keys;
    forall nm | nm in journal
      ensures RowOk(nm, journal[nm], s.workers[nm.token], nm in s.db.files, nm in s.objects, s.named)
    {
      ClassifiedRow(nm, s.db.journal[nm], journal[nm], s.workers[nm.token], t, nm in s.db.files, nm in s.objects,
                    s.named);
    }
  }

  // A planned row of a worker that neither writes nor cleans up may be filed either way.
  lemma ClassifiedRow(nm: Name, row: Row, row1: Row, w: Worker, t: Token, filed: bool, stored: bool,
                      named: map<FileId, Name>)
    requires RowOk(nm, row, w, filed, stored, named)
    requires nm.token == t ==> w.pc.AtRefreshFailed?
    requires row1 == row || (row.token == t && row.state.Planned?
                             && (row1 == row.(state := NeedsReview) || (row1 == row.(state := Compensated) && !stored)))
    ensures RowOk(nm, row1, w, filed, stored, named)
  {
  }

  lemma CompensatedRest(s: State, j: JobId, t: Token, confirmed: set<Name>)
    requires Inv(s)
    ensures var db := S.Compensate(s.db, j, t, confirmed);
      && db.jobs == s.db.jobs && db.files == s.db.files && db.links == s.db.links
      && JobsOk(db.jobs, db.journal, s.usedJobs, s.claims) && FilesOk(db.files, db.journal)
      && ObjectsOk(s.objects, s.purging, db.journal, s.workers)
  {
    hide RowsOk, LinksOk, EndsOk, WorkersOk, ClaimsOk;
  }

  lemma CompensateKeepsInv(s: State, t: Token, net: Net)
    requires Inv(s)
    ensures Inv(DoCompensate(s, t, net))
  {
    hide JobsOk, ClaimsOk, RowsOk, LinksOk, EndsOk, WorkersOk, FilesOk, ObjectsOk, Moves, S.Compensate, Confirmed;
    if t in s.workers && s.workers[t].pc.AtCompensate? {
      var w := s.workers[t];
      CompensateMoves(s, t);
      var s1 := SetWorker(s, t, Goto(w, AtRefreshFailed));
      WorkerStep(s, t, Goto(w, AtRefreshFailed));
      ClassifiedRows(s1, t, Confirmed(w, t));
      CompensatedRest(s1, w.job, t, Confirmed(w, t));
    }
  }

  // ---- retention

  lemma PurgeObjectKeepsInv(s: State, nm: Name)
    requires Inv(s)
    ensures Inv(DoPurgeObject(s, nm))
  {
    hide LinksOk, EndsOk, JobsOk, WorkersOk, ClaimsOk, RowsOk, FilesOk;
    if nm in s.db.files {
      RemoveObjectKeepsInv(s, nm);
      FiledIsCommitted(s, nm);
    }
  }

  lemma FiledIsCommitted(s: State, nm: Name)
    requires Inv(s) && nm in s.db.files
    ensures nm in s.db.journal && s.db.journal[nm].state.Committed?
  {
    hide LinksOk, EndsOk, JobsOk, WorkersOk, ClaimsOk, ObjectsOk;
    assert RowOk(nm, s.db.journal[nm], s.workers[nm.token], true, nm in s.objects, s.named);
  }

  lemma FileIdsDistinct(s: State)
    requires Inv(s)
    ensures forall nm :: nm in s.db.files ==> s.db.files[nm] in s.named && s.named[s.db.files[nm]] == nm
                                              && s.db.journal[nm].state.Committed?
  {
    hide EndsOk, JobsOk, WorkersOk, ObjectsOk, LinksOk;
    forall nm | nm in s.db.files
      ensures s.db.files[nm] in s.named && s.named[s.db.files[nm]] == nm && s.db.journal[nm].state.Committed?
    {
      assert RowOk(nm, s.db.journal[nm], s.workers[nm.token], true, nm in s.objects, s.named);
    }
  }

  lemma PurgedLinks(s: State, nm: Name, clearOutput: bool)
    requires LinksOk(s.db.links, s.db.jobs.Keys, s.db.files, s.workers, s.named) && nm in s.db.files
    requires forall nn :: nn in s.db.files ==> s.db.files[nn] in s.named && s.named[s.db.files[nn]] == nn
    ensures LinksOk(S.Purge(s.db, nm, clearOutput).links, s.db.jobs.Keys, s.db.files - {nm}, s.workers, s.named)
  {
    var files := s.db.files - {nm};
    forall l | l in s.db.links && l.file != s.db.files[nm]
      ensures s.named[l.file] in files && files[s.named[l.file]] == l.file
    {
      assert l == LinkFor(s.named[l.file], s.db.files[s.named[l.file]], s.workers[s.named[l.file].token].bundle);
    }
  }

  lemma PurgedFile(s: State, nm: Name)
    requires Inv(s) && nm in s.purging && nm in s.db.files
    ensures WorkersOk(s.workers, s.db.jobs, s.db.files - {nm}, s.objects)
    ensures RowsOk(s.db.journal, s.db.files - {nm}, s.objects, s.workers, s.named)
    ensures FilesOk(s.db.files - {nm}, s.db.journal)
  {
    hide EndsOk, JobsOk, LinksOk, ClaimsOk, WorkersOk, RowsOk, FilesOk;
    PurgedWorkers(s, nm);
    PurgedRows(s, nm);
    PurgedFiles(s, nm);
  }

  lemma PurgedWorkers(s: State, nm: Name)
    requires WorkersOk(s.workers, s.db.jobs, s.db.files, s.objects)
    ensures WorkersOk(s.workers, s.db.jobs, s.db.files - {nm}, s.objects)
  {
    forall t | t in s.workers ensures WorkerOk(t, s.workers[t], s.db.jobs, s.db.files - {nm}, s.objects) {
      assert WorkerOk(t, s.workers[t], s.db.jobs, s.db.files, s.objects);
    }
  }

  lemma PurgedRows(s: State, nm: Name)
    requires RowsOk(s.db.journal, s.db.files, s.objects, s.workers, s.named) && nm !in s.objects
    ensures RowsOk(s.db.journal, s.db.files - {nm}, s.objects, s.workers, s.named)
  {
    hide RowOk;
    forall nn | nn in s.db.journal
      ensures RowOk(nn, s.db.journal[nn], s.workers[nn.token], nn in s.db.files - {nm}, nn in s.objects, s.named)
    {
      UnfiledRow(nn, s.db.journal[nn], s.workers[nn.token], nn in s.db.files, nn in s.objects, s.named);
    }
  }

  lemma UnfiledRow(nm: Name, row: Row, w: Worker, filed: bool, stored: bool, named: map<FileId, Name>)
    requires RowOk(nm, row, w, filed, stored, named)
    ensures !stored ==> RowOk(nm, row, w, false, stored, named)
  {
  }

  lemma PurgedFiles(s: State, nm: Name)
    requires FilesOk(s.db.files, s.db.journal)
    ensures FilesOk(s.db.files - {nm}, s.db.journal)
  {
  }

  lemma ClearedOutputs(s: State, files: Files, nm: Name, clearOutput: bool)
    requires Inv(s) && nm in s.db.files
    requires WorkersOk(s.workers, s.db.jobs, files, s.objects)
    ensures var jobs := S.Purge(s.db, nm, clearOutput).jobs;
            && jobs.Keys == s.db.jobs.Keys && JobsOk(jobs, s.db.journal, s.usedJobs, s.claims)
            && EndsOk(s.ends, s.usedJobs, jobs) && WorkersOk(s.workers, jobs, files, s.objects)
  {
    hide RowsOk, LinksOk, ObjectsOk, FilesOk, ClaimsOk;
    assert S.Purge(s.db, nm, clearOutput).jobs.Keys == s.db.jobs.Keys;
  }

  lemma PurgeRecordKeepsInv(s: State, nm: Name, clearOutput: bool)
    requires Inv(s)
    ensures Inv(DoPurgeRecord(s, nm, clearOutput))
  {
    hide JobsOk, ClaimsOk, WorkersOk, RowsOk, ObjectsOk, FilesOk, LinksOk, EndsOk;
    if nm in s.purging && nm in s.db.files {
      FileIdsDistinct(s);
      PurgedLinks(s, nm, clearOutput);
      PurgedFile(s, nm);
      ClearedOutputs(s, s.db.files - {nm}, nm, clearOutput);
    }
  }

  // ---- publication

  // What holds of the state and the chosen ids when the publishing transaction takes effect.
  ghost predicate Publishing(s: State, t: Token, ids: seq<FileId>) {
    && t in s.workers && s.workers[t].pc.AtPublish? && s.workers[t].sample.Some?
    && |ids| == s.workers[t].parts + 1 && FreshIds(s, ids)
    && S.Publish(s.db, s.workers[t].job, t, s.workers[t].sample.value, s.workers[t].bundle, ids).Some?
  }

  function PublishedJob(s: State, t: Token, ids: seq<FileId>): Job
    requires t in s.workers && s.workers[t].job in s.db.jobs && |ids| > 0
  {
    s.db.jobs[s.workers[t].job].(status := Completed, progress := 100, output := Some(ids[0]))
  }

  // Before publication every row of the attempt is one of its planned slots.
  lemma UnpublishedRows(s: State, t: Token)
    requires Inv(s) && t in s.workers && s.workers[t].pc.AtPublish?
    ensures var w := s.workers[t];
            && w.reserved && !w.published && w.attempted == w.parts + 1 && w.epoch == 1
            && Slots(w.job, t, w.parts) <= s.db.journal.Keys
    ensures forall nm :: nm in s.db.journal && nm.token == t ==>
      nm in Slots(s.workers[t].job, t, s.workers[t].parts) && !s.db.journal[nm].state.Committed?
    ensures forall nm :: nm in s.db.files || nm in s.purging ==> nm.token != t
    ensures forall nm :: nm in s.db.journal ==> nm.token in s.workers
  {
    hide JobsOk, LinksOk, EndsOk, ClaimsOk;
    WorkerAt(s, t);
    assert forall nm :: nm in s.db.journal ==>
      RowOk(nm, s.db.journal[nm], s.workers[nm.token], nm in s.db.files, nm in s.objects, s.named);
  }

  lemma PublishedJobs(s: State, t: Token, ids: seq<FileId>, rows: Journal)
    requires Inv(s) && t in s.workers && s.workers[t].job in s.db.jobs && |ids| > 0
    requires s.db.jobs[s.workers[t].job].status.Running?
    requires forall nm :: nm in rows ==> nm.job == s.workers[t].job
    requires Name(s.workers[t].job, t, 0) in rows && rows[Name(s.workers[t].job, t, 0)].file == Some(ids[0])
    ensures JobsOk(s.db.jobs[s.workers[t].job := PublishedJob(s, t, ids)], s.db.journal + rows, s.usedJobs, s.claims)
  {
    hide WorkersOk, RowsOk, ObjectsOk, FilesOk, LinksOk, EndsOk;
    JobAt(s, s.workers[t].job);
  }

  lemma PublishedEnds(s: State, j: JobId, job: Job, e: End)
    requires Inv(s) && j in s.db.jobs && s.db.jobs[j].status.Running? && Terminal(job.status) && e.job == j
    ensures EndsOk(s.ends + [e], s.usedJobs, s.db.jobs[j := job])
  {
    hide WorkersOk, RowsOk, ObjectsOk, FilesOk, LinksOk;
    JobAt(s, j);
  }

  lemma PublishedWorkers(s: State, t: Token, v: Worker, job: Job, files: Files)
    requires Inv(s) && t in s.workers && s.workers[t].pc.AtPublish? && Terminal(job.status)
    requires s.workers[t].job in s.db.jobs
    requires v == Goto(s.workers[t], Finished).(published := true) || v == ToFailure(s.workers[t]).(published := true)
    requires forall nm :: nm in files ==> nm.token == t
    ensures WorkersOk(s.workers[t := v], s.db.jobs[v.job := job], s.db.files + files, s.objects)
    ensures ClaimsOk(s.usedJobs, s.claims, s.workers[t := v], s.enqueuing)
  {
    hide JobsOk, RowsOk, ObjectsOk, FilesOk, LinksOk, EndsOk;
    WorkerAt(s, t);
  }

  lemma PublishedRows(s: State, t: Token, v: Worker, ids: seq<FileId>, named: map<FileId, Name>)
    requires RowsOk(s.db.journal, s.db.files, s.objects, s.workers, s.named) && t in s.workers
    requires v.reserved && v.published && v.job == s.workers[t].job && v.parts == s.workers[t].parts
    requires v.bundle == s.workers[t].bundle
    requires |ids| == v.parts + 1 && Slots(v.job, t, v.parts) <= s.db.journal.Keys
    requires forall nm :: nm in s.db.journal && nm.token == t ==> nm in Slots(v.job, t, v.parts)
    requires forall f :: f in s.named ==> f in named && named[f] == s.named[f]
    requires forall k :: 0 <= k < |ids| ==> ids[k] in named && named[ids[k]] == Name(v.job, t, k)
    ensures RowsOk(s.db.journal + S.CommittedRows(s.db.journal, v.job, t, ids),
                   s.db.files + S.PublishedFiles(v.job, t, ids), s.objects, s.workers[t := v], named)
  {
    var journal := s.db.journal + S.CommittedRows(s.db.journal, v.job, t, ids);
    var files := s.db.files + S.PublishedFiles(v.job, t, ids);
    assert journal.Keys == s.db.journal.Keys;
    hide RowOk, Slots, S.CommittedRows, S.PublishedFiles;
    forall nm | nm in journal
      ensures nm.token in s.workers
      ensures RowOk(nm, journal[nm], s.workers[t := v][nm.token], nm in files, nm in s.objects, named)
    {
      assert RowOk(nm, s.db.journal[nm], s.workers[nm.token], nm in s.db.files, nm in s.objects, s.named);
      PublishedAt(s.db.journal, s.db.files, v.job, t, ids, nm);
      if nm.token == t {
        CommittedRowOk(nm, s.db.journal[nm], s.workers[t], v, ids[nm.slot], nm in s.db.files, nm in s.objects, s.named,
                       named);
      } else {
        OtherRowOk(nm, journal[nm], s.workers[nm.token], nm in s.db.files, nm in s.objects, s.named, named);
      }
    }
  }

  // What a publication makes of one row and its file.
  lemma PublishedAt(journal: Journal, files: Files, j: JobId, t: Token, ids: seq<FileId>, nm: Name)
    requires |ids| > 0 && Slots(j, t, |ids| - 1) <= journal.Keys && nm in journal
    ensures (journal + S.CommittedRows(journal, j, t, ids))[nm]
            == if nm in Slots(j, t, |ids| - 1) then journal[nm].(state := Committed, file := Some(ids[nm.slot]))
               else journal[nm]
    ensures nm in files + S.PublishedFiles(j, t, ids) <==> nm in files || nm in Slots(j, t, |ids| - 1)
    ensures nm in Slots(j, t, |ids| - 1) ==> nm == Name(j, t, nm.slot)
  {
    hide Slots;
  }

  lemma CommittedRowOk(nm: Name, row: Row, w: Worker, v: Worker, f: FileId, filed: bool, stored: bool,
                       named: map<FileId, Name>, named1: map<FileId, Name>)
    requires RowOk(nm, row, w, filed, stored, named) && v.reserved && v.published && v.job == w.job
    requires v.parts == w.parts && v.bundle == w.bundle && f in named1 && named1[f] == nm
    ensures RowOk(nm, row.(state := Committed, file := Some(f)), v, true, stored, named1)
  {
  }

  lemma OtherRowOk(nm: Name, row: Row, w: Worker, filed: bool, stored: bool, named: map<FileId, Name>,
                   named1: map<FileId, Name>)
    requires RowOk(nm, row, w, filed, stored, named)
    requires forall f :: f in named ==> f in named1 && named1[f] == named[f]
    ensures RowOk(nm, row, w, filed, stored, named1)
  {
  }

  lemma PublishedObjects(s: State, t: Token, v: Worker, rows: Journal)
    requires Inv(s) && t in s.workers && v.attempted == s.workers[t].attempted && rows.Keys <= s.db.journal.Keys
    requires forall nm :: nm in rows ==> nm.token == t
    requires forall nm :: nm in s.db.files || nm in s.purging ==> nm.token != t
    ensures ObjectsOk(s.objects, s.purging, s.db.journal + rows, s.workers[t := v])
    ensures FilesOk(s.db.files, s.db.journal + rows)
  {
    hide JobsOk, ClaimsOk, RowsOk, WorkersOk, LinksOk, EndsOk;
  }

  lemma PublishedLinksOk(s: State, t: Token, v: Worker, ids: seq<FileId>, named: map<FileId, Name>)
    requires LinksOk(s.db.links, s.db.jobs.Keys, s.db.files, s.workers, s.named) && t in s.workers
    requires v.job in s.db.jobs && |ids| > 0
    requires forall nm :: nm in s.db.files ==> nm.token != t
    requires forall f :: f in s.named ==> f in named && named[f] == s.named[f]
    requires forall k :: 0 <= k < |ids| ==> ids[k] in named && named[ids[k]] == Name(v.job, t, k)
    ensures LinksOk(s.db.links + S.PublishedLinks(v.job, v.bundle, ids), s.db.jobs.Keys,
                    s.db.files + S.PublishedFiles(v.job, t, ids), s.workers[t := v], named)
  {
    var files := s.db.files + S.PublishedFiles(v.job, t, ids);
    var links := s.db.links + S.PublishedLinks(v.job, v.bundle, ids);
    forall nm | nm in files && nm.token == t
      ensures LinkFor(nm, files[nm], v.bundle) in links
    {
      assert nm == Name(v.job, t, nm.slot);
    }
  }

  lemma NewNames(s: State, t: Token, ids: seq<FileId>)
    requires t in s.workers && FreshIds(s, ids)
    ensures var named := NameIds(s.named, s.workers[t], t, ids);
            && (forall f :: f in s.named ==> f in named && named[f] == s.named[f])
            && (forall k :: 0 <= k < |ids| ==> ids[k] in named && named[ids[k]] == Name(s.workers[t].job, t, k))
  {
  }

  lemma EffectivePublishKeepsInv(s: State, t: Token, ids: seq<FileId>, net: Net)
    requires Inv(s) && Publishing(s, t, ids) && !net.Refused?
    ensures Inv(DoPublish(s, t, ids, net))
  {
    hide JobsOk, ClaimsOk, WorkersOk, RowsOk, ObjectsOk, FilesOk, LinksOk, EndsOk, S.CommittedRows,
      S.PublishedFiles, S.PublishedLinks, FreshIds, NameIds;
    var w, s1 := s.workers[t], DoPublish(s, t, ids, net);
    var v := s1.workers[t];
    UnpublishedRows(s, t);
    NewNames(s, t, ids);
    PublishedShape(s, t, ids);
    PublishedJobs(s, t, ids, S.CommittedRows(s.db.journal, w.job, t, ids));
    PublishedEnds(s, w.job, PublishedJob(s, t, ids), End(ByPublish, w.job, t));
    PublishedWorkers(s, t, v, PublishedJob(s, t, ids), S.PublishedFiles(w.job, t, ids));
    PublishedRows(s, t, v, ids, s1.named);
    PublishedObjects(s, t, v, S.CommittedRows(s.db.journal, w.job, t, ids));
    PublishedFilesOk(s, t, ids);
    PublishedLinksOk(s, t, v, ids, s1.named);
    assert s1.db.jobs.Keys == s.db.jobs.Keys;
  }

  lemma PublishedShape(s: State, t: Token, ids: seq<FileId>)
    requires t in s.workers && |ids| > 0 && Slots(s.workers[t].job, t, |ids| - 1) <= s.db.journal.Keys
    ensures var j, rows := s.workers[t].job, S.CommittedRows(s.db.journal, s.workers[t].job, t, ids);
            && rows.Keys <= s.db.journal.Keys
            && (forall nm :: nm in rows ==> nm.token == t && nm.job == j)
            && Name(j, t, 0) in rows && rows[Name(j, t, 0)].file == Some(ids[0])
            && (forall nm :: nm in S.PublishedFiles(j, t, ids) ==>
                  nm.token == t && nm in rows && rows[nm].file == Some(S.PublishedFiles(j, t, ids)[nm]))
  {
  }

  lemma PublishedFilesOk(s: State, t: Token, ids: seq<FileId>)
    requires Inv(s) && t in s.workers && |ids| > 0 && Slots(s.workers[t].job, t, |ids| - 1) <= s.db.journal.Keys
    requires forall nm :: nm in s.db.files ==> nm.token != t
    ensures FilesOk(s.db.files + S.PublishedFiles(s.workers[t].job, t, ids),
                    s.db.journal + S.CommittedRows(s.db.journal, s.workers[t].job, t, ids))
  {
    hide JobsOk, ClaimsOk, RowsOk, WorkersOk, LinksOk, EndsOk, ObjectsOk;
    PublishedShape(s, t, ids);
  }

  lemma PublishKeepsInv(s: State, t: Token, ids: seq<FileId>, net: Net)
    requires Inv(s)
    ensures Inv(DoPublish(s, t, ids, net))
  {
    hide Inv, Moves;
    if t in s.workers && s.workers[t].pc.AtPublish? && s.workers[t].sample.Some? && |ids| == s.workers[t].parts + 1
      && FreshIds(s, ids) {
      if Publishing(s, t, ids) && !net.Refused? {
        EffectivePublishKeepsInv(s, t, ids, net);
      } else {
        ToFailureMoves(s, t);
        WorkerStep(s, t, ToFailure(s.workers[t]));
      }
    }
  }

  // ---- every action, every run

  // The actions of a claimed attempt and its heartbeat.
  predicate OfAttempt(a: Action) {
    a.Sample? || a.Progress? || a.Convert? || a.Raise? || a.Refresh? || a.CheckLease? || a.InsertRows? ||
    a.CheckDest? || a.Store? || a.Publish? || a.LookUp? || a.Delete? || a.Compensate? || a.RefreshFailed? ||
    a.MarkFailed? || a.Crash? || a.BeatSample? || a.Beat?
  }

  lemma AttemptKeepsInv(s: State, a: Action)
    requires Inv(s) && OfAttempt(a)
    ensures Inv(Step(s, a))
  {
    hide Inv, DoCreate, DoEnqueueReturned, DoEnqueueRaised, DoCancelRead, DoCancelWrite, DoClear, DoDeliver,
      DoSample, DoProgress, DoConvert, DoRaise, DoRefresh, DoCheckLease, DoInsertRows, DoCheckDest, DoStore,
      DoPublish, DoLookUp, DoDelete, DoCompensate, DoRefreshFailed, DoMarkFailed, DoCrash, DoBeatSample, DoBeat,
      DoInspect, DoRecover, DoPurgeObject, DoPurgeRecord;
    match a {
      case Sample(t) => SampleKeepsInv(s, t);
      case Progress(t, net) => ProgressKeepsInv(s, t, net);
      case Convert(t, parts, bundle) => ConvertKeepsInv(s, t, parts, bundle);
      case Raise(t) => RaiseKeepsInv(s, t);
      case Refresh(t) => RefreshKeepsInv(s, t);
      case CheckLease(t) => CheckLeaseKeepsInv(s, t);
      case InsertRows(t, net) => InsertRowsKeepsInv(s, t, net);
      case CheckDest(t) => CheckDestKeepsInv(s, t);
      case Store(t, io) => StoreKeepsInv(s, t, io);
      case Publish(t, ids, net) => PublishKeepsInv(s, t, ids, net);
      case LookUp(t, raised) => LookUpKeepsInv(s, t, raised);
      case Delete(t, io) => DeleteKeepsInv(s, t, io);
      case Compensate(t, net) => CompensateKeepsInv(s, t, net);
      case RefreshFailed(t) => RefreshFailedKeepsInv(s, t);
      case MarkFailed(t, net) => MarkFailedKeepsInv(s, t, net);
      case Crash(t) => CrashKeepsInv(s, t);
      case BeatSample(t) => BeatSampleKeepsInv(s, t);
      case Beat(t, ttl, net) => BeatKeepsInv(s, t, ttl, net);
    }
  }

  lemma EnvironmentKeepsInv(s: State, a: Action)
    requires Inv(s) && !OfAttempt(a)
    ensures Inv(Step(s, a))
  {
    hide Inv, DoCreate, DoEnqueueReturned, DoEnqueueRaised, DoCancelRead, DoCancelWrite, DoClear, DoDeliver,
      DoSample, DoProgress, DoConvert, DoRaise, DoRefresh, DoCheckLease, DoInsertRows, DoCheckDest, DoStore,
      DoPublish, DoLookUp, DoDelete, DoCompensate, DoRefreshFailed, DoMarkFailed, DoCrash, DoBeatSample, DoBeat,
      DoInspect, DoRecover, DoPurgeObject, DoPurgeRecord;
    match a {
      case CreateJob(j) => CreateKeepsInv(s, j);
      case EnqueueReturned(j, rq, net) => EnqueueReturnedKeepsInv(s, j, rq, net);
      case EnqueueRaised(j) => EnqueueRaisedKeepsInv(s, j);
      case CancelRead(c, j) => CancelReadKeepsInv(s, c, j);
      case CancelWrite(c) => CancelWriteKeepsInv(s, c);
      case ClearTerminal(js) => ClearKeepsInv(s, js);
      case Deliver(j, t, now, ttl) => DeliverKeepsInv(s, j, t, now, ttl);
      case Inspect(r, j, epoch, rq, now, grace) => InspectKeepsInv(s, r, j, epoch, rq, now, grace);
      case Recover(r, net) => RecoverKeepsInv(s, r, net);
      case PurgeObject(nm) => PurgeObjectKeepsInv(s, nm);
      case PurgeRecord(nm, clearOutput) => PurgeRecordKeepsInv(s, nm, clearOutput);
      case Tick(now) => TickKeepsInv(s, now);
    }
  }

  lemma StepKeepsInv(s: State, a: Action)
    requires Inv(s)
    ensures Inv(Step(s, a))
  {
    hide Inv, Step;
    if OfAttempt(a) {
      AttemptKeepsInv(s, a);
    } else {
      EnvironmentKeepsInv(s, a);
    }
  }

  lemma {:induction false} ExecKeepsInv(s: State, run: seq<Action>)
    requires Inv(s)
    ensures Inv(Exec(s, run))
  {
    hide Inv, Step;
    if run != [] {
      ExecKeepsInv(s, run[..|run| - 1]);
      StepKeepsInv(Exec(s, run[..|run| - 1]), run[|run| - 1]);
    }
  }

  lemma ReachableInv(s: State)
    requires Reachable(s)
    ensures Inv(s)
  {
    var run :| Exec(INIT, run) == s;
    ExecKeepsInv(INIT, run);
  }
}
