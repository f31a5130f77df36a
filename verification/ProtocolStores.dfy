/** The published files are really there: no file record without its object, unless the removal of
    that very file has begun. */
module ProtocolStores {
  import opened Rows
  import S = Statements
  import opened Protocol
  import opened ProtocolInvariant
  import ProtocolClosure
  import ProtocolTheorems

  // How many outputs, from slot 0 on, a writing attempt has certainly stored.
  function StoredBy(w: Worker): nat {
    if w.pc.AtCheckDest? || w.pc.AtPublish? then w.attempted
    else if w.pc.AtStore? && w.attempted > 0 then w.attempted - 1
    else 0
  }

  ghost predicate WritesKept(workers: Workers, objects: set<Name>) {
    forall t, k: nat :: t in workers && k < StoredBy(workers[t]) ==> SlotName(workers[t], t, k) in objects
  }

  ghost predicate FilesKept(files: Files, objects: set<Name>, purging: set<Name>) {
    forall nm :: nm in files ==> nm in objects || nm in purging
  }

  ghost predicate Kept(s: State) {
    WritesKept(s.workers, s.objects) && FilesKept(s.db.files, s.objects, s.purging)
  }

  // A step that removes no object, adds no file and stores nothing.
  ghost predicate Calm(s: State, s1: State) {
    && s.objects <= s1.objects && s1.db.files.Keys <= s.db.files.Keys && s.purging <= s1.purging
    && (forall t :: t in s1.workers ==>
          || StoredBy(s1.workers[t]) == 0
          || (t in s.workers && s1.workers[t].job == s.workers[t].job
              && StoredBy(s1.workers[t]) <= StoredBy(s.workers[t])))
  }

  lemma CalmKeeps(s: State, s1: State)
    requires Kept(s) && Calm(s, s1)
    ensures Kept(s1)
  {
    hide StoredBy;
    forall t, k: nat | t in s1.workers && k < StoredBy(s1.workers[t])
      ensures SlotName(s1.workers[t], t, k) in s1.objects
    {
      assert SlotName(s.workers[t], t, k) in s.objects;
    }
  }

  // Steps of one worker outside its writes.
  lemma OneCalm(s: State, s1: State, t: Token)
    requires s1.objects == s.objects && s1.db.files == s.db.files && s1.purging == s.purging
    requires s1.workers == s.workers
             || (t in s.workers && t in s1.workers && s1.workers == s.workers[t := s1.workers[t]]
                                         && s1.workers[t].job == s.workers[t].job
                                         && StoredBy(s1.workers[t]) <= StoredBy(s.workers[t]))
    ensures Calm(s, s1)
  {
    hide StoredBy;
  }

  lemma OneKeeps(s: State, s1: State, t: Token)
    requires Kept(s) && s1.objects == s.objects && s1.db.files == s.db.files && s1.purging == s.purging
    requires s1.workers == s.workers
             || (t in s.workers && t in s1.workers && s1.workers == s.workers[t := s1.workers[t]]
                                         && s1.workers[t].job == s.workers[t].job
                                         && StoredBy(s1.workers[t]) <= StoredBy(s.workers[t]))
    ensures Kept(s1)
  {
    hide Kept, Calm, StoredBy;
    OneCalm(s, s1, t);
    CalmKeeps(s, s1);
  }

  lemma CreateKeeps(s: State, j: JobId)
    requires Kept(s)
    ensures Kept(DoCreate(s, j))
  {
    hide Kept;
    OneKeeps(s, DoCreate(s, j), 0);
  }

  lemma EnqueueReturnedKeeps(s: State, j: JobId, rq: RqId, net: Net)
    requires Kept(s)
    ensures Kept(DoEnqueueReturned(s, j, rq, net))
  {
    hide Kept;
    OneKeeps(s, DoEnqueueReturned(s, j, rq, net), 0);
  }

  lemma EnqueueRaisedKeeps(s: State, j: JobId)
    requires Kept(s)
    ensures Kept(DoEnqueueRaised(s, j))
  {
    hide Kept;
    OneKeeps(s, DoEnqueueRaised(s, j), 0);
  }

  lemma CancelReadKeeps(s: State, c: nat, j: JobId)
    requires Kept(s)
    ensures Kept(DoCancelRead(s, c, j))
  {
    hide Kept;
    OneKeeps(s, DoCancelRead(s, c, j), 0);
  }

  lemma CancelWriteKeeps(s: State, c: nat)
    requires Kept(s)
    ensures Kept(DoCancelWrite(s, c))
  {
    hide Kept;
    OneKeeps(s, DoCancelWrite(s, c), 0);
  }

  lemma ClearKeeps(s: State, js: set<JobId>)
    requires Kept(s)
    ensures Kept(DoClear(s, js))
  {
    hide Kept;
    OneKeeps(s, DoClear(s, js), 0);
  }

  lemma SampleKeeps(s: State, t: Token)
    requires Kept(s)
    ensures Kept(DoSample(s, t))
  {
    hide Kept;
    OneKeeps(s, DoSample(s, t), t);
  }

  lemma ProgressKeeps(s: State, t: Token, net: Net)
    requires Kept(s)
    ensures Kept(DoProgress(s, t, net))
  {
    hide Kept, DoProgress;
    ProtocolClosure.ProgressShape(s, t, net);
    OneKeeps(s, DoProgress(s, t, net), t);
  }

  lemma ConvertKeeps(s: State, t: Token, parts: nat, bundle: bool)
    requires Kept(s)
    ensures Kept(DoConvert(s, t, parts, bundle))
  {
    hide Kept;
    OneKeeps(s, DoConvert(s, t, parts, bundle), t);
  }

  lemma RaiseKeeps(s: State, t: Token)
    requires Kept(s)
    ensures Kept(DoRaise(s, t))
  {
    hide Kept;
    OneKeeps(s, DoRaise(s, t), t);
  }

  lemma RefreshKeeps(s: State, t: Token)
    requires Kept(s)
    ensures Kept(DoRefresh(s, t))
  {
    hide Kept;
    OneKeeps(s, DoRefresh(s, t), t);
  }

  lemma CheckLeaseKeeps(s: State, t: Token)
    requires Kept(s)
    ensures Kept(DoCheckLease(s, t))
  {
    hide Kept, S.Fenced;
    OneKeeps(s, DoCheckLease(s, t), t);
  }

  lemma CheckDestKeeps(s: State, t: Token)
    requires Kept(s)
    ensures Kept(DoCheckDest(s, t))
  {
    hide Kept;
    OneKeeps(s, DoCheckDest(s, t), t);
  }

  // A worker outside its writes counts nothing as stored.
  lemma CleaningKeeps(s: State, t: Token, w: Worker)
    requires Kept(s) && t in s.workers && w.job == s.workers[t].job && StoredBy(w) == 0
    ensures Kept(SetWorker(s, t, w))
  {
    hide Kept;
    OneKeeps(s, SetWorker(s, t, w), t);
  }

  lemma LookUpKeeps(s: State, t: Token, raised: bool)
    requires Kept(s)
    ensures Kept(DoLookUp(s, t, raised))
  {
    hide Kept, SlotName, SetWorker;
    if t in s.workers && s.workers[t].pc.AtLookUp? {
      var w := s.workers[t];
      CleaningKeeps(s, t, Goto(w, AtCompensate));
      CleaningKeeps(s, t, Goto(w, AtDelete));
      if w.cursor > 0 {
        CleaningKeeps(s, t, w.(cursor := w.cursor - 1));
      }
    }
  }

  lemma CompensateKeeps(s: State, t: Token, net: Net)
    requires Kept(s)
    ensures Kept(DoCompensate(s, t, net))
  {
    hide Kept, Confirmed;
    OneKeeps(s, DoCompensate(s, t, net), t);
  }

  lemma RefreshFailedKeeps(s: State, t: Token)
    requires Kept(s)
    ensures Kept(DoRefreshFailed(s, t))
  {
    hide Kept;
    OneKeeps(s, DoRefreshFailed(s, t), t);
  }

  lemma MarkFailedKeeps(s: State, t: Token, net: Net)
    requires Kept(s)
    ensures Kept(DoMarkFailed(s, t, net))
  {
    hide Kept, S.Fenced;
    OneKeeps(s, DoMarkFailed(s, t, net), t);
  }

  lemma CrashKeeps(s: State, t: Token)
    requires Kept(s)
    ensures Kept(DoCrash(s, t))
  {
    hide Kept;
    OneKeeps(s, DoCrash(s, t), t);
  }

  lemma BeatSampleKeeps(s: State, t: Token)
    requires Kept(s)
    ensures Kept(DoBeatSample(s, t))
  {
    hide Kept;
    OneKeeps(s, DoBeatSample(s, t), t);
  }

  lemma BeatKeeps(s: State, t: Token, ttl: nat, net: Net)
    requires Kept(s)
    ensures Kept(DoBeat(s, t, ttl, net))
  {
    hide Kept, S.Fenced;
    OneKeeps(s, DoBeat(s, t, ttl, net), t);
  }

  lemma RecoverKeeps(s: State, r: nat, net: Net)
    requires Kept(s)
    ensures Kept(DoRecover(s, r, net))
  {
    hide Kept;
    OneKeeps(s, DoRecover(s, r, net), 0);
  }

  lemma InspectKeeps(s: State, r: nat, j: JobId, epoch: nat, rq: RqId, now: int, grace: int)
    requires Kept(s)
    ensures Kept(DoInspect(s, r, j, epoch, rq, now, grace))
  {
    hide Kept, S.CommittedRow, S.Recoverable;
    OneKeeps(s, DoInspect(s, r, j, epoch, rq, now, grace), 0);
  }

  lemma DeliverKeeps(s: State, j: JobId, t: Token, now: int, ttl: nat)
    requires Kept(s)
    ensures Kept(DoDeliver(s, j, t, now, ttl))
  {
    hide Kept;
    CalmKeeps(s, DoDeliver(s, j, t, now, ttl));
  }

  // The reservation starts the writes with nothing stored.
  lemma InsertRowsKeeps(s: State, t: Token, net: Net)
    requires Kept(s) && Inv(s)
    ensures Kept(DoInsertRows(s, t, net))
  {
    hide Kept, Inv, S.Reserve;
    NothingAttempted(s, t);
    if t in s.workers {
      ProtocolClosure.ReservedJobs(s.db, s.workers[t], t);
    }
    OneKeeps(s, DoInsertRows(s, t, net), t);
  }

  lemma PurgeRecordKeeps(s: State, nm: Name, clearOutput: bool)
    requires Kept(s)
    ensures Kept(DoPurgeRecord(s, nm, clearOutput))
  {
    hide StoredBy;
  }

  // A write that is acknowledged stores its slot; any other outcome ends the writes.
  lemma StoreKeeps(s: State, t: Token, io: Io)
    requires Kept(s)
    ensures Kept(DoStore(s, t, io))
  {
    var s1 := DoStore(s, t, io);
    forall u, k: nat | u in s1.workers && k < StoredBy(s1.workers[u])
      ensures SlotName(s1.workers[u], u, k) in s1.objects
    {
      assert k < StoredBy(s.workers[u]) ==> SlotName(s.workers[u], u, k) in s.objects;
    }
  }

  // Cleanup removes only names of its own attempt that no file owns.
  lemma DeletedName(s: State, t: Token)
    requires Inv(s) && t in s.workers && s.workers[t].pc.AtDelete?
    ensures s.workers[t].cursor > 0 && SlotName(s.workers[t], t, s.workers[t].cursor - 1) !in s.db.files
  {
    WorkerAt(s, t);
    hide Inv;
  }

  lemma DeleteKeeps(s: State, t: Token, io: Io)
    requires Kept(s) && Inv(s)
    ensures Kept(DoDelete(s, t, io))
  {
    hide Inv;
    var s1 := DoDelete(s, t, io);
    if t in s.workers && s.workers[t].pc.AtDelete? {
      DeletedName(s, t);
      forall u, k: nat | u in s1.workers && k < StoredBy(s1.workers[u])
        ensures SlotName(s1.workers[u], u, k) in s1.objects
      {
        assert SlotName(s.workers[u], u, k) in s.objects;
      }
    }
  }

  // Removing the object of a file touches no attempt that is still writing.
  lemma PurgeKeeps(s: State, nm: Name)
    requires Kept(s) && Inv(s)
    ensures Kept(DoPurgeObject(s, nm))
  {
    var s1 := DoPurgeObject(s, nm);
    if nm in s.db.files {
      FiledIsNotWriting(s, nm);
    }
    hide Inv;
    forall u, k: nat | u in s1.workers && k < StoredBy(s1.workers[u])
      ensures SlotName(s1.workers[u], u, k) in s1.objects
    {
      assert SlotName(s.workers[u], u, k) in s.objects;
    }
  }

  lemma FiledIsNotWriting(s: State, nm: Name)
    requires Inv(s) && nm in s.db.files
    ensures nm.token in s.workers && StoredBy(s.workers[nm.token]) == 0
  {
    hide JobsOk, ClaimsOk, WorkersOk, RowsOk, ObjectsOk, LinksOk, EndsOk;
    assert nm in s.db.journal;
    ProtocolTheorems.RowAt(s, nm);
    WorkerAt(s, nm.token);
  }

  // The publication adds files only for slots that are all stored.
  lemma PublishKeeps(s: State, t: Token, ids: seq<FileId>, net: Net)
    requires Kept(s) && Inv(s)
    ensures Kept(DoPublish(s, t, ids, net))
  {
    hide S.Publish, FreshIds, NameIds, Inv, WritesKept, FilesKept;
    PublishKeepsWrites(s, t, ids, net);
    PublishKeepsFiles(s, t, ids, net);
  }

  lemma PublishKeepsWrites(s: State, t: Token, ids: seq<FileId>, net: Net)
    requires WritesKept(s.workers, s.objects)
    ensures WritesKept(DoPublish(s, t, ids, net).workers, DoPublish(s, t, ids, net).objects)
  {
    hide S.Publish, FreshIds, NameIds;
    var s1 := DoPublish(s, t, ids, net);
    forall u, k: nat | u in s1.workers && k < StoredBy(s1.workers[u])
      ensures SlotName(s1.workers[u], u, k) in s1.objects
    {
      assert SlotName(s.workers[u], u, k) in s.objects;
    }
  }

  lemma PublishKeepsFiles(s: State, t: Token, ids: seq<FileId>, net: Net)
    requires Kept(s) && Inv(s)
    ensures var s1 := DoPublish(s, t, ids, net); FilesKept(s1.db.files, s1.objects, s1.purging)
  {
    hide S.Publish, FreshIds, NameIds, Inv;
    if t in s.workers && s.workers[t].pc.AtPublish? && |ids| == s.workers[t].parts + 1 && s.workers[t].sample.Some? {
      AllStored(s, t);
      NewFiles(s, t, ids);
    }
  }

  lemma AllStored(s: State, t: Token)
    requires Kept(s) && Inv(s) && t in s.workers && s.workers[t].pc.AtPublish?
    ensures forall k: nat :: k <= s.workers[t].parts ==> SlotName(s.workers[t], t, k) in s.objects
  {
    WorkerAt(s, t);
    hide Inv;
  }

  lemma NewFiles(s: State, t: Token, ids: seq<FileId>)
    requires t in s.workers && s.workers[t].sample.Some? && |ids| == s.workers[t].parts + 1
    ensures var w := s.workers[t];
      var r := S.Publish(s.db, w.job, t, w.sample.value, w.bundle, ids);
      r.Some? ==> forall nm :: nm in r.value.files ==>
        nm in s.db.files || (nm.slot <= w.parts && nm == SlotName(w, t, nm.slot))
  {
    hide S.CommittedRows, S.PublishedLinks;
  }

  lemma StepKeeps(s: State, a: Action)
    requires Kept(s) && Inv(s)
    ensures Kept(Step(s, a))
  {
    hide Kept, Inv, DoCreate, DoEnqueueReturned, DoEnqueueRaised, DoCancelRead, DoCancelWrite, DoClear, DoDeliver,
      DoSample, DoProgress, DoConvert, DoRaise, DoRefresh, DoCheckLease, DoInsertRows, DoCheckDest, DoStore,
      DoPublish, DoLookUp, DoDelete, DoCompensate, DoRefreshFailed, DoMarkFailed, DoCrash, DoBeatSample, DoBeat,
      DoInspect, DoRecover, DoPurgeObject, DoPurgeRecord;
    match a {
      case CreateJob(j) => CreateKeeps(s, j);
      case EnqueueReturned(j, rq, net) => EnqueueReturnedKeeps(s, j, rq, net);
      case EnqueueRaised(j) => EnqueueRaisedKeeps(s, j);
      case CancelRead(c, j) => CancelReadKeeps(s, c, j);
      case CancelWrite(c) => CancelWriteKeeps(s, c);
      case ClearTerminal(js) => ClearKeeps(s, js);
      case Deliver(j, t, now, ttl) => DeliverKeeps(s, j, t, now, ttl);
      case Inspect(r, j, epoch, rq, now, grace) => InspectKeeps(s, r, j, epoch, rq, now, grace);
      case Recover(r, net) => RecoverKeeps(s, r, net);
      case PurgeObject(nm) => PurgeKeeps(s, nm);
      case PurgeRecord(nm, clearOutput) => PurgeRecordKeeps(s, nm, clearOutput);
      case Tick(now) => OneKeeps(s, s.(clock := now), 0);
      case _ => AttemptKeeps(s, a);
    }
  }

  lemma AttemptKeeps(s: State, a: Action)
    requires Kept(s) && Inv(s) && OfAttempt(a)
    ensures Kept(Step(s, a))
  {
    hide Kept, Inv, DoCreate, DoEnqueueReturned, DoEnqueueRaised, DoCancelRead, DoCancelWrite, DoClear, DoDeliver,
      DoSample, DoProgress, DoConvert, DoRaise, DoRefresh, DoCheckLease, DoInsertRows, DoCheckDest, DoStore,
      DoPublish, DoLookUp, DoDelete, DoCompensate, DoRefreshFailed, DoMarkFailed, DoCrash, DoBeatSample, DoBeat,
      DoInspect, DoRecover, DoPurgeObject, DoPurgeRecord;
    match a {
      case Sample(t) => SampleKeeps(s, t);
      case Progress(t, net) => ProgressKeeps(s, t, net);
      case Convert(t, parts, bundle) => ConvertKeeps(s, t, parts, bundle);
      case Raise(t) => RaiseKeeps(s, t);
      case Refresh(t) => RefreshKeeps(s, t);
      case CheckLease(t) => CheckLeaseKeeps(s, t);
      case Crash(t) => CrashKeeps(s, t);
      case BeatSample(t) => BeatSampleKeeps(s, t);
      case Beat(t, ttl, net) => BeatKeeps(s, t, ttl, net);
      case _ => WritesKeep(s, a);
    }
  }

  // From the reservation to the classification of a failure.
  lemma WritesKeep(s: State, a: Action)
    requires Kept(s) && Inv(s)
    requires a.InsertRows? || a.CheckDest? || a.Store? || a.Publish? || a.LookUp? || a.Delete? || a.Compensate?
             || a.RefreshFailed? || a.MarkFailed?
    ensures Kept(Step(s, a))
  {
    hide Kept, Inv, DoInsertRows, DoCheckDest, DoStore, DoPublish, DoLookUp, DoDelete, DoCompensate, DoRefreshFailed,
      DoMarkFailed;
    match a {
      case InsertRows(t, net) => InsertRowsKeeps(s, t, net);
      case CheckDest(t) => CheckDestKeeps(s, t);
      case Store(t, io) => StoreKeeps(s, t, io);
      case Publish(t, ids, net) => PublishKeeps(s, t, ids, net);
      case LookUp(t, raised) => LookUpKeeps(s, t, raised);
      case Delete(t, io) => DeleteKeeps(s, t, io);
      case Compensate(t, net) => CompensateKeeps(s, t, net);
      case RefreshFailed(t) => RefreshFailedKeeps(s, t);
      case MarkFailed(t, net) => MarkFailedKeeps(s, t, net);
    }
  }

  lemma NothingAttempted(s: State, t: Token)
    requires Inv(s)
    ensures t in s.workers && s.workers[t].pc.AtInsertRows? ==> s.workers[t].attempted == 0
  {
    if t in s.workers {
      WorkerAt(s, t);
    }
    hide Inv;
  }

  lemma {:induction false} ExecKeeps(s: State, run: seq<Action>)
    requires Kept(s) && Inv(s)
    ensures Kept(Exec(s, run))
  {
    hide Kept, Inv, Step;
    if run != [] {
      ExecKeeps(s, run[..|run| - 1]);
      ExecKeepsInv(s, run[..|run| - 1]);
      StepKeeps(Exec(s, run[..|run| - 1]), run[|run| - 1]);
    }
  }

  // In every reachable state every file record has its object in the store, unless the removal of
  // that file has begun.
  lemma FilesHaveObjects(s: State)
    requires Reachable(s)
    ensures forall nm :: nm in s.db.files ==> nm in s.objects || nm in s.purging
  {
    var run :| Exec(INIT, run) == s;
    ReachableInv(INIT) by { assert Exec(INIT, []) == INIT; }
    ExecKeeps(INIT, run);
  }

  // The worker's look-up of its destination never finds a file: attempts cannot collide.
  lemma DestinationIsFree(s: State, t: Token)
    requires Reachable(s) && t in s.workers && s.workers[t].pc.AtCheckDest?
    ensures SlotName(s.workers[t], t, s.workers[t].attempted) !in s.db.files
  {
    ReachableInv(s);
    var nm := SlotName(s.workers[t], t, s.workers[t].attempted);
    if nm in s.db.files {
      FiledIsNotWriting(s, nm);
      WorkerAt(s, t);
    }
    hide Inv;
  }
}
