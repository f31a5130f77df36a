/** Which steps write the journal, the file records and the endings, and that the published records
    stay: a committed reservation keeps its file record until the removal of that very file begins. */
module ProtocolRecords {
  import opened Rows
  import S = Statements
  import opened Protocol
  import opened ProtocolInvariant

  // The actions that write the journal, the file records or the endings.
  predicate WritesRecords(a: Action) {
    a.InsertRows? || a.Compensate? || a.Publish? || a.PurgeObject? || a.PurgeRecord? || a.MarkFailed? || a.Recover?
  }

  ghost predicate SameRecords(s: State, s1: State) {
    && s1.db.journal == s.db.journal && s1.db.files == s.db.files && s1.purging == s.purging && s1.ends == s.ends
  }

  lemma OtherSteps(s: State, a: Action)
    requires !WritesRecords(a)
    ensures SameRecords(s, Step(s, a))
  {
    hide Step, SameRecords;
    if a.CreateJob? || a.EnqueueReturned? || a.EnqueueRaised? {
      SubmissionSteps(s, a);
    } else if a.CancelRead? || a.CancelWrite? {
      CancelSteps(s, a);
    } else if a.ClearTerminal? || a.Deliver? || a.Inspect? || a.Tick? {
      ServiceSteps(s, a);
    } else if a.Progress? || a.Beat? {
      StatementSteps(s, a);
    } else if a.Store? || a.Delete? || a.LookUp? || a.RefreshFailed? {
      StorageSteps(s, a);
    } else {
      WorkerSteps(s, a);
    }
  }

  lemma SubmissionSteps(s: State, a: Action)
    requires a.CreateJob? || a.EnqueueReturned? || a.EnqueueRaised?
    ensures SameRecords(s, Step(s, a))
  {
    hide DoEnqueueReturned;
    if a.EnqueueReturned? {
      AnswerRecords(s, a.j, a.rq, a.net);
    }
  }

  lemma AnswerRecords(s: State, j: JobId, rq: RqId, net: Net)
    ensures SameRecords(s, DoEnqueueReturned(s, j, rq, net))
  {
  }

  lemma CancelSteps(s: State, a: Action)
    requires a.CancelRead? || a.CancelWrite?
    ensures SameRecords(s, Step(s, a))
  {
  }

  lemma ServiceSteps(s: State, a: Action)
    requires a.ClearTerminal? || a.Deliver? || a.Inspect? || a.Tick?
    ensures SameRecords(s, Step(s, a))
  {
    hide S.Recoverable, S.CommittedRow;
  }

  lemma StatementSteps(s: State, a: Action)
    requires a.Progress? || a.Beat?
    ensures SameRecords(s, Step(s, a))
  {
    hide DoProgress, DoBeat;
    match a {
      case Progress(t, net) => ProgressRecords(s, t, net);
      case Beat(t, ttl, net) => BeatRecords(s, t, ttl, net);
    }
  }

  lemma ProgressRecords(s: State, t: Token, net: Net)
    ensures SameRecords(s, DoProgress(s, t, net))
  {
    hide S.Fenced, ToFailure, Goto;
  }

  lemma BeatRecords(s: State, t: Token, ttl: nat, net: Net)
    ensures SameRecords(s, DoBeat(s, t, ttl, net))
  {
    hide S.Fenced;
  }

  lemma StorageSteps(s: State, a: Action)
    requires a.Store? || a.Delete? || a.LookUp? || a.RefreshFailed?
    ensures SameRecords(s, Step(s, a))
  {
    hide ToFailure, Goto, SlotName;
  }

  lemma WorkerSteps(s: State, a: Action)
    requires a.Sample? || a.Convert? || a.Raise? || a.Refresh? || a.CheckLease? || a.CheckDest? || a.Crash?
             || a.BeatSample?
    ensures SameRecords(s, Step(s, a))
  {
    hide S.Fenced, ToFailure, Goto, SlotName;
  }

  lemma ReservationEndsNothing(s: State, t: Token, net: Net)
    ensures DoInsertRows(s, t, net).ends == s.ends
  {
    hide S.Reserve, ToFailure, Goto;
  }

  lemma ClassificationEndsNothing(s: State, t: Token, net: Net)
    ensures DoCompensate(s, t, net).ends == s.ends
  {
    hide S.Compensate, Confirmed, Goto;
  }

  lemma RemovalEndsNothing(s: State, nm: Name, clearOutput: bool)
    ensures DoPurgeObject(s, nm).ends == s.ends && DoPurgeRecord(s, nm, clearOutput).ends == s.ends
  {
    hide S.Purge;
  }

  // A committed reservation has its file record unless the removal of that file has begun.
  ghost predicate RecordsKept(journal: Journal, files: Files, purging: set<Name>) {
    forall nm :: nm in journal && journal[nm].state.Committed? ==> nm in files || nm in purging
  }

  lemma ReservedKeep(db: Db, w: Worker, t: Token, purging: set<Name>)
    requires RecordsKept(db.journal, db.files, purging)
    ensures var r := S.Reserve(db, w.job, t, w.epoch, w.bundle, w.parts);
      r.Some? ==> RecordsKept(r.value.journal, r.value.files, purging)
  {
    hide Slots;
  }

  lemma ReservationKeeps(s: State, t: Token, net: Net)
    requires RecordsKept(s.db.journal, s.db.files, s.purging)
    ensures var s1 := DoInsertRows(s, t, net); RecordsKept(s1.db.journal, s1.db.files, s1.purging)
  {
    hide ToFailure, Goto, S.Reserve, RecordsKept;
    if t in s.workers {
      ReservedKeep(s.db, s.workers[t], t, s.purging);
    }
  }

  lemma ClassificationKeeps(s: State, t: Token, net: Net)
    requires RecordsKept(s.db.journal, s.db.files, s.purging)
    ensures var s1 := DoCompensate(s, t, net); RecordsKept(s1.db.journal, s1.db.files, s1.purging)
  {
    hide Goto, Confirmed;
  }

  lemma PublicationKeeps(s: State, t: Token, ids: seq<FileId>, net: Net)
    requires RecordsKept(s.db.journal, s.db.files, s.purging)
    ensures var s1 := DoPublish(s, t, ids, net); RecordsKept(s1.db.journal, s1.db.files, s1.purging)
  {
    hide S.Publish, FreshIds, NameIds, ToFailure, Goto, RecordsKept;
    if t in s.workers && s.workers[t].sample.Some? && |ids| > 0 {
      var w := s.workers[t];
      if S.Publish(s.db, w.job, t, w.sample.value, w.bundle, ids).Some? {
        PublishedKeep(s.db, w.job, t, w.sample.value, w.bundle, ids, s.purging);
      }
    }
  }

  lemma PublishedKeep(db: Db, j: JobId, t: Token, now: int, bundle: bool, ids: seq<FileId>, purging: set<Name>)
    requires |ids| > 0 && S.Publish(db, j, t, now, bundle, ids).Some? && RecordsKept(db.journal, db.files, purging)
    ensures var db1 := S.Publish(db, j, t, now, bundle, ids).value; RecordsKept(db1.journal, db1.files, purging)
  {
    hide S.PublishedLinks, Slots;
  }

  lemma FailureKeeps(s: State, t: Token, net: Net)
    ensures var s1 := DoMarkFailed(s, t, net);
      s1.db.journal == s.db.journal && s1.db.files == s.db.files && s1.purging == s.purging
  {
    hide S.Fenced, Goto;
  }

  lemma RecoveryKeeps(s: State, r: nat, net: Net)
    ensures var s1 := DoRecover(s, r, net);
      s1.db.journal == s.db.journal && s1.db.files == s.db.files && s1.purging == s.purging
  {
  }

  lemma RemovalBegins(s: State, nm: Name)
    requires RecordsKept(s.db.journal, s.db.files, s.purging)
    ensures var s1 := DoPurgeObject(s, nm); RecordsKept(s1.db.journal, s1.db.files, s1.purging)
  {
  }

  lemma RemovalEnds(s: State, nm: Name, clearOutput: bool)
    requires RecordsKept(s.db.journal, s.db.files, s.purging)
    ensures var s1 := DoPurgeRecord(s, nm, clearOutput);
      RecordsKept(s1.db.journal, s1.db.files, s1.purging)
  {
  }

  lemma WritesKeep(s: State, a: Action)
    requires RecordsKept(s.db.journal, s.db.files, s.purging) && WritesRecords(a)
    ensures var s1 := Step(s, a); RecordsKept(s1.db.journal, s1.db.files, s1.purging)
  {
    hide RecordsKept, DoCreate, DoEnqueueReturned, DoEnqueueRaised, DoCancelRead, DoCancelWrite, DoClear, DoDeliver,
      DoSample, DoProgress, DoConvert, DoRaise, DoRefresh, DoCheckLease, DoInsertRows, DoCheckDest, DoStore,
      DoPublish, DoLookUp, DoDelete, DoCompensate, DoRefreshFailed, DoMarkFailed, DoCrash, DoBeatSample, DoBeat,
      DoInspect, DoRecover, DoPurgeObject, DoPurgeRecord;
    match a {
      case InsertRows(t, net) => ReservationKeeps(s, t, net);
      case Compensate(t, net) => ClassificationKeeps(s, t, net);
      case Publish(t, ids, net) => PublicationKeeps(s, t, ids, net);
      case MarkFailed(t, net) => FailureKeeps(s, t, net);
      case _ => ServicesKeep(s, a);
    }
  }

  // Recovery and retention.
  lemma ServicesKeep(s: State, a: Action)
    requires RecordsKept(s.db.journal, s.db.files, s.purging) && (a.Recover? || a.PurgeObject? || a.PurgeRecord?)
    ensures var s1 := Step(s, a); RecordsKept(s1.db.journal, s1.db.files, s1.purging)
  {
    hide RecordsKept, DoRecover, DoPurgeObject, DoPurgeRecord;
    match a {
      case Recover(r, net) => RecoveryKeeps(s, r, net);
      case PurgeObject(nm) => RemovalBegins(s, nm);
      case PurgeRecord(nm, clearOutput) => RemovalEnds(s, nm, clearOutput);
    }
  }

  lemma StepKeepsRecords(s: State, a: Action)
    requires RecordsKept(s.db.journal, s.db.files, s.purging)
    ensures var s1 := Step(s, a); RecordsKept(s1.db.journal, s1.db.files, s1.purging)
  {
    hide Step, RecordsKept;
    if WritesRecords(a) {
      WritesKeep(s, a);
    } else {
      OtherSteps(s, a);
    }
  }

  lemma {:induction false} ExecKeepsRecords(s: State, run: seq<Action>)
    requires RecordsKept(s.db.journal, s.db.files, s.purging)
    ensures var s1 := Exec(s, run); RecordsKept(s1.db.journal, s1.db.files, s1.purging)
  {
    hide RecordsKept, Step;
    if run != [] {
      ExecKeepsRecords(s, run[..|run| - 1]);
      StepKeepsRecords(Exec(s, run[..|run| - 1]), run[|run| - 1]);
    }
  }

  // In every reachable state a committed reservation has its file record, unless the removal of
  // that file has begun.
  lemma CommittedHaveFiles(s: State)
    requires Reachable(s)
    ensures RecordsKept(s.db.journal, s.db.files, s.purging)
  {
    var run :| Exec(INIT, run) == s;
    ExecKeepsRecords(INIT, run);
  }
}
