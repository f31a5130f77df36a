/** The attempt as the code executes it refines the protocol: whatever the storage calls, commits
    and clock readings answer, its effect is a run of protocol actions of its worker. */
module AttemptRuns {
  import opened Options
  import opened Rows
  import S = Statements
  import opened Protocol
  import opened ProtocolInvariant
  import A = Attempt

  // What the actions of one worker can change, apart from history and clock.
  ghost predicate Is(s: State, db: Db, objects: set<Name>, t: Token, w: Worker, named: map<FileId, Name>) {
    s.db == db && s.objects == objects && t in s.workers && s.workers[t] == w && s.named == named
  }

  lemma {:induction false} ExecMore(s: State, a: seq<Action>, b: seq<Action>)
    ensures Exec(s, a + b) == Exec(Exec(s, a), b)
    decreases |b|
  {
    hide Step;
    if b == [] {
      assert a + b == a;
    } else {
      assert (a + b)[..|a + b| - 1] == a + b[..|b| - 1];
      ExecMore(s, a, b[..|b| - 1]);
    }
  }

  lemma ExecOne(s: State, a: Action)
    ensures Exec(s, [a]) == Step(s, a)
  {
    hide Step;
    assert [a][..0] == [];
  }

  lemma SampleAt(s: State, db: Db, objects: set<Name>, t: Token, w: Worker, named: map<FileId, Name>, now: int)
    requires Is(s, db, objects, t, w, named) && !w.pc.Crashed?
    ensures Is(Exec(s, [Tick(now), Sample(t)]), db, objects, t, w.(sample := Some(now)), named)
  {
    ExecMore(s, [Tick(now)], [Sample(t)]);
    ExecOne(s, Tick(now));
    ExecOne(Step(s, Tick(now)), Sample(t));
  }

  lemma CheckLeaseAt(s: State, db: Db, objects: set<Name>, t: Token, w: Worker, named: map<FileId, Name>)
    requires Is(s, db, objects, t, w, named) && w.pc.AtCheckLease? && w.sample.Some?
    ensures Is(Exec(s, [CheckLease(t)]), db, objects, t,
               if S.Fenced(db, w.job, t, w.sample.value) then Goto(w, AtInsertRows) else ToFailure(w), named)
  {
    hide S.Fenced, Goto, ToFailure;
    ExecOne(s, CheckLease(t));
  }

  lemma InsertRowsAt(s: State, db: Db, objects: set<Name>, t: Token, w: Worker, named: map<FileId, Name>, net: Net)
    requires Is(s, db, objects, t, w, named) && w.pc.AtInsertRows?
    ensures var r := S.Reserve(db, w.job, t, w.epoch, w.bundle, w.parts);
      Is(Exec(s, [InsertRows(t, net)]), if r.None? || net.Refused? then db else r.value, objects, t,
         if r.None? || net.Refused? then ToFailure(w)
         else (if net.Ack? then Goto(w, AtCheckDest) else ToFailure(w)).(reserved := true), named)
  {
    hide S.Reserve, Goto, ToFailure;
    ExecOne(s, InsertRows(t, net));
  }

  lemma CheckDestAt(s: State, db: Db, objects: set<Name>, t: Token, w: Worker, named: map<FileId, Name>)
    requires Is(s, db, objects, t, w, named) && w.pc.AtCheckDest? && w.attempted <= w.parts
    ensures var w1 := w.(attempted := w.attempted + 1);
      Is(Exec(s, [CheckDest(t)]), db, objects, t,
         if SlotName(w, t, w.attempted) in db.files then ToFailure(w1) else Goto(w1, AtStore), named)
  {
    hide SlotName, Goto, ToFailure;
    ExecOne(s, CheckDest(t));
  }

  lemma StoreAt(s: State, db: Db, objects: set<Name>, t: Token, w: Worker, named: map<FileId, Name>, io: Io)
    requires Is(s, db, objects, t, w, named) && w.pc.AtStore? && w.attempted > 0
    ensures var nm := SlotName(w, t, w.attempted - 1);
      Is(Exec(s, [Store(t, io)]), db, if io.RaisedBefore? then objects else objects + {nm}, t,
         if !io.Done? then ToFailure(w) else Goto(w, if w.attempted <= w.parts then AtCheckDest else AtPublish), named)
  {
    hide SlotName, Goto, ToFailure;
    ExecOne(s, Store(t, io));
  }

  lemma PublishAt(s: State, db: Db, objects: set<Name>, t: Token, w: Worker, named: map<FileId, Name>,
                  ids: seq<FileId>, net: Net)
    requires Is(s, db, objects, t, w, named) && w.pc.AtPublish? && w.sample.Some?
    requires |ids| == w.parts + 1 && FreshIds(s, ids)
    ensures var s1, p := Exec(s, [Publish(t, ids, net)]), S.Publish(db, w.job, t, w.sample.value, w.bundle, ids);
      && s1.db == (if p.None? || net.Refused? then db else p.value) && s1.objects == objects && t in s1.workers
      && s1.workers[t] == (if p.None? || net.Refused? then ToFailure(w)
                           else (if net.Ack? then Goto(w, Finished) else ToFailure(w)).(published := true))
  {
    hide S.Publish, Goto, ToFailure, FreshIds, NameIds;
    ExecOne(s, Publish(t, ids, net));
  }

  lemma LookUpAt(s: State, db: Db, objects: set<Name>, t: Token, w: Worker, named: map<FileId, Name>, raised: bool)
    requires Is(s, db, objects, t, w, named) && w.pc.AtLookUp?
    ensures Is(Exec(s, [LookUp(t, raised)]), db, objects, t,
               if w.cursor == 0 then Goto(w, AtCompensate)
               else if raised || SlotName(w, t, w.cursor - 1) in db.files then w.(cursor := w.cursor - 1)
               else Goto(w, AtDelete), named)
  {
    hide SlotName, Goto;
    ExecOne(s, LookUp(t, raised));
  }

  lemma DeleteAt(s: State, db: Db, objects: set<Name>, t: Token, w: Worker, named: map<FileId, Name>, io: Io)
    requires Is(s, db, objects, t, w, named) && w.pc.AtDelete? && w.cursor > 0
    ensures var nm := SlotName(w, t, w.cursor - 1);
      Is(Exec(s, [Delete(t, io)]), db, if io.RaisedBefore? then objects else objects - {nm}, t,
         Goto(w, AtLookUp).(cursor := w.cursor - 1,
                            confirmed := if io.Done? then w.confirmed + {nm} else w.confirmed), named)
  {
    hide SlotName, Goto;
    ExecOne(s, Delete(t, io));
  }

  lemma CompensateAt(s: State, db: Db, objects: set<Name>, t: Token, w: Worker, named: map<FileId, Name>, net: Net)
    requires Is(s, db, objects, t, w, named) && w.pc.AtCompensate?
    ensures Is(Exec(s, [Compensate(t, net)]),
               if net.Refused? then db else S.Compensate(db, w.job, t, Confirmed(w, t)), objects, t,
               Goto(w, AtRefreshFailed), named)
  {
    hide S.Compensate, Confirmed, Goto;
    ExecOne(s, Compensate(t, net));
  }

  lemma RefreshFailedAt(s: State, db: Db, objects: set<Name>, t: Token, w: Worker, named: map<FileId, Name>)
    requires Is(s, db, objects, t, w, named) && w.pc.AtRefreshFailed?
    ensures Is(Exec(s, [RefreshFailed(t)]), db, objects, t,
               Goto(w, if w.job in db.jobs && !db.jobs[w.job].status.Cancelled? then AtMarkFailed else Finished), named)
  {
    hide Goto;
    ExecOne(s, RefreshFailed(t));
  }

  lemma MarkFailedAt(s: State, db: Db, objects: set<Name>, t: Token, w: Worker, named: map<FileId, Name>, net: Net)
    requires Is(s, db, objects, t, w, named) && w.pc.AtMarkFailed? && w.sample.Some?
    ensures Is(Exec(s, [MarkFailed(t, net)]), A.AfterFailure(db, w.job, t, w.sample.value, net), objects, t,
               Goto(w, Finished), named)
  {
    hide S.MarkFailed, Goto;
    ExecOne(s, MarkFailed(t, net));
  }

  // ---- storing

  // The worker after the storing loop noted n names.
  function Stored(w: Worker, n: nat, done: bool): Worker {
    if done then Goto(w.(attempted := n), AtPublish) else ToFailure(w.(attempted := n))
  }

  lemma {:induction false} StoreStage(s: State, db: Db, objects: set<Name>, t: Token, w: Worker,
                                      named: map<FileId, Name>, ios: seq<Io>, k: nat) returns (run: seq<Action>)
    requires Is(s, db, objects, t, w, named) && w.pc.AtCheckDest? && w.attempted == k < |ios| == w.parts + 1
    ensures var st := A.StoreRun(db.files, objects, w.job, t, ios, k);
      Is(Exec(s, run), db, st.1, t, Stored(w, st.0, st.2), named)
    decreases |ios| - k
  {
    hide Is, Exec;
    var w1 := w.(attempted := k + 1);
    run := [CheckDest(t)];
    CheckDestAt(s, db, objects, t, w, named);
    if Name(w.job, t, k) !in db.files {
      StoreAt(Exec(s, run), db, objects, t, Goto(w1, AtStore), named, ios[k]);
      ExecMore(s, run, [Store(t, ios[k])]);
      run := run + [Store(t, ios[k])];
      var objects1 := if ios[k].RaisedBefore? then objects else objects + {Name(w.job, t, k)};
      if ios[k].Done? && k + 1 < |ios| {
        var w2 := Goto(w1, AtCheckDest);
        var rest := StoreStage(Exec(s, run), db, objects1, t, w2, named, ios, k + 1);
        ExecMore(s, run, rest);
        run := run + rest;
      }
    }
  }

  // ---- cleaning up

  // The names among the first n whose deletion was confirmed.
  function Gone(j: JobId, t: Token, n: nat, files: map<Name, FileId>, lookupRaises: Name -> bool, io: Name -> Io):
      set<Name> {
    set nm | nm in A.FirstNames(j, t, n) && !lookupRaises(nm) && nm !in files && io(nm).Done?
  }

  lemma OneNameMore(j: JobId, t: Token, n: nat)
    ensures A.FirstNames(j, t, n + 1) == A.FirstNames(j, t, n) + [Name(j, t, n)]
  {
  }

  lemma {:induction false} CleanStage(s: State, db: Db, objects: set<Name>, t: Token, w: Worker,
                                      named: map<FileId, Name>, lookupRaises: Name -> bool, io: Name -> Io)
    returns (run: seq<Action>)
    requires Is(s, db, objects, t, w, named) && w.pc.AtLookUp? && w.sample.None?
    ensures Is(Exec(s, run), db, objects - A.Deleted(A.FirstNames(w.job, t, w.cursor), db.files, lookupRaises, io), t,
               w.(cursor := 0, confirmed := w.confirmed + Gone(w.job, t, w.cursor, db.files, lookupRaises, io)), named)
    decreases w.cursor
  {
    hide Is, Exec, A.FirstNames, A.Deleted, Gone;
    if w.cursor == 0 {
      run := [];
      NothingToClean(s, db, objects, t, w, named, lookupRaises, io);
    } else {
      var first, w1, objects1 := CleanStep(s, db, objects, t, w, named, lookupRaises, io);
      CleanedOne(objects, objects1, w, w1, t, db.files, lookupRaises, io);
      var rest := CleanStage(Exec(s, first), db, objects1, t, w1, named, lookupRaises, io);
      ExecMore(s, first, rest);
      run := first + rest;
    }
  }

  // The look-up of the next name and, if it is free, its deletion.
  lemma CleanStep(s: State, db: Db, objects: set<Name>, t: Token, w: Worker, named: map<FileId, Name>,
                  lookupRaises: Name -> bool, io: Name -> Io)
    returns (run: seq<Action>, w1: Worker, objects1: set<Name>)
    requires Is(s, db, objects, t, w, named) && w.pc.AtLookUp? && w.sample.None? && w.cursor > 0
    ensures Is(Exec(s, run), db, objects1, t, w1, named)
    ensures var nm := Name(w.job, t, w.cursor - 1);
      && (objects1 == if !lookupRaises(nm) && nm !in db.files && !io(nm).RaisedBefore? then objects - {nm} else objects)
      && w1 == w.(cursor := w.cursor - 1,
                  confirmed := if !lookupRaises(nm) && nm !in db.files && io(nm).Done? then w.confirmed + {nm}
                               else w.confirmed)
  {
    hide Is, Exec;
    var nm := Name(w.job, t, w.cursor - 1);
    run := [LookUp(t, lookupRaises(nm))];
    LookUpAt(s, db, objects, t, w, named, lookupRaises(nm));
    w1, objects1 := w.(cursor := w.cursor - 1), objects;
    if !lookupRaises(nm) && nm !in db.files {
      DeleteAt(Exec(s, run), db, objects, t, Goto(w, AtDelete), named, io(nm));
      ExecMore(s, run, [Delete(t, io(nm))]);
      run := run + [Delete(t, io(nm))];
      w1 := w1.(confirmed := if io(nm).Done? then w.confirmed + {nm} else w.confirmed);
      objects1 := if io(nm).RaisedBefore? then objects else objects - {nm};
    }
  }

  lemma NothingToClean(s: State, db: Db, objects: set<Name>, t: Token, w: Worker, named: map<FileId, Name>,
                       lookupRaises: Name -> bool, io: Name -> Io)
    requires Is(s, db, objects, t, w, named) && w.cursor == 0
    ensures Is(Exec(s, []), db, objects - A.Deleted(A.FirstNames(w.job, t, 0), db.files, lookupRaises, io), t,
               w.(cursor := 0, confirmed := w.confirmed + Gone(w.job, t, 0, db.files, lookupRaises, io)), named)
  {
    assert objects - A.Deleted(A.FirstNames(w.job, t, 0), db.files, lookupRaises, io) == objects;
    assert w.confirmed + Gone(w.job, t, 0, db.files, lookupRaises, io) == w.confirmed;
  }

  // Visiting one name is one step of what the whole pass removes and confirms.
  lemma CleanedOne(objects: set<Name>, objects1: set<Name>, w: Worker, w1: Worker, t: Token, files: map<Name, FileId>,
                   lookupRaises: Name -> bool, io: Name -> Io)
    requires w.cursor > 0
    requires var nm := Name(w.job, t, w.cursor - 1);
      && (objects1 == if !lookupRaises(nm) && nm !in files && !io(nm).RaisedBefore? then objects - {nm} else objects)
      && w1.confirmed == (if !lookupRaises(nm) && nm !in files && io(nm).Done? then w.confirmed + {nm} else w.confirmed)
    ensures objects1 - A.Deleted(A.FirstNames(w.job, t, w.cursor - 1), files, lookupRaises, io)
            == objects - A.Deleted(A.FirstNames(w.job, t, w.cursor), files, lookupRaises, io)
    ensures w1.confirmed + Gone(w.job, t, w.cursor - 1, files, lookupRaises, io)
            == w.confirmed + Gone(w.job, t, w.cursor, files, lookupRaises, io)
  {
    hide A.FirstNames;
    OneNameMore(w.job, t, w.cursor - 1);
  }

  // ---- the failure path

  // A worker at the start of its failure path, after it noted n names.
  predicate Failing(v: Worker, w: Worker, n: nat) {
    && v.pc.AtLookUp? && v.sample.None? && v.cursor == v.attempted == n && v.confirmed == {}
    && v.job == w.job && v.parts == w.parts
  }

  lemma ConfirmedIsCleared(w: Worker, t: Token, files: map<Name, FileId>, lookupRaises: Name -> bool, io: Name -> Io)
    requires w.confirmed == Gone(w.job, t, w.attempted, files, lookupRaises, io)
    ensures Confirmed(w, t)
            == A.Cleared(Slots(w.job, t, w.parts), A.FirstNames(w.job, t, w.attempted), files, lookupRaises, io)
  {
    hide Slots;
    forall nm | nm in Slots(w.job, t, w.parts)
      ensures nm in (set k | 0 <= k < w.attempted :: SlotName(w, t, k)) <==> nm in A.FirstNames(w.job, t, w.attempted)
    {
      if nm.slot < w.attempted {
        assert A.FirstNames(w.job, t, w.attempted)[nm.slot] == nm;
        assert nm == SlotName(w, t, nm.slot);
      }
    }
  }

  lemma FailStage(s: State, db: Db, objects: set<Name>, t: Token, w: Worker, named: map<FileId, Name>,
                  lookupRaises: Name -> bool, io: Name -> Io, now: int, compensated: Net, failed: Net)
    returns (run: seq<Action>)
    requires Is(s, db, objects, t, w, named) && Failing(w, w, w.attempted)
    ensures var s1 := Exec(s, run);
      && (s1.db, s1.objects) == A.FailureRun(db, objects, w.job, t, w.parts, w.attempted, lookupRaises, io, now,
                                             compensated, failed)
      && t in s1.workers && s1.workers[t].pc.Finished?
  {
    hide Is, Exec, A.AfterFailure, A.Cleared, A.Deleted, S.Compensate, Confirmed;
    run := CleanStage(s, db, objects, t, w, named, lookupRaises, io);
    var gone := Gone(w.job, t, w.cursor, db.files, lookupRaises, io);
    var objects1 := objects - A.Deleted(A.FirstNames(w.job, t, w.cursor), db.files, lookupRaises, io);
    var w1 := w.(cursor := 0, confirmed := gone);
    assert {} + gone == gone;
    LookUpAt(Exec(s, run), db, objects1, t, w1, named, false);
    ExecMore(s, run, [LookUp(t, false)]);
    run := run + [LookUp(t, false)];
    var w2 := Goto(w1, AtCompensate);
    CompensateAt(Exec(s, run), db, objects1, t, w2, named, compensated);
    ExecMore(s, run, [Compensate(t, compensated)]);
    run := run + [Compensate(t, compensated)];
    ConfirmedIsCleared(w2, t, db.files, lookupRaises, io);
    var db1 := if compensated.Refused? then db else S.Compensate(db, w.job, t, Confirmed(w2, t));
    var rest := FailedStage(Exec(s, run), db1, objects1, t, Goto(w2, AtRefreshFailed), named, now, failed);
    ExecMore(s, run, rest);
    run := run + rest;
  }

  lemma FailedStage(s: State, db: Db, objects: set<Name>, t: Token, w: Worker, named: map<FileId, Name>, now: int,
                    failed: Net)
    returns (run: seq<Action>)
    requires Is(s, db, objects, t, w, named) && w.pc.AtRefreshFailed?
    ensures var s1 := Exec(s, run);
      && s1.db == A.AfterFailure(db, w.job, t, now, failed) && s1.objects == objects
      && t in s1.workers && s1.workers[t].pc.Finished?
  {
    hide Exec, Is, A.AfterFailure;
    run := [RefreshFailed(t)];
    RefreshFailedAt(s, db, objects, t, w, named);
    if w.job in db.jobs && !db.jobs[w.job].status.Cancelled? {
      var w1 := Goto(w, AtMarkFailed);
      SampleAt(Exec(s, run), db, objects, t, w1, named, now);
      ExecMore(s, run, [Tick(now), Sample(t)]);
      run := run + [Tick(now), Sample(t)];
      MarkFailedAt(Exec(s, run), db, objects, t, w1.(sample := Some(now)), named, failed);
      ExecMore(s, run, [MarkFailed(t, failed)]);
      run := run + [MarkFailed(t, failed)];
      IsMeans(Exec(s, run), A.AfterFailure(db, w.job, t, now, failed), objects, t,
              Goto(w1.(sample := Some(now)), Finished), named);
    } else {
      NotFailed(db, w.job, t, now, failed);
      IsMeans(Exec(s, run), db, objects, t, Goto(w, Finished), named);
    }
  }

  lemma IsMeans(s: State, db: Db, objects: set<Name>, t: Token, w: Worker, named: map<FileId, Name>)
    requires Is(s, db, objects, t, w, named)
    ensures s.db == db && s.objects == objects && t in s.workers && s.workers[t] == w && s.named == named
  {
  }

  lemma NotFailed(db: Db, j: JobId, t: Token, now: int, net: Net)
    requires j in db.jobs ==> db.jobs[j].status.Cancelled?
    ensures A.AfterFailure(db, j, t, now, net) == db
  {
  }

  // ---- the whole attempt

  // A worker that stored everything.
  lemma PublishStored(s: State, db: Db, objects: set<Name>, t: Token, w: Worker, named: map<FileId, Name>,
                      ids: seq<FileId>, now: int, net: Net) returns (run: seq<Action>)
    requires Is(s, db, objects, t, w, named) && w.pc.AtPublish? && |ids| == w.parts + 1 && FreshIds(s, ids)
    ensures var s1, p := Exec(s, run), S.Publish(db, w.job, t, now, w.bundle, ids);
      && s1.db == (if p.None? || net.Refused? then db else p.value) && s1.objects == objects && t in s1.workers
      && (if p.Some? && net.Ack? then s1.workers[t].pc.Finished? else Failing(s1.workers[t], w, w.attempted))
  {
    hide Exec, Is, FreshIds, S.Publish;
    var w1 := w.(sample := Some(now));
    run := [Tick(now), Sample(t)];
    SampleAt(s, db, objects, t, w, named, now);
    SameFresh(s, Exec(s, run), db, objects, objects, t, w, w1, named, ids);
    PublishAt(Exec(s, run), db, objects, t, w1, named, ids, net);
    ExecMore(s, run, [Publish(t, ids, net)]);
    run := run + [Publish(t, ids, net)];
  }

  lemma PublishStage(s: State, db: Db, objects: set<Name>, t: Token, w: Worker, named: map<FileId, Name>,
                     ids: seq<FileId>, ios: seq<Io>, now: int, net: Net) returns (run: seq<Action>)
    requires Is(s, db, objects, t, w, named) && w.pc.AtCheckDest? && w.attempted == 0
    requires |ios| == |ids| == w.parts + 1 && FreshIds(s, ids)
    ensures var s1, o := Exec(s, run), A.StoreAndPublish(db, objects, w.job, t, w.bundle, ids, ios, now, net);
      && s1.db == o.0 && s1.objects == o.1 && t in s1.workers
      && (if o.3 then s1.workers[t].pc.Finished? else Failing(s1.workers[t], w, o.2))
  {
    hide Exec, Is, FreshIds, S.Publish, A.StoreRun;
    var st := A.StoreRun(db.files, objects, w.job, t, ios, 0);
    run := StoreStage(s, db, objects, t, w, named, ios, 0);
    var w1 := Stored(w, st.0, st.2);
    IsMeans(Exec(s, run), db, st.1, t, w1, named);
    if st.2 {
      SameFresh(s, Exec(s, run), db, objects, st.1, t, w, w1, named, ids);
      var rest := PublishStored(Exec(s, run), db, st.1, t, w1, named, ids, now, net);
      ExecMore(s, run, rest);
      run := run + rest;
    }
  }

  lemma SameFresh(s: State, s1: State, db: Db, objects: set<Name>, objects1: set<Name>, t: Token, w: Worker, w1: Worker,
                  named: map<FileId, Name>, ids: seq<FileId>)
    requires Is(s, db, objects, t, w, named) && Is(s1, db, objects1, t, w1, named) && FreshIds(s, ids)
    ensures FreshIds(s1, ids)
  {
  }

  lemma ReserveStage(s: State, db: Db, objects: set<Name>, t: Token, w: Worker, named: map<FileId, Name>,
                     ids: seq<FileId>, ios: seq<Io>, completed: int, reserving: Net, publishing: Net)
    returns (run: seq<Action>)
    requires Is(s, db, objects, t, w, named) && w.pc.AtInsertRows? && w.attempted == 0
    requires |ios| == |ids| == w.parts + 1 && FreshIds(s, ids)
    ensures var s1, r := Exec(s, run), S.Reserve(db, w.job, t, w.epoch, w.bundle, w.parts);
      var o := if r.None? || reserving.Refused? then (db, objects, 0, false)
               else if reserving.LostAck? then (r.value, objects, 0, false)
               else A.StoreAndPublish(r.value, objects, w.job, t, w.bundle, ids, ios, completed, publishing);
      && s1.db == o.0 && s1.objects == o.1 && t in s1.workers
      && (if o.3 then s1.workers[t].pc.Finished? else Failing(s1.workers[t], w, o.2))
  {
    hide Exec, Is, FreshIds, S.Reserve, A.StoreAndPublish;
    var r := S.Reserve(db, w.job, t, w.epoch, w.bundle, w.parts);
    run := [InsertRows(t, reserving)];
    InsertRowsAt(s, db, objects, t, w, named, reserving);
    if r.None? || reserving.Refused? {
      IsMeans(Exec(s, run), db, objects, t, ToFailure(w), named);
    } else if reserving.LostAck? {
      IsMeans(Exec(s, run), r.value, objects, t, ToFailure(w).(reserved := true), named);
    } else {
      var w1 := Goto(w, AtCheckDest).(reserved := true);
      StillFresh(s, Exec(s, run), db, r.value, objects, t, w, w1, named, ids);
      var rest := PublishStage(Exec(s, run), r.value, objects, t, w1, named, ids, ios, completed, publishing);
      ExecMore(s, run, rest);
      run := run + rest;
    }
  }

  // From the check of the lease to the publication.
  lemma AttemptStage(s: State, db: Db, objects: set<Name>, t: Token, w: Worker, named: map<FileId, Name>,
                     ids: seq<FileId>, ios: seq<Io>, checked: int, completed: int, reserving: Net, publishing: Net)
    returns (run: seq<Action>)
    requires Is(s, db, objects, t, w, named) && w.pc.AtCheckLease? && w.attempted == 0
    requires |ios| == |ids| == w.parts + 1 && FreshIds(s, ids)
    requires S.Fenced(db, w.job, t, checked) ==> db.jobs[w.job].epoch == w.epoch
    ensures var s1 := Exec(s, run);
      var o := A.PublishRun(db, objects, w.job, t, w.bundle, ids, ios, checked, completed, reserving, publishing);
      && s1.db == o.0 && s1.objects == o.1 && t in s1.workers
      && (if o.3 then s1.workers[t].pc.Finished? else Failing(s1.workers[t], w, o.2))
  {
    hide Exec, Is, FreshIds, S.Fenced, S.Reserve, A.StoreAndPublish;
    run := [Tick(checked), Sample(t)];
    var w1 := w.(sample := Some(checked));
    SampleAt(s, db, objects, t, w, named, checked);
    CheckLeaseAt(Exec(s, run), db, objects, t, w1, named);
    ExecMore(s, run, [CheckLease(t)]);
    run := run + [CheckLease(t)];
    if S.Fenced(db, w.job, t, checked) {
      var w2 := Goto(w1, AtInsertRows);
      StillFresh(s, Exec(s, run), db, db, objects, t, w, w2, named, ids);
      var rest := ReserveStage(Exec(s, run), db, objects, t, w2, named, ids, ios, completed, reserving, publishing);
      ExecMore(s, run, rest);
      run := run + rest;
    } else {
      IsMeans(Exec(s, run), db, objects, t, ToFailure(w1), named);
    }
  }

  lemma StillFresh(s: State, s1: State, db: Db, db1: Db, objects: set<Name>, t: Token, w: Worker, w1: Worker,
                   named: map<FileId, Name>, ids: seq<FileId>)
    requires Is(s, db, objects, t, w, named) && Is(s1, db1, objects, t, w1, named) && FreshIds(s, ids)
    ensures FreshIds(s1, ids)
  {
  }

  // Before its reservation an attempt of a reachable state has left no trace, and its epoch is the
  // one of the row it holds.
  lemma BeforeReservation(s: State, t: Token, now: int)
    requires Inv(s) && t in s.workers && s.workers[t].pc.AtCheckLease?
    ensures var w := s.workers[t];
      && A.Untouched(s.db, s.objects, w.job, t) && w.attempted == 0
      && (S.Fenced(s.db, w.job, t, now) ==> s.db.jobs[w.job].epoch == w.epoch)
  {
    var w := s.workers[t];
    WorkerAt(s, t);
    NoRowsBeforeReservation(s, t);
    if w.job in s.db.jobs {
      JobAt(s, w.job);
    }
    hide JobsOk, WorkersOk, RowsOk, LinksOk, EndsOk;
  }

  // The refinement: from a reachable state, what the code makes of the rest of an attempt is what a
  // run of the protocol makes of it, for all answers of the storage, the database and the clock. So
  // everything that holds in every reachable state holds after it.
  lemma FinishIsRun(s: State, t: Token, ids: seq<FileId>, ios: seq<Io>, lookupRaises: Name -> bool, io: Name -> Io,
                    times: (int, int, int), nets: (Net, Net, Net, Net)) returns (run: seq<Action>)
    requires Reachable(s) && t in s.workers && s.workers[t].pc.AtCheckLease?
    requires |ios| == |ids| == s.workers[t].parts + 1 && FreshIds(s, ids)
    ensures A.Untouched(s.db, s.objects, s.workers[t].job, t)
    ensures var s1, w := Exec(s, run), s.workers[t];
      && (s1.db, s1.objects) == A.FinishRun(s.db, s.objects, w.job, t, w.bundle, ids, ios, lookupRaises, io, times,
                                            nets)
      && t in s1.workers && s1.workers[t].pc.Finished? && Reachable(s1)
  {
    hide Exec, Inv, A.PublishRun, A.FailureRun, A.Untouched, FreshIds, Reachable;
    ReachableInv(s);
    BeforeReservation(s, t, times.0);
    var w := s.workers[t];
    run := AttemptStage(s, s.db, s.objects, t, w, s.named, ids, ios, times.0, times.1, nets.0, nets.1);
    var o := A.PublishRun(s.db, s.objects, w.job, t, w.bundle, ids, ios, times.0, times.1, nets.0, nets.1);
    if !o.3 {
      var s1 := Exec(s, run);
      var rest := FailStage(s1, s1.db, s1.objects, t, s1.workers[t], s1.named, lookupRaises, io, times.2, nets.2,
                            nets.3);
      ExecMore(s, run, rest);
      run := run + rest;
    }
    RunsReach(s, run);
  }

  lemma RunsReach(s: State, run: seq<Action>)
    requires Reachable(s)
    ensures Reachable(Exec(s, run))
  {
    hide Exec;
    var before :| Exec(INIT, before) == s;
    ExecMore(INIT, before, run);
  }
}
