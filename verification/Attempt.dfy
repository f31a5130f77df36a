/** The publishing half of one attempt and its failure cleanup, as the worker runs them: the
    loop that stores and records each staged output, the conditional completion, and the loop
    that deletes what a failed attempt wrote. */
module Attempt {
  import opened Options
  import opened Rows
  import S = Statements
  import opened Protocol
  import opened WriteJournal

  // An object store whose writes and deletes may raise before or after they take effect.
  class ObjectStore {
    var objects: set<Name>

    constructor (initial: set<Name>)
      ensures objects == initial
    {
      objects := initial;
    }

    method Put(nm: Name, io: Io) returns (ok: bool)
      modifies this
      ensures objects == if io.RaisedBefore? then old(objects) else old(objects) + {nm}
      ensures ok == io.Done?
    {
      if !io.RaisedBefore? {
        objects := objects + {nm};
      }
      ok := io.Done?;
    }

    method Delete(nm: Name, io: Io) returns (ok: bool)
      modifies this
      ensures objects == if io.RaisedBefore? then old(objects) else old(objects) - {nm}
      ensures ok == io.Done?
    {
      if !io.RaisedBefore? {
        objects := objects - {nm};
      }
      ok := io.Done?;
    }
  }

  function FirstSlots(j: JobId, t: Token, n: nat): (r: set<Name>)
    ensures forall nm :: nm in r <==> nm.job == j && nm.token == t && nm.slot < n
  {
    if n == 0 then {} else Slots(j, t, n - 1)
  }

  function FilesOf(j: JobId, t: Token, ids: seq<FileId>): map<Name, FileId> {
    map nm | nm in FirstSlots(j, t, |ids|) :: ids[nm.slot]
  }

  // The storing loop from output k on: the names it has noted at the end, the objects, and whether
  // every output was stored.
  function StoreRun(files: map<Name, FileId>, objects: set<Name>, j: JobId, t: Token, ios: seq<Io>, k: nat):
      (nat, set<Name>, bool)
    requires k <= |ios|
    decreases |ios| - k
  {
    if k == |ios| then (k, objects, true)
    else if Name(j, t, k) in files then (k + 1, objects, false)
    else
      var objects1 := if ios[k].RaisedBefore? then objects else objects + {Name(j, t, k)};
      if ios[k].Done? then StoreRun(files, objects1, j, t, ios, k + 1) else (k + 1, objects1, false)
  }

  // What an attempt leaves behind: the rows, the objects, how many names it noted, and whether it
  // succeeded.
  type Outcome = (Db, set<Name>, nat, bool)

  // Storing and publishing, with the reservation already committed.
  function StoreAndPublish(db: Db, objects: set<Name>, j: JobId, t: Token, bundle: bool, ids: seq<FileId>, ios: seq<Io>,
                           now: int, net: Net): Outcome
    requires |ios| == |ids| > 0
  {
    var st, p := StoreRun(db.files, objects, j, t, ios, 0), S.Publish(db, j, t, now, bundle, ids);
    if st.2 && p.Some? then (if net.Refused? then db else p.value, st.1, st.0, net.Ack?) else (db, st.1, st.0, false)
  }

  // From the check of the lease to the publication.
  function PublishRun(db: Db, objects: set<Name>, j: JobId, t: Token, bundle: bool, ids: seq<FileId>, ios: seq<Io>,
                      checked: int, completed: int, reserving: Net, publishing: Net): Outcome
    requires |ios| == |ids| > 0
  {
    if !S.Fenced(db, j, t, checked) then (db, objects, 0, false)
    else
      var r := S.Reserve(db, j, t, db.jobs[j].epoch, bundle, |ids| - 1);
      if r.None? || reserving.Refused? then (db, objects, 0, false)
      else if reserving.LostAck? then (r.value, objects, 0, false)
      else StoreAndPublish(r.value, objects, j, t, bundle, ids, ios, completed, publishing)
  }

  // The failure path after `n` names were noted.
  function FailureRun(db: Db, objects: set<Name>, j: JobId, t: Token, parts: nat, n: nat, lookupRaises: Name -> bool,
                      io: Name -> Io, now: int, compensated: Net, failed: Net): (Db, set<Name>) {
    var stored := FirstNames(j, t, n);
    var confirmed := Cleared(Slots(j, t, parts), stored, db.files, lookupRaises, io);
    (AfterFailure(if compensated.Refused? then db else S.Compensate(db, j, t, confirmed), j, t, now, failed),
     objects - Deleted(stored, db.files, lookupRaises, io))
  }

  function FirstNames(j: JobId, t: Token, n: nat): seq<Name> {
    seq(n, k requires 0 <= k < n => Name(j, t, k))
  }

  // The whole journaled tail: rows and objects at its end.
  function FinishRun(db: Db, objects: set<Name>, j: JobId, t: Token, bundle: bool, ids: seq<FileId>, ios: seq<Io>,
                     lookupRaises: Name -> bool, io: Name -> Io, times: (int, int, int), nets: (Net, Net, Net, Net)):
      (Db, set<Name>)
    requires |ios| == |ids| > 0
  {
    var r := PublishRun(db, objects, j, t, bundle, ids, ios, times.0, times.1, nets.0, nets.1);
    if r.3 then (r.0, r.1)
    else FailureRun(r.0, r.1, j, t, |ids| - 1, r.2, lookupRaises, io, times.2, nets.2, nets.3)
  }

  class Worker {
    const session: Session
    const store: ObjectStore
    const job: JobId
    const token: Token
    const bundle: bool
    var storedNames: seq<Name>
    var journalFiles: seq<(Name, FileId)>

    constructor (session: Session, store: ObjectStore, job: JobId, token: Token, bundle: bool)
      ensures this.session == session && this.store == store && this.job == job && this.token == token
      ensures this.bundle == bundle && storedNames == [] && journalFiles == []
    {
      this.session, this.store, this.job, this.token, this.bundle := session, store, job, token, bundle;
      storedNames, journalFiles := [], [];
    }

    // One staged output: note the name, refuse a destination that is already a file, store,
    // record, link.
    method StoreOne(slot: nat, id: FileId, io: Io) returns (ok: bool)
      modifies this, session`working, store
      ensures storedNames == old(storedNames) + [Name(job, token, slot)]
      ensures ok == (Name(job, token, slot) !in old(session.working).files && io.Done?)
      ensures store.objects == if Name(job, token, slot) in old(session.working).files || io.RaisedBefore?
                               then old(store.objects) else old(store.objects) + {Name(job, token, slot)}
      ensures journalFiles == if ok then old(journalFiles) + [(Name(job, token, slot), id)] else old(journalFiles)
      ensures session.working == if !ok then old(session.working) else old(session.working).(
        files := old(session.working).files[Name(job, token, slot) := id],
        links := old(session.working).links + {Link(job, id, RoleOf(bundle, slot), OrdinalOf(slot))})
    {
      var nm := Name(job, token, slot);
      storedNames := storedNames + [nm];
      if nm in session.working.files {
        return false;
      }
      ok := store.Put(nm, io);
      if ok {
        session.working := session.working.(
          files := session.working.files[nm := id],
          links := session.working.links + {Link(job, id, RoleOf(bundle, slot), OrdinalOf(slot))});
        journalFiles := journalFiles + [(nm, id)];
      }
    }

    // The outputs of an attempt in order; the first one that raises ends the loop.
    method StoreAll(ids: seq<FileId>, ios: seq<Io>) returns (ok: bool)
      requires |ios| == |ids| && storedNames == [] && journalFiles == []
      modifies this, session`working, store
      ensures |storedNames| <= |ids| && forall k :: 0 <= k < |storedNames| ==> storedNames[k] == Name(job, token, k)
      ensures ok <==> (forall k :: 0 <= k < |ids| ==>
                       ios[k].Done? && Name(job, token, k) !in old(session.working).files)
      ensures old(store.objects) <= store.objects <= old(store.objects) + FirstSlots(job, token, |storedNames|)
      ensures ok ==> |storedNames| == |ids| && store.objects == old(store.objects) + FirstSlots(job, token, |ids|)
      ensures ok ==> |journalFiles| == |ids| && forall k :: 0 <= k < |ids| ==>
                journalFiles[k] == (Name(job, token, k), ids[k])
      ensures ok ==> session.working == Staged(old(session.working), job, token, bundle, ids)
      ensures (|storedNames|, store.objects, ok)
              == StoreRun(old(session.working).files, old(store.objects), job, token, ios, 0)
    {
      hide Staged, FirstSlots;
      ghost var before := session.working;
      StagedNothing(before, job, token, bundle, ids);
      for k := 0 to |ids|
        invariant |storedNames| == |journalFiles| == k
        invariant forall i :: 0 <= i < k ==> ios[i].Done? && Name(job, token, i) !in before.files
        invariant forall i :: 0 <= i < k ==>
                    storedNames[i] == Name(job, token, i) && journalFiles[i] == (Name(job, token, i), ids[i])
        invariant store.objects == old(store.objects) + FirstSlots(job, token, k)
        invariant session.working == Staged(before, job, token, bundle, ids[..k])
        invariant StoreRun(before.files, old(store.objects), job, token, ios, 0)
                  == StoreRun(before.files, store.objects, job, token, ios, k)
      {
        StagedOneMore(before, job, token, bundle, ids, k);
        SlotsOneMore(before, job, token, bundle, ids, k);
        var done := StoreOne(k, ids[k], ios[k]);
        if !done {
          return false;
        }
      }
      assert ids[..|ids|] == ids;
      ok := true;
    }

    // The transaction of a successful attempt: it is committed as a whole or not at all.
    method PublishOutputs(ids: seq<FileId>, ios: seq<Io>, now: int, net: Net) returns (ok: bool)
      requires |ios| == |ids| > 0 && storedNames == [] && journalFiles == []
      requires session.working == session.committed
      modifies this, session, store
      ensures |storedNames| <= |ids| && forall k :: 0 <= k < |storedNames| ==> storedNames[k] == Name(job, token, k)
      ensures old(store.objects) <= store.objects <= old(store.objects) + FirstSlots(job, token, |storedNames|)
      ensures var p := S.Publish(old(session.committed), job, token, now, bundle, ids);
        var reached := p.Some? && forall k :: 0 <= k < |ids| ==> ios[k].Done?;
        && session.committed == (if reached && !net.Refused? then p.value else old(session.committed))
        && (ok <==> reached && net.Ack?)
        && (reached ==> store.objects == old(store.objects) + Slots(job, token, |ids| - 1))
      ensures (session.committed, store.objects, |storedNames|, ok)
              == StoreAndPublish(old(session.committed), old(store.objects), job, token, bundle, ids, ios, now, net)
    {
      hide StoreRun, S.Publish, FilesOf, S.PublishedLinks, CommittedTo;
      ghost var db := session.committed;
      ok := StoreAll(ids, ios);
      if !ok {
        NotPublishable(db, job, token, now, bundle, ids);
        return false;
      }
      var marked := session.MarkCommitted(job, token, journalFiles);
      ghost var staged := session.working;
      if marked.Err? {
        NotMarked(db, job, token, now, bundle, ids, journalFiles);
        return false;
      }
      PairsCoverSlots(job, token, ids, journalFiles);
      if !S.Fenced(session.working, job, token, now) {
        NotFenced(db, job, token, now, bundle, ids);
        return false;
      }
      StagedIsPublished(db, staged, job, token, now, bundle, ids, journalFiles);
      session.working := session.working.(jobs := session.working.jobs[
        job := session.working.jobs[job].(status := Completed, progress := 100, output := Some(ids[0]))]);
      ok := session.Commit(net);
    }

    // Every name the attempt may have written, newest first. A lookup or a delete may raise.
    method Cleanup(lookupRaises: Name -> bool, io: Name -> Io) returns (outcomes: map<Name, bool>)
      modifies store
      ensures outcomes.Keys == set nm | nm in storedNames && (lookupRaises(nm) || nm !in session.working.files)
      ensures forall nm :: nm in outcomes ==> (outcomes[nm] <==> !lookupRaises(nm) && io(nm).Done?)
      ensures store.objects == old(store.objects) - Deleted(storedNames, session.working.files, lookupRaises, io)
    {
      outcomes := map[];
      for i := |storedNames| downto 0
        invariant session.working == old(session.working) && storedNames == old(storedNames)
        invariant outcomes.Keys == set nm | nm in storedNames[i..] && (lookupRaises(nm) || nm !in session.working.files)
        invariant forall nm :: nm in outcomes ==> (outcomes[nm] <==> !lookupRaises(nm) && io(nm).Done?)
        invariant store.objects
                  == old(store.objects) - Deleted(storedNames[i..], session.working.files, lookupRaises, io)
      {
        var nm := storedNames[i];
        assert storedNames[i..] == [nm] + storedNames[i + 1..];
        if lookupRaises(nm) {
          outcomes := outcomes[nm := false];
        } else if nm !in session.working.files {
          var deleted := store.Delete(nm, io(nm));
          outcomes := outcomes[nm := deleted];
        }
      }
    }

    // After any exception: undo the transaction, delete what was written, file every
    // reservation, and mark the job failed if the attempt still holds its lease.
    method Fail(reserved: set<Name>, lookupRaises: Name -> bool, io: Name -> Io, now: int, compensated: Net,
                failed: Net)
      modifies session, store
      ensures session.working == session.committed
      ensures store.objects == old(store.objects) - Deleted(storedNames, old(session.committed).files, lookupRaises, io)
      ensures var confirmed := Cleared(reserved, storedNames, old(session.committed).files, lookupRaises, io);
        var db := if reserved == {} || compensated.Refused? then old(session.committed)
                  else S.Compensate(old(session.committed), job, token, confirmed);
        session.committed == AfterFailure(db, job, token, now, failed)
    {
      session.Rollback();
      var outcomes := Cleanup(lookupRaises, io);
      if reserved != {} {
        outcomes := outcomes + map nm | nm in reserved && nm !in storedNames :: true;
        assert ConfirmedIn(outcomes) == Cleared(reserved, storedNames, old(session.committed).files, lookupRaises, io);
        var filed := session.CompensateWrites(job, token, outcomes, compensated);
      }
      if job in session.working.jobs && !session.working.jobs[job].status.Cancelled? {
        if S.Fenced(session.working, job, token, now) {
          session.working :=
            S.SetJob(session.working, job, session.working.jobs[job].(status := Failed, progress := 100));
          var acknowledged := session.Commit(failed);
        } else {
          session.Rollback();
        }
      }
    }

    // Reserve every destination, then store and publish.
    method ReserveAndPublish(ids: seq<FileId>, ios: seq<Io>, checked: int, completed: int, reserving: Net,
                             publishing: Net)
      returns (ok: bool)
      requires |ios| == |ids| > 0 && storedNames == [] && journalFiles == []
      requires session.working == session.committed
      requires Untouched(session.committed, store.objects, job, token)
      modifies this, session, store
      ensures Accounted(session.committed, store.objects, job, token)
      ensures Noted(session.committed, store.objects, job, token, storedNames)
      ensures Visible(session.committed, job, token, bundle, ids)
              || Invisible(old(session.committed), session.committed, job)
      ensures ok ==> Visible(session.committed, job, token, bundle, ids)
      ensures forall k :: 0 <= k < |storedNames| ==> storedNames[k] == Name(job, token, k)
      ensures (session.committed, store.objects, |storedNames|, ok)
              == PublishRun(old(session.committed), old(store.objects), job, token, bundle, ids, ios, checked,
                            completed, reserving, publishing)
    {
      hide Accounted, Visible, Invisible, Untouched, Noted, S.Publish, PlanRows, S.PlannedRows, FirstSlots, PublishRun,
        StoreAndPublish, ReserveOutcome, Names;
      ReservedRun(session.committed, store.objects, job, token, bundle, ids, ios, checked, completed, reserving,
                  publishing);
      ghost var db := session.committed;
      ghost var epoch := if job in db.jobs then db.jobs[job].epoch else 0;
      ghost var objects := store.objects;
      var plan := AttemptPlan(job, token, bundle, |ids| - 1);
      AttemptPlanReserves(job, token, epoch, bundle, |ids| - 1);
      ReservedAccounted(db, objects, job, token, epoch, bundle, |ids| - 1);
      var rows := session.ReserveWrites(job, token, plan, checked, reserving);
      if rows.Err? {
        return false;
      }
      ok := PublishOutputs(ids, ios, completed, publishing);
      ghost var done := forall k :: 0 <= k < |ids| ==> ios[k].Done?;
      PublicationOutcome(db, objects, store.objects, job, token, epoch, completed, bundle, ids, storedNames, done,
                         publishing);
    }

    // The journaled tail of an attempt, alone on the database. Whatever raises, nothing it leaves
    // in the store is unaccounted for and its outputs are visible all together or not at all.
    method Finish(ids: seq<FileId>, ios: seq<Io>, lookupRaises: Name -> bool, io: Name -> Io,
                  times: (int, int, int), nets: (Net, Net, Net, Net))
      returns (ok: bool)
      requires |ios| == |ids| > 0 && storedNames == [] && journalFiles == []
      requires session.working == session.committed
      requires Untouched(session.committed, store.objects, job, token)
      modifies this, session, store
      ensures Accounted(session.committed, store.objects, job, token)
      ensures Visible(session.committed, job, token, bundle, ids)
              || Invisible(old(session.committed), session.committed, job)
      ensures ok ==> Visible(session.committed, job, token, bundle, ids)
      ensures (session.committed, store.objects)
              == FinishRun(old(session.committed), old(store.objects), job, token, bundle, ids, ios, lookupRaises, io,
                           times, nets)
    {
      hide Accounted, Visible, Invisible, Untouched, Noted, S.Compensate, Deleted, Cleared, AfterFailure, PublishRun;
      ok := ReserveAndPublish(ids, ios, times.0, times.1, nets.0, nets.1);
      if !ok {
        var reserved := Names(AttemptPlan(job, token, bundle, |ids| - 1));
        FailureAccounted(session.committed, store.objects, job, token, reserved, storedNames, lookupRaises, io,
                         times.2, nets.3);
        FailureInvisible(old(session.committed), session.committed, job, token, ids, bundle,
                         Cleared(reserved, storedNames, session.committed.files, lookupRaises, io), times.2, nets.3);
        AttemptPlanReserves(job, token, 0, bundle, |ids| - 1);
        assert Name(job, token, 0) in reserved;
        assert storedNames == FirstNames(job, token, |storedNames|);
        Fail(reserved, lookupRaises, io, times.2, nets.2, nets.3);
      }
    }
  }

  // Reserving an attempt's plan is the protocol's reservation statement.
  lemma ReserveIsStatement(db: Db, j: JobId, t: Token, bundle: bool, parts: nat)
    requires j in db.jobs
    ensures var plan, epoch := AttemptPlan(j, t, bundle, parts), db.jobs[j].epoch;
      && plan != [] && DistinctNames(plan)
      && S.Reserve(db, j, t, epoch, bundle, parts)
         == if Names(plan) !! db.journal.Keys then Some(db.(journal := db.journal + PlanRows(plan, j, t, epoch)))
            else None
  {
    hide PlanRows, DistinctNames, Names;
    AttemptPlanReserves(j, t, db.jobs[j].epoch, bundle, parts);
  }

  // How the attempt goes on after its reservation.
  lemma ReservedRun(db: Db, objects: set<Name>, j: JobId, t: Token, bundle: bool, ids: seq<FileId>, ios: seq<Io>,
                    checked: int, completed: int, reserving: Net, publishing: Net)
    requires |ios| == |ids| > 0
    ensures var plan := AttemptPlan(j, t, bundle, |ids| - 1);
      var r := ReserveOutcome(db, j, t, plan, checked, reserving);
      && (r.Ok? || r == Err(CommitFailed) ==> j in db.jobs)
      && PublishRun(db, objects, j, t, bundle, ids, ios, checked, completed, reserving, publishing)
         == if r.Ok? then
              StoreAndPublish(db.(journal := db.journal + PlanRows(plan, j, t, db.jobs[j].epoch)), objects, j, t,
                              bundle, ids, ios, completed, publishing)
            else if r == Err(CommitFailed) && reserving.LostAck? then
              (db.(journal := db.journal + PlanRows(plan, j, t, db.jobs[j].epoch)), objects, 0, false)
            else (db, objects, 0, false)
  {
    hide StoreAndPublish, PlanRows, Names, DistinctNames, S.Reserve;
    if j in db.jobs {
      ReserveIsStatement(db, j, t, bundle, |ids| - 1);
    }
  }

  function WithRows(db: Db, j: JobId, t: Token, epoch: nat, bundle: bool, parts: nat): Db {
    db.(journal := db.journal + S.PlannedRows(j, t, epoch, bundle, parts))
  }

  // The names an attempt may hold without a file are among those it stored.
  ghost predicate Noted(db: Db, objects: set<Name>, j: JobId, t: Token, stored: seq<Name>) {
    forall nm: Name :: nm.job == j && nm.token == t && nm in objects && nm !in db.files ==> nm in stored
  }

  lemma ReservedAccounted(db: Db, objects: set<Name>, j: JobId, t: Token, epoch: nat, bundle: bool, parts: nat)
    requires Untouched(db, objects, j, t)
    ensures Accounted(db, objects, j, t) && Invisible(db, db, j)
    ensures Noted(db, objects, j, t, [])
    ensures var db1 := WithRows(db, j, t, epoch, bundle, parts);
      Accounted(db1, objects, j, t) && Noted(db1, objects, j, t, []) && Invisible(db, db1, j)
  {
  }

  lemma StoredAccounted(db: Db, objects: set<Name>, objects1: set<Name>, j: JobId, t: Token, epoch: nat, bundle: bool,
                        parts: nat, stored: seq<Name>)
    requires Untouched(db, objects, j, t)
    requires |stored| <= parts + 1 && forall k :: 0 <= k < |stored| ==> stored[k] == Name(j, t, k)
    requires objects1 <= objects + FirstSlots(j, t, |stored|)
    ensures var db1 := WithRows(db, j, t, epoch, bundle, parts);
      Accounted(db1, objects1, j, t) && Noted(db1, objects1, j, t, stored)
  {
    forall nm: Name | nm.job == j && nm.token == t && nm in objects1
      ensures nm.slot <= parts && nm in stored
    {
      assert nm in FirstSlots(j, t, |stored|);
      assert stored[nm.slot] == nm;
    }
  }

  // After a publication the attempt's rows and files are exactly its slots.
  lemma PublishedNames(db: Db, objects: set<Name>, j: JobId, t: Token, epoch: nat, now: int, bundle: bool,
                       ids: seq<FileId>)
    requires Untouched(db, objects, j, t) && |ids| > 0
    requires S.Publish(WithRows(db, j, t, epoch, bundle, |ids| - 1), j, t, now, bundle, ids).Some?
    ensures var db2 := S.Publish(WithRows(db, j, t, epoch, bundle, |ids| - 1), j, t, now, bundle, ids).value;
      forall nm: Name :: nm.job == j && nm.token == t ==>
        && (nm in db2.files <==> nm in Slots(j, t, |ids| - 1))
        && (nm in db2.journal <==> nm in Slots(j, t, |ids| - 1))
        && (nm in db2.journal ==> db2.journal[nm].state.Committed?)
  {
    hide S.PublishedLinks;
  }

  lemma PublishedAccounted(db: Db, objects: set<Name>, j: JobId, t: Token, epoch: nat, now: int, bundle: bool,
                           ids: seq<FileId>)
    requires Untouched(db, objects, j, t) && |ids| > 0
    requires S.Publish(WithRows(db, j, t, epoch, bundle, |ids| - 1), j, t, now, bundle, ids).Some?
    ensures var db2 := S.Publish(WithRows(db, j, t, epoch, bundle, |ids| - 1), j, t, now, bundle, ids).value;
      && Accounted(db2, objects + Slots(j, t, |ids| - 1), j, t)
      && Noted(db2, objects + Slots(j, t, |ids| - 1), j, t, [])
  {
    hide S.Publish, WithRows;
    PublishedNames(db, objects, j, t, epoch, now, bundle, ids);
  }

  // The two ways a publication can end, as seen from the rows before the attempt.
  lemma PublicationOutcome(db: Db, objects: set<Name>, objects1: set<Name>, j: JobId, t: Token, epoch: nat, now: int,
                           bundle: bool, ids: seq<FileId>, stored: seq<Name>, done: bool, net: Net)
    requires Untouched(db, objects, j, t) && |ids| > 0
    requires |stored| <= |ids| && forall k :: 0 <= k < |stored| ==> stored[k] == Name(j, t, k)
    requires objects1 <= objects + FirstSlots(j, t, |stored|)
    requires done && S.Publish(WithRows(db, j, t, epoch, bundle, |ids| - 1), j, t, now, bundle, ids).Some? ==>
               objects1 == objects + Slots(j, t, |ids| - 1)
    ensures var db1 := WithRows(db, j, t, epoch, bundle, |ids| - 1);
      var p := S.Publish(db1, j, t, now, bundle, ids);
      var db2 := if done && p.Some? && !net.Refused? then p.value else db1;
      && Accounted(db2, objects1, j, t) && Noted(db2, objects1, j, t, stored)
      && (if done && p.Some? && !net.Refused? then Visible(db2, j, t, bundle, ids) else Invisible(db, db2, j))
  {
    hide Accounted, Visible, Invisible, Untouched, Noted, S.Publish, S.PlannedRows, FirstSlots;
    var db1 := WithRows(db, j, t, epoch, bundle, |ids| - 1);
    var p := S.Publish(db1, j, t, now, bundle, ids);
    if done && p.Some? && !net.Refused? {
      PublishedAccounted(db, objects, j, t, epoch, now, bundle, ids);
      PublishedVisible(db1, j, t, now, bundle, ids);
      AllFiled(p.value, objects1, j, t, stored);
    } else {
      ReservedAccounted(db, objects, j, t, epoch, bundle, |ids| - 1);
      StoredAccounted(db, objects, objects1, j, t, epoch, bundle, |ids| - 1, stored);
    }
  }

  lemma AllFiled(db: Db, objects: set<Name>, j: JobId, t: Token, stored: seq<Name>)
    requires Noted(db, objects, j, t, [])
    ensures Noted(db, objects, j, t, stored)
  {
  }

  lemma LinkPublished(j: JobId, bundle: bool, ids: seq<FileId>, k: nat)
    requires k < |ids|
    ensures Link(j, ids[k], RoleOf(bundle, k), OrdinalOf(k)) in S.PublishedLinks(j, bundle, ids)
  {
  }

  lemma PublishedVisible(db: Db, j: JobId, t: Token, now: int, bundle: bool, ids: seq<FileId>)
    requires |ids| > 0 && S.Publish(db, j, t, now, bundle, ids).Some?
    ensures Visible(S.Publish(db, j, t, now, bundle, ids).value, j, t, bundle, ids)
  {
    hide S.CommittedRows, S.PublishedLinks;
    forall k | 0 <= k < |ids|
      ensures Name(j, t, k) in Slots(j, t, |ids| - 1)
      ensures Link(j, ids[k], RoleOf(bundle, k), OrdinalOf(k)) in S.PublishedLinks(j, bundle, ids)
    {
      LinkPublished(j, bundle, ids, k);
    }
  }

  lemma FailureAccounted(db: Db, objects: set<Name>, j: JobId, t: Token, reserved: set<Name>, stored: seq<Name>,
                         lookupRaises: Name -> bool, io: Name -> Io, now: int, net: Net)
    requires Accounted(db, objects, j, t) && Noted(db, objects, j, t, stored)
    ensures var objects1 := objects - Deleted(stored, db.files, lookupRaises, io);
      && Accounted(AfterFailure(db, j, t, now, net), objects1, j, t)
      && Accounted(AfterFailure(S.Compensate(db, j, t, Cleared(reserved, stored, db.files, lookupRaises, io)), j, t,
                                now, net),
                   objects1, j, t)
  {
  }

  // Neither filing the reservations nor the conditional failure touches a completed job.
  lemma FailureInvisible(before: Db, db: Db, j: JobId, t: Token, ids: seq<FileId>, bundle: bool, confirmed: set<Name>,
                         now: int, net: Net)
    ensures var db1 := AfterFailure(db, j, t, now, net);
      && (Invisible(before, db, j) ==> Invisible(before, db1, j))
      && (Visible(db, j, t, bundle, ids) ==> Visible(db1, j, t, bundle, ids))
    ensures var db1 := AfterFailure(S.Compensate(db, j, t, confirmed), j, t, now, net);
      && (Invisible(before, db, j) ==> Invisible(before, db1, j))
      && (Visible(db, j, t, bundle, ids) ==> Visible(db1, j, t, bundle, ids))
  {
  }

  // No trace of the attempt.
  ghost predicate Untouched(db: Db, objects: set<Name>, j: JobId, t: Token) {
    forall nm: Name :: nm.job == j && nm.token == t ==> nm !in db.journal && nm !in db.files && nm !in objects
  }

  // Every object has a row, without a file an open one; a compensated name holds nothing.
  ghost predicate Accounted(db: Db, objects: set<Name>, j: JobId, t: Token) {
    forall nm: Name :: nm.job == j && nm.token == t ==>
      && (nm in objects || nm in db.files ==> nm in db.journal)
      && (nm in objects && nm !in db.files ==> db.journal[nm].state.Planned? || db.journal[nm].state.NeedsReview?)
      && (nm in db.journal && db.journal[nm].state.Compensated? ==> nm !in objects && nm !in db.files)
      && (nm in db.files <==> nm in db.journal && db.journal[nm].state.Committed?)
  }

  ghost predicate Visible(db: Db, j: JobId, t: Token, bundle: bool, ids: seq<FileId>) {
    && |ids| > 0 && j in db.jobs && db.jobs[j].status.Completed? && db.jobs[j].output == Some(ids[0])
    && (forall k :: 0 <= k < |ids| ==>
          && Name(j, t, k) in db.files && db.files[Name(j, t, k)] == ids[k]
          && Link(j, ids[k], RoleOf(bundle, k), OrdinalOf(k)) in db.links)
  }

  ghost predicate Invisible(before: Db, db: Db, j: JobId) {
    && db.files == before.files && db.links == before.links && (j in db.jobs <==> j in before.jobs)
    && (j in db.jobs ==>
          && db.jobs[j].output == before.jobs[j].output
          && (db.jobs[j].status.Completed? ==> before.jobs[j].status.Completed?))
  }

  // What the cleanup may report as holding nothing: deleted, or reserved and never attempted.
  function Cleared(reserved: set<Name>, stored: seq<Name>, files: map<Name, FileId>,
                   lookupRaises: Name -> bool, io: Name -> Io): set<Name> {
    (set nm | nm in stored && !lookupRaises(nm) && nm !in files && io(nm).Done?)
    + (set nm | nm in reserved && nm !in stored)
  }

  function AfterFailure(db: Db, j: JobId, t: Token, now: int, net: Net): Db {
    var f := S.MarkFailed(db, j, t, now);
    if f.None? || net.Refused? then db else f.value
  }

  // The names a cleanup pass removes from the store.
  function Deleted(names: seq<Name>, files: map<Name, FileId>, lookupRaises: Name -> bool, io: Name -> Io): set<Name> {
    set nm | nm in names && !lookupRaises(nm) && nm !in files && !io(nm).RaisedBefore?
  }

  // The rows a transaction has added for the outputs stored so far.
  function Staged(db: Db, j: JobId, t: Token, bundle: bool, ids: seq<FileId>): Db {
    db.(files := db.files + FilesOf(j, t, ids), links := db.links + S.PublishedLinks(j, bundle, ids))
  }

  lemma FilesOneMore(j: JobId, t: Token, ids: seq<FileId>, k: nat)
    requires k < |ids|
    ensures FilesOf(j, t, ids[..k + 1]) == FilesOf(j, t, ids[..k])[Name(j, t, k) := ids[k]]
  {
  }

  lemma LinksOneMore(j: JobId, bundle: bool, ids: seq<FileId>, k: nat)
    requires k < |ids|
    ensures S.PublishedLinks(j, bundle, ids[..k + 1])
            == S.PublishedLinks(j, bundle, ids[..k]) + {Link(j, ids[k], RoleOf(bundle, k), OrdinalOf(k))}
  {
    var l0, l1 := S.PublishedLinks(j, bundle, ids[..k]), S.PublishedLinks(j, bundle, ids[..k + 1]);
    forall l | l in l0 ensures l in l1 {
      var i :| 0 <= i < k && l == Link(j, ids[..k][i], RoleOf(bundle, i), OrdinalOf(i));
      assert ids[..k + 1][i] == ids[..k][i];
    }
    assert ids[..k + 1][k] == ids[k];
  }

  lemma UpdateLast<K, V>(a: map<K, V>, b: map<K, V>, k: K, v: V)
    ensures a + b[k := v] == (a + b)[k := v]
  {
  }

  lemma StagedOneMore(db: Db, j: JobId, t: Token, bundle: bool, ids: seq<FileId>, k: nat)
    requires k < |ids|
    ensures var s0 := Staged(db, j, t, bundle, ids[..k]);
      Staged(db, j, t, bundle, ids[..k + 1]) == s0.(
        files := s0.files[Name(j, t, k) := ids[k]],
        links := s0.links + {Link(j, ids[k], RoleOf(bundle, k), OrdinalOf(k))})
  {
    hide FilesOf, S.PublishedLinks;
    FilesOneMore(j, t, ids, k);
    LinksOneMore(j, bundle, ids, k);
    UpdateLast(db.files, FilesOf(j, t, ids[..k]), Name(j, t, k), ids[k]);
  }

  lemma SlotsOneMore(db: Db, j: JobId, t: Token, bundle: bool, ids: seq<FileId>, k: nat)
    requires k < |ids|
    ensures FirstSlots(j, t, k + 1) == FirstSlots(j, t, k) + {Name(j, t, k)}
    ensures Name(j, t, k) in Staged(db, j, t, bundle, ids[..k]).files <==> Name(j, t, k) in db.files
  {
    hide S.PublishedLinks;
  }

  lemma StagedNothing(db: Db, j: JobId, t: Token, bundle: bool, ids: seq<FileId>)
    ensures Staged(db, j, t, bundle, ids[..0]) == db
  {
    assert FilesOf(j, t, []) == map[] && S.PublishedLinks(j, bundle, []) == {};
  }

  lemma NotPublishable(db: Db, j: JobId, t: Token, now: int, bundle: bool, ids: seq<FileId>)
    requires |ids| > 0
    ensures S.Publish(db, j, t, now, bundle, ids).Some? ==> forall k :: 0 <= k < |ids| ==> Name(j, t, k) !in db.files
  {
    forall k | 0 <= k < |ids| && Name(j, t, k) in db.files
      ensures S.Publish(db, j, t, now, bundle, ids).None?
    {
      assert Name(j, t, k) in Slots(j, t, |ids| - 1);
    }
  }

  lemma NotFenced(db: Db, j: JobId, t: Token, now: int, bundle: bool, ids: seq<FileId>)
    requires |ids| > 0 && !S.Fenced(db, j, t, now)
    ensures S.Publish(db, j, t, now, bundle, ids).None?
  {
  }

  ghost predicate PairsFor(j: JobId, t: Token, ids: seq<FileId>, pairs: seq<(Name, FileId)>) {
    |pairs| == |ids| && forall k :: 0 <= k < |ids| ==> pairs[k] == (Name(j, t, k), ids[k])
  }

  lemma PairsCoverSlots(j: JobId, t: Token, ids: seq<FileId>, pairs: seq<(Name, FileId)>)
    requires |ids| > 0 && PairsFor(j, t, ids, pairs)
    ensures Names(pairs) == Slots(j, t, |ids| - 1)
  {
    forall nm ensures nm in Names(pairs) <==> nm in Slots(j, t, |ids| - 1) {
      if nm in Slots(j, t, |ids| - 1) {
        assert pairs[nm.slot].0 == nm;
      }
    }
  }

  lemma NotMarked(db: Db, j: JobId, t: Token, now: int, bundle: bool, ids: seq<FileId>, pairs: seq<(Name, FileId)>)
    requires |ids| > 0 && PairsFor(j, t, ids, pairs)
    requires exists i :: 0 <= i < |pairs| && !S.MarkableRow(db, j, t, pairs[i].0)
    ensures S.Publish(db, j, t, now, bundle, ids).None?
  {
    PairsCoverSlots(j, t, ids, pairs);
  }

  lemma StagedIsPublished(db: Db, staged: Db, j: JobId, t: Token, now: int, bundle: bool, ids: seq<FileId>,
                          pairs: seq<(Name, FileId)>)
    requires |ids| > 0 && PairsFor(j, t, ids, pairs) && S.Fenced(db, j, t, now)
    requires forall k :: 0 <= k < |ids| ==> Name(j, t, k) !in db.files
    requires forall i :: 0 <= i < |pairs| ==> S.MarkableRow(db, j, t, pairs[i].0)
    requires CommittedTo(db.journal, staged.journal, pairs)
    requires staged == Staged(db, j, t, bundle, ids).(journal := staged.journal)
    ensures S.Publish(db, j, t, now, bundle, ids) == Some(staged.(jobs := staged.jobs[
      j := staged.jobs[j].(status := Completed, progress := 100, output := Some(ids[0]))]))
  {
    MarkedRows(db, staged.journal, j, t, ids, pairs);
    assert FilesOf(j, t, ids) == S.PublishedFiles(j, t, ids);
    hide S.PublishedLinks, S.PublishedFiles, S.CommittedRows, FilesOf, CommittedTo;
  }

  lemma MarkedRows(db: Db, journal: map<Name, Row>, j: JobId, t: Token, ids: seq<FileId>, pairs: seq<(Name, FileId)>)
    requires |ids| > 0 && PairsFor(j, t, ids, pairs)
    requires forall k :: 0 <= k < |ids| ==> Name(j, t, k) !in db.files
    requires forall i :: 0 <= i < |pairs| ==> S.MarkableRow(db, j, t, pairs[i].0)
    requires CommittedTo(db.journal, journal, pairs)
    ensures forall nm :: nm in Slots(j, t, |ids| - 1) ==> S.MarkableRow(db, j, t, nm) && nm !in db.files
    ensures Slots(j, t, |ids| - 1) <= db.journal.Keys
    ensures journal == db.journal + S.CommittedRows(db.journal, j, t, ids)
  {
    PairsCoverSlots(j, t, ids, pairs);
    forall nm | nm in Slots(j, t, |ids| - 1)
      ensures S.MarkableRow(db, j, t, nm) && nm !in db.files
      ensures journal[nm] == db.journal[nm].(state := Committed, file := Some(ids[nm.slot]))
    {
      assert pairs[nm.slot].0 == nm;
    }
  }
}
