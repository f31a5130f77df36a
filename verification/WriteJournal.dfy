/** The write journal as the code executes it: a database session whose statements change a
    working copy and whose commit publishes it. Each method is proved against the statement
    functions on which the protocol is built. */
module WriteJournal {
  import opened Options
  import opened Rows
  import S = Statements
  import opened Protocol

  datatype Error = BadTtl | LeaseLost | BadPlan | NameTaken | NotPlanned | CommitFailed

  datatype Result<+T> = Ok(value: T) | Err(error: Error)

  type Spec = (Name, Role)

  function RowOf(spec: Spec, j: JobId, t: Token, epoch: nat): Row {
    Row(j, epoch, t, spec.1, Planned, None)
  }

  // The rows of a write plan, in insertion order.
  function PlanRows(specs: seq<Spec>, j: JobId, t: Token, epoch: nat): map<Name, Row> {
    if specs == [] then map[]
    else
      var spec := specs[|specs| - 1];
      PlanRows(specs[..|specs| - 1], j, t, epoch)[spec.0 := RowOf(spec, j, t, epoch)]
  }

  function Names<V>(pairs: seq<(Name, V)>): set<Name> {
    set i | 0 <= i < |pairs| :: pairs[i].0
  }

  ghost predicate DistinctNames<V>(pairs: seq<(Name, V)>) {
    forall i, k :: 0 <= i < k < |pairs| ==> pairs[i].0 != pairs[k].0
  }

  // The code compares the size of the set of names with the length of the list.
  lemma {:induction false} SizeTestFindsDuplicates<V>(pairs: seq<(Name, V)>)
    ensures |Names(pairs)| <= |pairs|
    ensures |Names(pairs)| == |pairs| <==> DistinctNames(pairs)
  {
    if pairs != [] {
      var init, last := pairs[..|pairs| - 1], pairs[|pairs| - 1].0;
      SizeTestFindsDuplicates(init);
      assert Names(pairs) == Names(init) + {last};
      if last in Names(init) {
        assert Names(pairs) == Names(init);
        assert !DistinctNames(pairs);
      } else {
        assert DistinctNames(pairs) <==> DistinctNames(init);
      }
    }
  }

  // Repeated and taken names, said of the entries.
  lemma NamesMean<V>(pairs: seq<(Name, V)>, taken: set<Name>)
    ensures !DistinctNames(pairs) <==> exists i, k :: 0 <= i < k < |pairs| && pairs[i].0 == pairs[k].0
    ensures !(Names(pairs) !! taken) <==> exists i :: 0 <= i < |pairs| && pairs[i].0 in taken
    ensures forall nm :: nm in Names(pairs) <==> exists i :: 0 <= i < |pairs| && pairs[i].0 == nm
  {
    if !(Names(pairs) !! taken) {
      var nm :| nm in Names(pairs) && nm in taken;
    }
    forall i | 0 <= i < |pairs| ensures pairs[i].0 in Names(pairs) {
    }
  }

  lemma {:induction false} PlanRowsKeys(specs: seq<Spec>, j: JobId, t: Token, epoch: nat)
    ensures PlanRows(specs, j, t, epoch).Keys == Names(specs)
    ensures DistinctNames(specs) ==>
      forall i :: 0 <= i < |specs| ==> specs[i].0 in PlanRows(specs, j, t, epoch)
                                       && PlanRows(specs, j, t, epoch)[specs[i].0] == RowOf(specs[i], j, t, epoch)
  {
    if specs != [] {
      var init := specs[..|specs| - 1];
      PlanRowsKeys(init, j, t, epoch);
      assert Names(specs) == Names(init) + {specs[|specs| - 1].0};
    }
  }

  // The plan of one attempt: the root, then the parts.
  function AttemptPlan(j: JobId, t: Token, bundle: bool, parts: nat): (specs: seq<Spec>)
    ensures |specs| == parts + 1
  {
    seq(parts + 1, k requires 0 <= k <= parts => (Name(j, t, k), RoleOf(bundle, k)))
  }

  // Inserting an attempt's plan row by row is the reservation the protocol makes in one step.
  lemma AttemptPlanReserves(j: JobId, t: Token, epoch: nat, bundle: bool, parts: nat)
    ensures DistinctNames(AttemptPlan(j, t, bundle, parts))
    ensures PlanRows(AttemptPlan(j, t, bundle, parts), j, t, epoch) == S.PlannedRows(j, t, epoch, bundle, parts)
    ensures Names(AttemptPlan(j, t, bundle, parts)) == Slots(j, t, parts)
  {
    var plan := AttemptPlan(j, t, bundle, parts);
    PlanRowsKeys(plan, j, t, epoch);
    forall nm: Name
      ensures nm in Names(plan) <==> nm in Slots(j, t, parts)
      ensures nm in Slots(j, t, parts) ==>
                PlanRows(plan, j, t, epoch)[nm] == S.PlannedRows(j, t, epoch, bundle, parts)[nm]
    {
      if nm in Slots(j, t, parts) {
        assert plan[nm.slot].0 == nm;
      }
    }
  }

  ghost function ReserveOutcome(db: Db, j: JobId, t: Token, specs: seq<Spec>, now: int, net: Net): Result<()> {
    if !S.Fenced(db, j, t, now) then Err(LeaseLost)
    else if specs == [] || !DistinctNames(specs) then Err(BadPlan)
    else if !(Names(specs) !! db.journal.Keys) then Err(NameTaken)
    else if net.Ack? then Ok(()) else Err(CommitFailed)
  }

  // The rows one compensation call rewrites.
  function OpenRows(db: Db, j: JobId, t: Token): set<Name> {
    set nm | nm in db.journal && db.journal[nm].job == j && db.journal[nm].token == t && db.journal[nm].state.Planned?
  }

  function ConfirmedIn(results: map<Name, bool>): set<Name> {
    set nm | nm in results && results[nm]
  }

  // The journal after the named rows were committed to their files.
  ghost predicate CommittedTo(journal: map<Name, Row>, journal1: map<Name, Row>, pairs: seq<(Name, FileId)>) {
    && journal1.Keys == journal.Keys
    && (forall i :: 0 <= i < |pairs| ==>
          && pairs[i].0 in journal
          && journal1[pairs[i].0] == journal[pairs[i].0].(state := Committed, file := Some(pairs[i].1)))
    && (forall nm :: nm in journal && nm !in Names(pairs) ==> journal1[nm] == journal[nm])
  }

  class Session {
    var committed: Db
    var working: Db

    constructor (db: Db)
      ensures committed == db && working == db
    {
      committed, working := db, db;
    }

    // A commit may be applied and still raise; whatever happens the next statement sees
    // the committed rows.
    method Commit(net: Net) returns (acknowledged: bool)
      modifies this
      ensures committed == if net.Refused? then old(committed) else old(working)
      ensures working == committed
      ensures acknowledged == net.Ack?
    {
      if !net.Refused? {
        committed := working;
      }
      working := committed;
      acknowledged := net.Ack?;
    }

    method Rollback()
      modifies this`working
      ensures working == committed
    {
      working := committed;
    }

    // None is the duplicate delivery: the job had left the queue.
    method ClaimQueuedJob(j: JobId, token: Token, now: int, ttl: nat, net: Net) returns (r: Result<Option<Token>>)
      requires working == committed
      modifies this
      ensures working == committed
      ensures ttl < 60 ==> r == Err(BadTtl) && committed == old(committed)
      ensures ttl >= 60 ==>
        var c := S.Claim(old(committed), j, token, now, ttl);
        && committed == (if c.None? || net.Refused? then old(committed) else c.value)
        && r == (if c.None? then Ok(None) else if net.Ack? then Ok(Some(token)) else Err(CommitFailed))
      // the row a claim leaves, and how long it holds from the reading of the clock on
      ensures ttl >= 60 && j in old(committed).jobs && old(committed).jobs[j].status == Queued && !net.Refused? ==>
        var job := old(committed).jobs[j];
        && committed == old(committed).(jobs := old(committed).jobs[j := job.(
             status := Running, progress := 10, token := Some(token), epoch := job.epoch + 1,
             expires := Some(now + ttl))])
        && (forall at :: S.Fenced(committed, j, token, at) <==> at < now + ttl)
      ensures ttl >= 60 ==> (r == Ok(None) <==> j !in old(committed).jobs || old(committed).jobs[j].status != Queued)
    {
      if ttl < 60 {
        return Err(BadTtl);
      }
      var rowcount := 0;
      if j in working.jobs && working.jobs[j].status.Queued? {
        var job := working.jobs[j];
        working := working.(jobs := working.jobs[j := job.(
          status := Running, progress := 10, token := Some(token), epoch := job.epoch + 1,
          expires := Some(now + ttl))]);
        rowcount := 1;
      }
      if rowcount != 1 {
        Rollback();
        return Ok(None);
      }
      var acknowledged := Commit(net);
      r := if acknowledged then Ok(Some(token)) else Err(CommitFailed);
    }

    method FencedProgress(j: JobId, token: Token, progress: nat, now: int, net: Net) returns (r: Result<()>)
      requires working == committed
      modifies this
      ensures working == committed
      ensures var p := S.Progress(old(committed), j, token, now, progress);
        && committed == (if p.None? || net.Refused? then old(committed) else p.value)
        && r == (if p.None? then Err(LeaseLost) else if net.Ack? then Ok(()) else Err(CommitFailed))
      ensures var db := old(committed);
        if j in db.jobs && db.jobs[j].status == Running && db.jobs[j].token == Some(token)
           && db.jobs[j].expires.Some? && now < db.jobs[j].expires.value
        then committed == (if net.Refused? then db else db.(jobs := db.jobs[j := db.jobs[j].(progress := progress)]))
             && (r == Ok(()) <==> net.Ack?) && (r == Err(CommitFailed) <==> !net.Ack?)
        else r == Err(LeaseLost) && committed == db
    {
      if !S.Fenced(working, j, token, now) {
        Rollback();
        return Err(LeaseLost);
      }
      working := working.(jobs := working.jobs[j := working.jobs[j].(progress := progress)]);
      var acknowledged := Commit(net);
      r := if acknowledged then Ok(()) else Err(CommitFailed);
    }

    // false: the attempt's lease is lost, expired, finished, cancelled or superseded.
    method RenewExecutionLease(j: JobId, token: Token, epoch: nat, ttl: nat, now: int, net: Net)
      returns (r: Result<bool>)
      requires working == committed
      modifies this
      ensures working == committed
      ensures !(61 <= ttl <= 3600) ==> r == Err(BadTtl) && committed == old(committed)
      ensures 61 <= ttl <= 3600 ==>
        var n := S.Renew(old(committed), j, token, epoch, now, ttl);
        && committed == (if n.None? || net.Refused? then old(committed) else n.value)
        && r == (if n.None? then Ok(false) else if net.Ack? then Ok(true) else Err(CommitFailed))
      ensures 61 <= ttl <= 3600 ==>
        var db := old(committed);
        if j in db.jobs && db.jobs[j].status == Running && db.jobs[j].token == Some(token) && db.jobs[j].epoch == epoch
           && db.jobs[j].expires.Some? && now < db.jobs[j].expires.value
        then committed == (if net.Refused? then db
                           else db.(jobs := db.jobs[j := db.jobs[j].(expires := Some(now + ttl))]))
             && (r == Ok(true) <==> net.Ack?) && (r == Err(CommitFailed) <==> !net.Ack?)
        else r == Ok(false) && committed == db
    {
      if ttl < 61 || ttl > 3600 {
        return Err(BadTtl);
      }
      if !(S.Fenced(working, j, token, now) && working.jobs[j].epoch == epoch) {
        Rollback();
        return Ok(false);
      }
      working := working.(jobs := working.jobs[j := working.jobs[j].(expires := Some(now + ttl))]);
      var acknowledged := Commit(net);
      r := if acknowledged then Ok(true) else Err(CommitFailed);
    }

    // Adds the plan's rows to the pending transaction, one insert per destination.
    method AddRows(j: JobId, token: Token, epoch: nat, specs: seq<Spec>) returns (added: map<Name, Row>)
      ensures added == PlanRows(specs, j, token, epoch)
    {
      added := map[];
      for i := 0 to |specs|
        invariant added == PlanRows(specs[..i], j, token, epoch)
      {
        added := added[specs[i].0 := Row(j, epoch, token, specs[i].1, Planned, None)];
        assert specs[..i + 1][..i] == specs[..i];
      }
      assert specs[..|specs|] == specs;
    }

    // All rows of the plan or none; the lease is checked first, then the shape of the plan,
    // and the unique destination names when the rows are flushed.
    method ReserveWrites(j: JobId, token: Token, specs: seq<Spec>, now: int, net: Net) returns (r: Result<()>)
      requires working == committed
      modifies this
      ensures working == committed
      ensures r == ReserveOutcome(old(committed), j, token, specs, now, net)
      ensures committed == if r.Ok? || (r == Err(CommitFailed) && net.LostAck?)
                           then old(committed).(journal := old(committed).journal
                                                           + PlanRows(specs, j, token, old(committed).jobs[j].epoch))
                           else old(committed)
      ensures var db := old(committed);
        r == Err(LeaseLost) <==> !(j in db.jobs && db.jobs[j].status == Running && db.jobs[j].token == Some(token)
                                   && db.jobs[j].expires.Some? && now < db.jobs[j].expires.value)
      ensures r == Err(BadPlan) <==>
        && r != Err(LeaseLost)
        && (specs == [] || exists i, k :: 0 <= i < k < |specs| && specs[i].0 == specs[k].0)
      ensures r == Err(NameTaken) <==>
        && r != Err(LeaseLost) && r != Err(BadPlan)
        && exists i :: 0 <= i < |specs| && specs[i].0 in old(committed).journal
      ensures r.Ok? <==> r != Err(LeaseLost) && r != Err(BadPlan) && r != Err(NameTaken) && net.Ack?
      ensures r.Ok? || (r == Err(CommitFailed) && net.LostAck?) ==>
        && (forall i :: 0 <= i < |specs| ==>
              specs[i].0 in committed.journal && committed.journal[specs[i].0]
              == Row(j, old(committed).jobs[j].epoch, token, specs[i].1, Planned, None))
        && committed.journal.Keys == old(committed).journal.Keys + set i | 0 <= i < |specs| :: specs[i].0
    {
      hide PlanRows;
      if !S.Fenced(working, j, token, now) {
        return Err(LeaseLost);
      }
      SizeTestFindsDuplicates(specs);
      NamesMean(specs, working.journal.Keys);
      PlanRowsKeys(specs, j, token, working.jobs[j].epoch);
      hide Names, DistinctNames;
      if specs == [] || |Names(specs)| != |specs| {
        return Err(BadPlan);
      }
      var added := AddRows(j, token, working.jobs[j].epoch, specs);
      assert added.Keys == Names(specs);
      if exists nm :: nm in added && nm in working.journal {
        return Err(NameTaken);
      }
      working := working.(journal := working.journal + added);
      var acknowledged := Commit(net);
      r := if acknowledged then Ok(()) else Err(CommitFailed);
    }

    // Stages the transitions of all named rows; the caller commits or rolls back.
    method MarkCommitted(j: JobId, token: Token, pairs: seq<(Name, FileId)>) returns (r: Result<()>)
      requires DistinctNames(pairs)
      modifies this`working
      ensures r.Ok? <==> forall i :: 0 <= i < |pairs| ==>
        var nm := pairs[i].0;
        && nm in old(working).journal && old(working).journal[nm].job == j
        && old(working).journal[nm].token == token && old(working).journal[nm].state == Planned
      ensures r.Ok? ==> CommittedTo(old(working).journal, working.journal, pairs)
      ensures r.Ok? || r == Err(NotPlanned)
      ensures working == old(working).(journal := working.journal)
    {
      hide CommittedTo, Names, DistinctNames;
      NothingMarked(working.journal, pairs);
      for i := 0 to |pairs|
        invariant forall k :: 0 <= k < i ==> S.MarkableRow(old(working), j, token, pairs[k].0)
        invariant CommittedTo(old(working).journal, working.journal, pairs[..i])
        invariant working == old(working).(journal := working.journal)
      {
        NotYetMarked(old(working).journal, working.journal, pairs, i);
        if !S.MarkableRow(working, j, token, pairs[i].0) {
          return Err(NotPlanned);
        }
        var row := working.journal[pairs[i].0];
        ghost var before := working.journal;
        var done := row.(state := Committed, file := Some(pairs[i].1));
        working := working.(journal := working.journal[pairs[i].0 := done]);
        CommitOneMore(old(working).journal, before, pairs, i);
      }
      assert pairs[..|pairs|] == pairs;
      r := Ok(());
    }

    // Never deletes anything: it only files what the caller's deletions established.
    method CompensateWrites(j: JobId, token: Token, results: map<Name, bool>, net: Net) returns (r: Result<()>)
      requires working == committed
      modifies this
      ensures working == committed
      ensures committed == if net.Refused? then old(committed)
                           else S.Compensate(old(committed), j, token, ConfirmedIn(results))
      ensures r == if net.Ack? then Ok(()) else Err(CommitFailed)
      ensures !net.Refused? ==>
        && committed.journal.Keys == old(committed).journal.Keys
        && (forall nm :: nm in committed.journal ==>
              var row := old(committed).journal[nm];
              committed.journal[nm]
              == if row.job == j && row.token == token && row.state == Planned
                 then row.(state := if nm in results && results[nm] then Compensated else NeedsReview) else row)
    {
      var journal := working.journal;
      ghost var target := S.Compensate(working, j, token, ConfirmedIn(results)).journal;
      var open := OpenRows(working, j, token);
      while open != {}
        invariant open <= OpenRows(working, j, token)
        invariant journal.Keys == target.Keys == working.journal.Keys
        invariant forall nm :: nm in target ==> journal[nm] == if nm in open then working.journal[nm] else target[nm]
        decreases |open|
      {
        var nm :| nm in open;
        var state := if nm in results && results[nm] then Compensated else NeedsReview;
        journal := journal[nm := journal[nm].(state := state)];
        open := open - {nm};
      }
      assert journal == target;
      working := working.(journal := journal);
      var acknowledged := Commit(net);
      r := if acknowledged then Ok(()) else Err(CommitFailed);
    }
  }

  lemma NothingMarked(journal: map<Name, Row>, pairs: seq<(Name, FileId)>)
    ensures CommittedTo(journal, journal, pairs[..0])
  {
  }

  // The row of the next name is as it was.
  lemma NotYetMarked(journal: map<Name, Row>, now: map<Name, Row>, pairs: seq<(Name, FileId)>, i: nat)
    requires i < |pairs| && DistinctNames(pairs) && CommittedTo(journal, now, pairs[..i])
    ensures pairs[i].0 in now <==> pairs[i].0 in journal
    ensures pairs[i].0 in now ==> now[pairs[i].0] == journal[pairs[i].0]
  {
    assert forall k :: 0 <= k < i ==> pairs[..i][k].0 == pairs[k].0 != pairs[i].0;
    assert pairs[i].0 !in Names(pairs[..i]);
  }

  lemma CommitOneMore(journal: map<Name, Row>, before: map<Name, Row>, pairs: seq<(Name, FileId)>, i: nat)
    requires i < |pairs| && DistinctNames(pairs) && CommittedTo(journal, before, pairs[..i]) && pairs[i].0 in journal
    ensures var done := journal[pairs[i].0].(state := Committed, file := Some(pairs[i].1));
            CommittedTo(journal, before[pairs[i].0 := done], pairs[..i + 1])
  {
    assert Names(pairs[..i + 1]) == Names(pairs[..i]) + {pairs[i].0};
    assert forall k :: 0 <= k < i ==> pairs[..i + 1][k] == pairs[..i][k];
  }
}
