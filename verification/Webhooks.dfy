/** The durable webhook table: queueing, one delivery attempt, the dispatcher's pass over due
    rows, and the operator's requeue of a dead letter. */
module Webhooks {
  import opened Arithmetic
  import opened Options

  type Id = nat

  datatype Status = Queued | Retrying | Delivered | Dead

  datatype Delivery = Delivery(job: nat, event: nat, status: Status, attempts: nat, maxAttempts: nat, due: int,
                               created: int)

  type Table = map<Id, Delivery>

  datatype Settings = Settings(maxAttempts: nat, initial: nat, cap: nat)

  // The bounds of the configuration.
  predicate ValidSettings(s: Settings) {
    1 <= s.maxAttempts <= 20 && 1 <= s.initial <= 3600 && 1 <= s.cap <= 86400
  }

  predicate Active(d: Delivery) {
    d.status.Queued? || d.status.Retrying?
  }

  // The job row is missing, the receiver accepted, or the attempt raised.
  datatype Outcome = JobGone | Accepted | Raised

  function Power2(n: nat): (p: nat)
    ensures p >= 1
  {
    if n == 0 then 1 else 2 * Power2(n - 1)
  }

  function RetryDelay(s: Settings, attempts: nat): nat {
    Min(s.initial * Power2(if attempts >= 1 then attempts - 1 else 0), s.cap)
  }

  function Attempt(s: Settings, d: Delivery, outcome: Outcome, now: int): Delivery {
    if !Active(d) then d
    else match outcome
      case JobGone => d.(status := Dead)
      case Accepted => d.(attempts := d.attempts + 1, status := Delivered, due := now)
      case Raised =>
        if d.attempts + 1 >= d.maxAttempts
        then d.(attempts := d.attempts + 1, status := Dead, due := now)
        else d.(attempts := d.attempts + 1, status := Retrying, due := now + RetryDelay(s, d.attempts + 1))
  }

  ghost predicate Queueable(t: Table, id: Id, job: nat, event: nat) {
    id !in t && forall i :: i in t ==> !(t[i].job == job && t[i].event == event)
  }

  function NewDelivery(s: Settings, job: nat, event: nat, now: int): Delivery {
    Delivery(job, event, Queued, 0, s.maxAttempts, now, now)
  }

  function Requeued(d: Delivery, now: int): Delivery {
    d.(status := Queued, attempts := 0, due := now)
  }

  // ---- choosing the rows of a pass

  function ActiveIds(t: Table): set<Id> {
    set id | id in t && Active(t[id])
  }

  function DueIds(t: Table, now: int): set<Id> {
    set id | id in t && Active(t[id]) && t[id].due <= now
  }

  // ORDER BY next_attempt_at, created_at; rows equal in both come in any order.
  predicate Before(d: Delivery, e: Delivery) {
    d.due < e.due || (d.due == e.due && d.created <= e.created)
  }

  // The first `batch` candidates in that order.
  ghost predicate FirstOf(t: Table, rows: seq<Id>, candidates: set<Id>, batch: nat)
    requires candidates <= t.Keys
  {
    && (forall i :: 0 <= i < |rows| ==> rows[i] in candidates)
    && (forall i, k :: 0 <= i < k < |rows| ==> rows[i] != rows[k] && Before(t[rows[i]], t[rows[k]]))
    && |rows| == Min(batch, |candidates|)
    && (forall i, id :: 0 <= i < |rows| && id in candidates && id !in rows ==> Before(t[rows[i]], t[id]))
  }

  function KeepDue(t: Table, rows: seq<Id>, now: int): seq<Id>
    requires forall i :: 0 <= i < |rows| ==> rows[i] in t
  {
    if rows == [] then []
    else KeepDue(t, rows[..|rows| - 1], now)
         + (if t[rows[|rows| - 1]].due <= now then [rows[|rows| - 1]] else [])
  }

  // The rows are ordered by due time, so the due ones are a prefix.
  lemma {:induction false} DueIsPrefix(t: Table, rows: seq<Id>, now: int)
    requires forall i :: 0 <= i < |rows| ==> rows[i] in t
    requires forall i, k :: 0 <= i < k < |rows| ==> Before(t[rows[i]], t[rows[k]])
    ensures KeepDue(t, rows, now) <= rows
    ensures forall i :: 0 <= i < |rows| ==> (t[rows[i]].due <= now <==> i < |KeepDue(t, rows, now)|)
  {
    if rows != [] {
      var n := |rows| - 1;
      DueIsPrefix(t, rows[..n], now);
      assert forall i :: 0 <= i < n ==> rows[..n][i] == rows[i];
      if t[rows[n]].due <= now {
        assert forall i :: 0 <= i < n ==> t[rows[..n][i]].due <= now;
        assert KeepDue(t, rows[..n], now) == rows[..n];
      }
    }
  }

  function IdSet(rows: seq<Id>): set<Id> {
    set i | 0 <= i < |rows| :: rows[i]
  }

  predicate Distinct(rows: seq<Id>) {
    forall i, k :: 0 <= i < k < |rows| ==> rows[i] != rows[k]
  }

  lemma {:induction false} SeqAsSet(rows: seq<Id>)
    requires Distinct(rows)
    ensures |IdSet(rows)| == |rows|
  {
    if rows != [] {
      var n := |rows| - 1;
      SeqAsSet(rows[..n]);
      assert IdSet(rows) == IdSet(rows[..n]) + {rows[n]};
    }
  }

  lemma SubsetSize<T>(a: set<T>, b: set<T>)
    requires a <= b
    ensures |a| <= |b| && (|a| == |b| ==> a == b)
  {
    assert b == a + (b - a);
  }

  lemma DueRowsKept(t: Table, rows: seq<Id>, now: int, id: Id)
    requires forall i :: 0 <= i < |rows| ==> rows[i] in t
    requires forall i, k :: 0 <= i < k < |rows| ==> Before(t[rows[i]], t[rows[k]])
    requires id in rows && t[id].due <= now
    ensures id in KeepDue(t, rows, now)
  {
    DueIsPrefix(t, rows, now);
    var i :| 0 <= i < |rows| && rows[i] == id;
    assert KeepDue(t, rows, now)[i] == id;
  }

  // The row after the due ones was taken, so every due row was taken.
  lemma LateRowTaken(t: Table, rows: seq<Id>, batch: nat, now: int)
    requires FirstOf(t, rows, ActiveIds(t), batch) && |KeepDue(t, rows, now)| < |rows|
    ensures IdSet(KeepDue(t, rows, now)) == DueIds(t, now)
  {
    var due := KeepDue(t, rows, now);
    DueIsPrefix(t, rows, now);
    var late := rows[|due|];
    forall id | id in DueIds(t, now) ensures id in IdSet(due) {
      assert id !in rows ==> Before(t[late], t[id]);
      DueRowsKept(t, rows, now, id);
    }
    forall id | id in IdSet(due) ensures id in DueIds(t, now) {
      var i :| 0 <= i < |due| && due[i] == id;
      assert rows[i] == id;
    }
  }

  lemma AllTaken(t: Table, rows: seq<Id>, batch: nat)
    requires FirstOf(t, rows, ActiveIds(t), batch) && |rows| < batch
    ensures IdSet(rows) == ActiveIds(t)
  {
    SeqAsSet(rows);
    SubsetSize(IdSet(rows), ActiveIds(t));
  }

  lemma DueCount(t: Table, rows: seq<Id>, batch: nat, now: int)
    requires FirstOf(t, rows, ActiveIds(t), batch)
    ensures |KeepDue(t, rows, now)| == Min(batch, |DueIds(t, now)|)
  {
    hide KeepDue, Before;
    var due := KeepDue(t, rows, now);
    DueIsPrefix(t, rows, now);
    DuePrefixSize(rows, due);
    if |due| < |rows| {
      LateRowTaken(t, rows, batch, now);
      assert IdSet(due) == DueIds(t, now);
    } else {
      assert due == rows;
      AllDue(t, rows, batch, now);
    }
  }

  lemma DuePrefixSize(rows: seq<Id>, due: seq<Id>)
    requires Distinct(rows) && due <= rows
    ensures |IdSet(due)| == |due|
  {
    SeqAsSet(due);
  }

  // All rows taken were due.
  lemma AllDue(t: Table, rows: seq<Id>, batch: nat, now: int)
    requires FirstOf(t, rows, ActiveIds(t), batch)
    requires forall i :: 0 <= i < |rows| ==> t[rows[i]].due <= now
    ensures |rows| == Min(batch, |DueIds(t, now)|)
  {
    hide KeepDue, Before;
    SeqAsSet(rows);
    assert IdSet(rows) <= DueIds(t, now) <= ActiveIds(t);
    SubsetSize(IdSet(rows), DueIds(t, now));
    SubsetSize(DueIds(t, now), ActiveIds(t));
    if |rows| < batch {
      AllTaken(t, rows, batch);
    }
  }

  // Taking the first `batch` active rows and then dropping those not yet due selects exactly the
  // first `batch` due rows.
  lemma LimitThenFilter(t: Table, rows: seq<Id>, batch: nat, now: int)
    requires FirstOf(t, rows, ActiveIds(t), batch)
    ensures FirstOf(t, KeepDue(t, rows, now), DueIds(t, now), batch)
  {
    var due := KeepDue(t, rows, now);
    DueIsPrefix(t, rows, now);
    DueCount(t, rows, batch, now);
    forall i, id | 0 <= i < |due| && id in DueIds(t, now) && id !in due
      ensures Before(t[due[i]], t[id])
    {
      assert id !in rows by {
        forall r | r in rows && t[r].due <= now ensures r in due {
          DueRowsKept(t, rows, now, r);
        }
      }
    }
  }

  // ---- the dispatcher and the other transactions, commit by commit

  // How an attempt ends, and the clock when it does.
  datatype Reply = Reply(outcome: Outcome, now: int)

  // A pass of the dispatcher that began at `now`, with the due rows it has not yet attempted.
  datatype Pass = Idle | Busy(now: int, todo: seq<Id>)

  datatype System = System(table: Table, pass: Pass)

  datatype Event =
    | Queue(id: Id, job: nat, event: nat, now: int)
    | Requeue(id: Id, now: int)
    | Clear(jobs: set<nat>)
    | Begin(now: int, batch: nat, rows: seq<Id>)
    | Deliver(reply: Reply)
    | Finish
    | Abort

  // What can happen: the uniqueness of (job, event) rejects a second row; only dead letters are
  // requeued; clearing the history of finished jobs deletes their deliveries at any moment. A pass
  // reads the first active rows, attempts the due ones one commit at a time and finishes after the
  // last one. It may be aborted by an exception or a crash at any moment, and cannot go on once the
  // row it stands at has been deleted, because its commit then matches no row.
  ghost predicate Enabled(y: System, e: Event) {
    match e
    case Queue(id, job, event, _) => Queueable(y.table, id, job, event)
    case Requeue(id, _) => id in y.table && y.table[id].status.Dead?
    case Clear(_) => true
    case Begin(now, batch, rows) => y.pass.Idle? && batch >= 1 && FirstOf(y.table, rows, ActiveIds(y.table), batch)
    case Deliver(reply) =>
      y.pass.Busy? && y.pass.todo != [] && y.pass.todo[0] in y.table && y.pass.now <= reply.now
    case Finish => y.pass.Busy? && y.pass.todo == []
    case Abort => y.pass.Busy?
  }

  function WithoutJobs(t: Table, jobs: set<nat>): Table {
    map id | id in t && t[id].job !in jobs :: t[id]
  }

  ghost function Apply(s: Settings, y: System, e: Event): System
    requires Enabled(y, e)
  {
    match e
    case Queue(id, job, event, now) => y.(table := y.table[id := NewDelivery(s, job, event, now)])
    case Requeue(id, now) => y.(table := y.table[id := Requeued(y.table[id], now)])
    case Clear(jobs) => y.(table := WithoutJobs(y.table, jobs))
    case Begin(now, batch, rows) => y.(pass := Busy(now, KeepDue(y.table, rows, now)))
    case Deliver(reply) =>
      var id := y.pass.todo[0];
      System(y.table[id := Attempt(s, y.table[id], reply.outcome, reply.now)], Busy(y.pass.now, y.pass.todo[1..]))
    case Finish => y.(pass := Idle)
    case Abort => y.(pass := Idle)
  }

  ghost function Run(s: Settings, y: System, events: seq<Event>): Option<System> {
    if events == [] then Some(y)
    else
      var r := Run(s, y, events[..|events| - 1]);
      var e := events[|events| - 1];
      if r.Some? && Enabled(r.value, e) then Some(Apply(s, r.value, e)) else None
  }

  lemma RunMore(s: Settings, y: System, events: seq<Event>, e: Event)
    requires Run(s, y, events).Some? && Enabled(Run(s, y, events).value, e)
    ensures Run(s, y, events + [e]) == Some(Apply(s, Run(s, y, events).value, e))
  {
    assert (events + [e])[..|events + [e]| - 1] == events;
  }
}
