/** What the webhook table keeps over every run, how long retries take, and how soon a due
    delivery is attempted. */
module WebhookTheorems {
  import opened Webhooks

  // ---- lifecycle

  predicate LifeOk(d: Delivery) {
    && 1 <= d.maxAttempts && d.attempts <= d.maxAttempts
    && (d.status.Queued? ==> d.attempts == 0)
    && (d.status.Retrying? ==> 1 <= d.attempts < d.maxAttempts)
    && (d.status.Delivered? ==> 1 <= d.attempts)
  }

  ghost predicate TableOk(t: Table) {
    && (forall id :: id in t ==> LifeOk(t[id]))
    && (forall i, k :: i in t && k in t && i != k ==> t[i].job != t[k].job || t[i].event != t[k].event)
  }

  // Every reachable table: the attempt bounds of each status and one delivery per job and event.
  lemma {:induction false} Lifecycle(s: Settings, events: seq<Event>)
    requires ValidSettings(s) && Run(s, System(map[], Idle), events).Some?
    ensures TableOk(Run(s, System(map[], Idle), events).value.table)
  {
    hide Enabled, Apply;
    if events != [] {
      Lifecycle(s, events[..|events| - 1]);
      StepKeepsTable(s, Run(s, System(map[], Idle), events[..|events| - 1]).value, events[|events| - 1]);
    }
  }

  lemma StepKeepsTable(s: Settings, y: System, e: Event)
    requires ValidSettings(s) && TableOk(y.table) && Enabled(y, e)
    ensures TableOk(Apply(s, y, e).table)
  {
    hide FirstOf, KeepDue, RetryDelay;
  }

  // The history of the job is not cleared.
  predicate Spares(e: Event, job: nat) {
    e.Clear? ==> job !in e.jobs
  }

  // The only way on from each row: only clearing its job removes it, a delivered row never changes
  // again, and a dead letter changes only when it is requeued.
  lemma TerminalRowsStay(s: Settings, y: System, e: Event, id: Id)
    requires Enabled(y, e) && id in y.table && !Active(y.table[id]) && Spares(e, y.table[id].job)
    ensures id in Apply(s, y, e).table
    ensures Apply(s, y, e).table[id] != y.table[id] ==>
      e.Requeue? && e.id == id && y.table[id].status.Dead? && Apply(s, y, e).table[id].status.Queued?
  {
    hide FirstOf, KeepDue;
  }

  lemma {:induction false} DeliveredForever(s: Settings, y: System, events: seq<Event>, id: Id)
    requires Run(s, y, events).Some? && id in y.table && y.table[id].status.Delivered?
    requires forall i :: 0 <= i < |events| ==> Spares(events[i], y.table[id].job)
    ensures id in Run(s, y, events).value.table && Run(s, y, events).value.table[id] == y.table[id]
  {
    hide Enabled, Apply;
    if events != [] {
      DeliveredForever(s, y, events[..|events| - 1], id);
      TerminalRowsStay(s, Run(s, y, events[..|events| - 1]).value, events[|events| - 1], id);
    }
  }

  // The row is given up in this step: its job is gone, or its last attempt raised.
  ghost predicate GivenUp(y: System, e: Event, id: Id) {
    && e.Deliver? && y.pass.Busy? && y.pass.todo != [] && y.pass.todo[0] == id && id in y.table
    && (e.reply.outcome == JobGone
        || (e.reply.outcome == Raised && y.table[id].attempts + 1 >= y.table[id].maxAttempts))
  }

  // The receiver took it in this step.
  ghost predicate Taken(y: System, e: Event, id: Id) {
    && e.Deliver? && y.pass.Busy? && y.pass.todo != [] && y.pass.todo[0] == id && e.reply.outcome == Accepted
  }

  ghost predicate Has(t: Table, id: Id, status: Status) {
    id in t && t[id].status == status
  }

  // An active row that is attempted ends delivered exactly when the receiver accepts, and dead
  // exactly when it is given up; nothing else delivers or gives up a row.
  lemma EndsExactly(s: Settings, y: System, e: Event, id: Id)
    requires Enabled(y, e)
    ensures Has(Apply(s, y, e).table, id, Dead) && !Has(y.table, id, Dead) ==> GivenUp(y, e, id)
    ensures Has(Apply(s, y, e).table, id, Delivered) && !Has(y.table, id, Delivered) ==> Taken(y, e, id)
    ensures (Has(y.table, id, Queued) || Has(y.table, id, Retrying)) && GivenUp(y, e, id) ==>
              Has(Apply(s, y, e).table, id, Dead)
    ensures (Has(y.table, id, Queued) || Has(y.table, id, Retrying)) && Taken(y, e, id) ==>
              Has(Apply(s, y, e).table, id, Delivered)
  {
    hide FirstOf, KeepDue, RetryDelay;
  }

  // A dead letter of a run was given up in it, a delivered one was accepted in it.
  lemma {:induction false} EndsHaveCauses(s: Settings, y: System, events: seq<Event>, id: Id)
    requires Run(s, y, events).Some?
    ensures Has(Run(s, y, events).value.table, id, Dead) && !Has(y.table, id, Dead) ==>
              exists i :: 0 <= i < |events| && Run(s, y, events[..i]).Some?
                          && GivenUp(Run(s, y, events[..i]).value, events[i], id)
    ensures Has(Run(s, y, events).value.table, id, Delivered) && !Has(y.table, id, Delivered) ==>
              exists i :: 0 <= i < |events| && Run(s, y, events[..i]).Some?
                          && Taken(Run(s, y, events[..i]).value, events[i], id)
  {
    hide Enabled, Apply, GivenUp, Taken, Has;
    if events != [] {
      var n := |events| - 1;
      EndsHaveCauses(s, y, events[..n], id);
      EndsExactly(s, Run(s, y, events[..n]).value, events[n], id);
      assert forall i :: 0 <= i <= n ==> events[..n][..i] == events[..i];
    }
  }

  // ---- the waits of a failing delivery

  lemma {:induction false} Power2Monotone(m: nat, n: nat)
    requires m <= n
    ensures Power2(m) <= Power2(n)
  {
    if m < n {
      Power2Monotone(m, n - 1);
    }
  }

  lemma DelayMonotone(s: Settings, m: nat, n: nat)
    requires m <= n
    ensures RetryDelay(s, m) <= RetryDelay(s, n) <= s.cap
  {
    var a: nat, b: nat := if m >= 1 then m - 1 else 0, if n >= 1 then n - 1 else 0;
    Power2Monotone(a, b);
    Scale(s.initial, Power2(a), Power2(b));
  }

  lemma Scale(k: nat, a: nat, b: nat)
    requires a <= b
    ensures k * a <= k * b
  {
  }

  // A delivery after attempts that all raised, at the given times.
  function AfterFailures(s: Settings, d: Delivery, times: seq<int>): Delivery {
    if times == [] then d else Attempt(s, AfterFailures(s, d, times[..|times| - 1]), Raised, times[|times| - 1])
  }

  // The wait each failed attempt schedules before the next one, added up.
  function ScheduledWait(s: Settings, d: Delivery, times: seq<int>): int {
    if times == [] then 0
    else
      var d1 := AfterFailures(s, d, times);
      ScheduledWait(s, d, times[..|times| - 1]) + (if Active(d1) then d1.due - times[|times| - 1] else 0)
  }

  function SumOfDelays(s: Settings, n: nat): nat {
    if n == 0 then 0 else SumOfDelays(s, n - 1) + RetryDelay(s, n)
  }

  lemma {:induction false} FailuresSoFar(s: Settings, d: Delivery, times: seq<int>)
    requires LifeOk(d) && d.status.Queued? && |times| < d.maxAttempts
    ensures Active(AfterFailures(s, d, times)) && AfterFailures(s, d, times).attempts == |times|
    ensures AfterFailures(s, d, times).maxAttempts == d.maxAttempts
    ensures ScheduledWait(s, d, times) == SumOfDelays(s, |times|)
  {
    if times != [] {
      FailuresSoFar(s, d, times[..|times| - 1]);
    }
  }

  lemma {:induction false} SumBounds(s: Settings, n: nat)
    ensures SumOfDelays(s, n) <= n * s.cap && SumOfDelays(s, n) <= s.initial * (Power2(n) - 1)
    ensures n >= 1 ==>
      (SumOfDelays(s, n) == s.initial * (Power2(n) - 1) <==> s.initial * Power2(n - 1) <= s.cap)
  {
    if n > 0 {
      SumBounds(s, n - 1);
      var p := Power2(n - 1);
      DoublePower(s.initial, p);
      TimesSuccessor(s.cap, n - 1);
      if n > 1 {
        Scale(s.initial, Power2(n - 2), p);
      }
    }
  }

  lemma DoublePower(k: nat, p: nat)
    ensures k * (2 * p - 1) == k * (p - 1) + k * p
  {
  }

  lemma TimesSuccessor(k: nat, n: nat)
    ensures (n + 1) * k == n * k + k
  {
  }

  // A delivery whose attempts all raise is dead after exactly its maximum of attempts, and has then
  // waited at most (m - 1) * cap and at most initial * (2^(m - 1) - 1) seconds by schedule; the
  // second bound is met exactly when the last delay is not capped.
  lemma DeadLetterTime(s: Settings, d: Delivery, times: seq<int>)
    requires LifeOk(d) && d.status.Queued? && |times| == d.maxAttempts
    ensures forall k :: 0 <= k < |times| ==> Active(AfterFailures(s, d, times[..k]))
    ensures AfterFailures(s, d, times).status.Dead? && AfterFailures(s, d, times).attempts == d.maxAttempts
    ensures var wait, m := ScheduledWait(s, d, times), d.maxAttempts;
      && wait <= (m - 1) * s.cap && wait <= s.initial * (Power2(m - 1) - 1)
      && (m >= 2 ==> (wait == s.initial * (Power2(m - 1) - 1) <==> s.initial * Power2(m - 2) <= s.cap))
  {
    forall k | 0 <= k < |times| ensures Active(AfterFailures(s, d, times[..k])) {
      FailuresSoFar(s, d, times[..k]);
    }
    FailuresSoFar(s, d, times[..|times| - 1]);
    SumBounds(s, d.maxAttempts - 1);
  }

  // ---- fairness

  // The other active rows that a pass may take before this one.
  function Ahead(t: Table, id: Id): set<Id>
    requires id in t
  {
    set x | x in t && x != id && Active(t[x]) && t[x].due <= t[id].due
  }

  // The passes that ran to their end.
  function FinishedPasses(events: seq<Event>): nat {
    if events == [] then 0
    else FinishedPasses(events[..|events| - 1]) + (if events[|events| - 1].Finish? then 1 else 0)
  }

  // The delivery is due when a pass begins, every pass takes `batch` rows, nothing is queued or
  // requeued at or before its due time, and its own job is not cleared.
  predicate Late(e: Event, d: Delivery, batch: nat) {
    && (e.Begin? ==> d.due <= e.now && e.batch == batch)
    && (e.Queue? || e.Requeue? ==> d.due < e.now)
    && Spares(e, d.job)
  }

  lemma DelayPositive(s: Settings, attempts: nat)
    requires ValidSettings(s)
    ensures RetryDelay(s, attempts) >= 1
  {
    Scale(s.initial, 1, Power2(if attempts >= 1 then attempts - 1 else 0));
  }

  // The event is the attempt of this delivery.
  predicate Attempts(y: System, e: Event, id: Id) {
    e.Deliver? && y.pass.Busy? && y.pass.todo != [] && y.pass.todo[0] == id
  }

  ghost predicate AttemptedAt(s: Settings, y: System, events: seq<Event>, id: Id, i: nat)
    requires i < |events|
  {
    Run(s, y, events[..i]).Some? && Attempts(Run(s, y, events[..i]).value, events[i], id)
  }

  // The rows ahead of the delivery, counting those the current pass took ahead of it together with
  // the ones it has already attempted.
  function Backlog(y: System, id: Id, batch: nat): int
    requires id in y.table
  {
    if y.pass.Idle? || id in y.pass.todo then |Ahead(y.table, id)|
    else |Ahead(y.table, id) + IdSet(y.pass.todo)| + batch - |y.pass.todo|
  }

  // The delivery is still waiting as it was, behind at most `owed` rows.
  ghost predicate Waiting(y: System, d: Delivery, id: Id, batch: nat, owed: int) {
    && id in y.table && y.table[id] == d && Active(d)
    && (y.pass.Busy? ==>
        Distinct(y.pass.todo) && d.due <= y.pass.now && (id !in y.pass.todo ==> |y.pass.todo| <= batch))
    && Backlog(y, id, batch) <= owed
  }

  lemma SeqDistinct(t: Table, due: seq<Id>, batch: nat, now: int)
    requires FirstOf(t, due, DueIds(t, now), batch)
    ensures |IdSet(due)| == |due| && forall x :: x in due <==> x in IdSet(due)
  {
    SeqAsSet(due);
  }

  lemma FullBatch(t: Table, due: seq<Id>, batch: nat, now: int, id: Id)
    requires FirstOf(t, due, DueIds(t, now), batch) && id in DueIds(t, now) && id !in due
    ensures |due| == batch
  {
    SeqDistinct(t, due, batch, now);
    assert IdSet(due) <= DueIds(t, now) - {id};
    SubsetSize(IdSet(due), DueIds(t, now) - {id});
  }

  lemma TakenWereAhead(t: Table, due: seq<Id>, batch: nat, now: int, id: Id)
    requires FirstOf(t, due, DueIds(t, now), batch) && id in DueIds(t, now) && id !in due
    ensures IdSet(due) <= Ahead(t, id)
  {
    forall i | 0 <= i < |due| ensures due[i] in Ahead(t, id) {
      assert Before(t[due[i]], t[id]);
    }
  }

  // A pass that leaves the due delivery out takes a full batch of rows that are ahead of it.
  lemma BeginWaits(s: Settings, y: System, e: Event, d: Delivery, id: Id, batch: nat, owed: int)
    requires Waiting(y, d, id, batch, owed) && e.Begin? && Enabled(y, e) && Late(e, d, batch)
    ensures Waiting(Apply(s, y, e), d, id, batch, owed)
  {
    hide KeepDue, Ahead;
    var due := KeepDue(y.table, e.rows, e.now);
    LimitThenFilter(y.table, e.rows, batch, e.now);
    if id !in due {
      FullBatch(y.table, due, batch, e.now, id);
      TakenWereAhead(y.table, due, batch, e.now, id);
      assert Ahead(y.table, id) + IdSet(due) == Ahead(y.table, id);
    }
  }

  // An attempt takes its row out of the rows ahead, for good: it ends, or moves behind.
  lemma DeliverWaits(s: Settings, y: System, e: Event, d: Delivery, id: Id, batch: nat, owed: int)
    requires ValidSettings(s) && Waiting(y, d, id, batch, owed)
    requires e.Deliver? && Enabled(y, e) && !Attempts(y, e, id)
    ensures Waiting(Apply(s, y, e), d, id, batch, owed)
  {
    hide RetryDelay, Attempt, Ahead, Distinct, IdSet;
    var x, todo := y.pass.todo[0], y.pass.todo;
    var t1 := y.table[x := Attempt(s, y.table[x], e.reply.outcome, e.reply.now)];
    MovesBehind(s, y.table[x], e.reply, d);
    TailOf(todo);
    AheadWithout(y.table, id, x, Attempt(s, y.table[x], e.reply.outcome, e.reply.now));
    SubsetSize(Ahead(t1, id), Ahead(y.table, id));
    if id !in todo {
      ghost var before, after := Ahead(y.table, id) + IdSet(todo), Ahead(t1, id) + IdSet(todo[1..]);
      SubsetSize(after, before - {x});
    }
  }

  // A row that has moved behind is ahead no more.
  lemma AheadWithout(t: Table, id: Id, x: Id, x1: Delivery)
    requires id in t && x in t && x != id && (Active(x1) ==> t[id].due < x1.due)
    ensures Ahead(t[x := x1], id) <= Ahead(t, id) - {x}
  {
  }

  lemma MovesBehind(s: Settings, x: Delivery, reply: Reply, d: Delivery)
    requires ValidSettings(s) && d.due <= reply.now
    ensures var x1 := Attempt(s, x, reply.outcome, reply.now); Active(x1) ==> d.due < x1.due
  {
    hide RetryDelay;
    DelayPositive(s, x.attempts + 1);
  }

  lemma TailOf(todo: seq<Id>)
    requires Distinct(todo) && todo != []
    ensures Distinct(todo[1..]) && IdSet(todo) == {todo[0]} + IdSet(todo[1..]) && todo[0] !in IdSet(todo[1..])
    ensures forall id :: id in todo <==> id == todo[0] || id in todo[1..]
  {
    assert todo == [todo[0]] + todo[1..];
    forall id | id in IdSet(todo) && id != todo[0] ensures id in IdSet(todo[1..]) {
      var i :| 0 <= i < |todo| && todo[i] == id;
      assert todo[1..][i - 1] == id;
    }
    forall id | id in IdSet(todo[1..]) ensures id in IdSet(todo) {
      var i :| 0 <= i < |todo[1..]| && todo[1..][i] == id;
      assert todo[i + 1] == id;
    }
  }

  // Other transactions put nothing ahead of it.
  lemma OthersWait(s: Settings, y: System, e: Event, d: Delivery, id: Id, batch: nat, owed: int)
    requires Waiting(y, d, id, batch, owed) && Enabled(y, e) && Late(e, d, batch)
    requires e.Queue? || e.Requeue? || e.Clear?
    ensures Waiting(Apply(s, y, e), d, id, batch, owed)
  {
    var t1 := Apply(s, y, e).table;
    assert Ahead(t1, id) <= Ahead(y.table, id);
    SubsetSize(Ahead(t1, id), Ahead(y.table, id));
    if y.pass.Busy? {
      SubsetSize(Ahead(t1, id) + IdSet(y.pass.todo), Ahead(y.table, id) + IdSet(y.pass.todo));
    }
  }

  // A pass that ends leaves a batch of rows fewer ahead if it finished, and none more if not.
  lemma EndWaits(s: Settings, y: System, e: Event, d: Delivery, id: Id, batch: nat, owed: int)
    requires Waiting(y, d, id, batch, owed) && Enabled(y, e) && (e.Finish? || e.Abort?)
    ensures Waiting(Apply(s, y, e), d, id, batch, if e.Finish? then owed - batch else owed)
  {
    hide Ahead;
    var ahead := Ahead(y.table, id);
    SubsetSize(ahead, ahead + IdSet(y.pass.todo));
    assert y.pass.todo == [] ==> ahead + IdSet(y.pass.todo) == ahead;
  }

  lemma StepWaits(s: Settings, y: System, e: Event, d: Delivery, id: Id, batch: nat, owed: int)
    requires ValidSettings(s) && Waiting(y, d, id, batch, owed) && Enabled(y, e) && Late(e, d, batch)
    requires !Attempts(y, e, id)
    ensures Waiting(Apply(s, y, e), d, id, batch, if e.Finish? then owed - batch else owed)
  {
    hide Waiting, Enabled, Apply, Late, Attempts;
    match e {
      case Begin(_, _, _) => BeginWaits(s, y, e, d, id, batch, owed);
      case Deliver(_) => DeliverWaits(s, y, e, d, id, batch, owed);
      case Finish => EndWaits(s, y, e, d, id, batch, owed);
      case Abort => EndWaits(s, y, e, d, id, batch, owed);
      case _ => OthersWait(s, y, e, d, id, batch, owed);
    }
  }

  lemma {:induction false} RunWaits(s: Settings, y: System, events: seq<Event>, d: Delivery, id: Id, batch: nat,
                                    owed: int)
    requires ValidSettings(s) && Run(s, y, events).Some? && Waiting(y, d, id, batch, owed)
    requires forall i :: 0 <= i < |events| ==> Late(events[i], d, batch) && !AttemptedAt(s, y, events, id, i)
    ensures Waiting(Run(s, y, events).value, d, id, batch, owed - batch * FinishedPasses(events))
  {
    hide Waiting, Enabled, Apply, Late, Attempts;
    if events != [] {
      var init, e := events[..|events| - 1], events[|events| - 1];
      forall i | 0 <= i < |init| ensures Late(init[i], d, batch) && !AttemptedAt(s, y, init, id, i) {
        assert init[..i] == events[..i];
        assert !AttemptedAt(s, y, events, id, i);
      }
      RunWaits(s, y, init, d, id, batch, owed);
      assert !AttemptedAt(s, y, events, id, |events| - 1);
      StepWaits(s, Run(s, y, init).value, e, d, id, batch, owed - batch * FinishedPasses(init));
      Distribute(batch, FinishedPasses(init));
    }
  }

  // A due delivery with r active rows ahead of it is attempted before floor(r / batch) + 1 passes
  // have finished, whatever is queued, requeued, rescheduled or cleared meanwhile, between passes or
  // inside them, and however many passes are aborted.
  lemma AttemptedSoon(s: Settings, y: System, events: seq<Event>, id: Id, batch: nat)
    requires ValidSettings(s) && y.pass.Idle? && id in y.table && Active(y.table[id]) && batch >= 1
    requires Run(s, y, events).Some? && forall i :: 0 <= i < |events| ==> Late(events[i], y.table[id], batch)
    requires FinishedPasses(events) >= |Ahead(y.table, id)| / batch + 1
    ensures exists i :: 0 <= i < |events| && AttemptedAt(s, y, events, id, i)
  {
    hide Run, Ahead, AttemptedAt, Late, FinishedPasses;
    var d, r := y.table[id], |Ahead(y.table, id)|;
    if forall i :: 0 <= i < |events| ==> !AttemptedAt(s, y, events, id, i) {
      RunWaits(s, y, events, d, id, batch, r);
      NothingOwed(Run(s, y, events).value, d, id, batch, r - batch * FinishedPasses(events));
      EnoughPasses(r, batch, FinishedPasses(events));
      assert false;
    }
  }

  lemma NothingOwed(y: System, d: Delivery, id: Id, batch: nat, owed: int)
    requires Waiting(y, d, id, batch, owed)
    ensures owed >= 0
  {
    hide Ahead;
  }

  lemma Distribute(batch: nat, n: nat)
    ensures batch * (n + 1) == batch * n + batch
  {
  }

  lemma EnoughPasses(ahead: nat, batch: nat, passes: nat)
    requires batch >= 1 && passes >= ahead / batch + 1
    ensures batch * passes > ahead
  {
    Scale(batch, ahead / batch + 1, passes);
    Distribute(batch, ahead / batch);
  }
}
