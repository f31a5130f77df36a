/** The webhook functions as they update the delivery table. */
module WebhookDispatcher {
  import opened Arithmetic
  import opened Options
  import opened Webhooks

  // What surrounds one attempt of a pass: the jobs whose history is cleared since the attempt before
  // it, how the attempt ends, and whether its commit succeeds.
  datatype Turn = Turn(cleared: set<nat>, reply: Reply, commits: bool)

  // The commit of the k-th row raises: it fails, or the row was deleted with the history of its job.
  predicate Stops(t: Table, due: seq<Id>, turns: seq<Turn>, k: nat)
    requires k < |due| <= |turns| && due[k] in t
  {
    !turns[k].commits || exists m :: 0 <= m <= k && t[due[k]].job in turns[m].cleared
  }

  // The pass gets past exactly the first `n` rows.
  predicate Reached(t: Table, due: seq<Id>, turns: seq<Turn>, n: nat)
    requires |due| <= |turns| && forall id :: id in due ==> id in t
  {
    && n <= |due|
    && (forall k :: 0 <= k < n ==> !Stops(t, due, turns, k))
    && (n < |due| ==> Stops(t, due, turns, n))
  }

  lemma CompletesExactly(t: Table, due: seq<Id>, turns: seq<Turn>, n: nat)
    requires |due| <= |turns| && (forall id :: id in due ==> id in t) && Reached(t, due, turns, n)
    ensures n <= |due|
    ensures n == |due| <==>
            && (forall k :: 0 <= k < |due| ==> turns[k].commits)
            && (forall k, m :: 0 <= m <= k < |due| ==> t[due[k]].job !in turns[m].cleared)
  {
    if n == |due| {
      forall k | 0 <= k < |due|
      ensures turns[k].commits && forall m :: 0 <= m <= k ==> t[due[k]].job !in turns[m].cleared
    {
        assert !Stops(t, due, turns, k);
      }
    } else {
      assert Stops(t, due, turns, n);
    }
  }

  // The attempts of a pass with the clears between them, in order.
  function Attempts(turns: seq<Turn>): seq<Event> {
    if turns == [] then []
    else
      var turn := turns[|turns| - 1];
      Attempts(turns[..|turns| - 1]) + [Clear(turn.cleared), Deliver(turn.reply)]
  }

  lemma AttemptsMore(turns: seq<Turn>, i: nat)
    requires i < |turns|
    ensures Attempts(turns[..i + 1]) == Attempts(turns[..i]) + [Clear(turns[i].cleared), Deliver(turns[i].reply)]
  {
    assert turns[..i + 1][..i] == turns[..i];
  }

  // The rows not yet attempted are there with their jobs unless those were cleared.
  ghost predicate StillThere(first: Table, due: seq<Id>, turns: seq<Turn>, i: nat, t: Table)
    requires i <= |due| <= |turns| && forall id :: id in due ==> id in first
  {
    forall k :: i <= k < |due| ==>
      && (due[k] in t <==> forall m :: 0 <= m < i ==> first[due[k]].job !in turns[m].cleared)
      && (due[k] in t ==> t[due[k]].job == first[due[k]].job)
  }

  ghost predicate ThereAfterClear(first: Table, due: seq<Id>, turns: seq<Turn>, i: nat, t: Table)
    requires i < |due| <= |turns| && forall id :: id in due ==> id in first
  {
    forall k :: i <= k < |due| ==>
      && (due[k] in t <==> forall m :: 0 <= m <= i ==> first[due[k]].job !in turns[m].cleared)
      && (due[k] in t ==> t[due[k]].job == first[due[k]].job)
  }

  lemma ClearKeeps(first: Table, due: seq<Id>, turns: seq<Turn>, i: nat, t: Table)
    requires i < |due| <= |turns| && forall id :: id in due ==> id in first
    requires StillThere(first, due, turns, i, t)
    ensures ThereAfterClear(first, due, turns, i, WithoutJobs(t, turns[i].cleared))
  {
  }

  lemma AttemptKeeps(s: Settings, first: Table, due: seq<Id>, turns: seq<Turn>, i: nat, t: Table)
    requires i < |due| <= |turns| && Distinct(due) && forall id :: id in due ==> id in first
    requires ThereAfterClear(first, due, turns, i, t) && due[i] in t
    ensures var r := turns[i].reply;
            StillThere(first, due, turns, i + 1, t[due[i] := Attempt(s, t[due[i]], r.outcome, r.now)])
  {
    hide RetryDelay;
  }

  // The steps of a pass as steps of a run.
  lemma BeginStep(s: Settings, t: Table, now: int, batch: nat, rows: seq<Id>)
    requires batch >= 1 && FirstOf(t, rows, ActiveIds(t), batch)
    ensures Run(s, System(t, Idle), [Begin(now, batch, rows)]) == Some(System(t, Busy(now, KeepDue(t, rows, now))))
    ensures |KeepDue(t, rows, now)| == Min(batch, |DueIds(t, now)|) && Distinct(KeepDue(t, rows, now))
    ensures forall id :: id in KeepDue(t, rows, now) ==> id in DueIds(t, now)
    ensures |KeepDue(t, rows, now)| < batch ==> forall id :: id in DueIds(t, now) ==> id in KeepDue(t, rows, now)
  {
    RunMore(s, System(t, Idle), [], Begin(now, batch, rows));
    DueCount(t, rows, batch, now);
    DueIsPrefix(t, rows, now);
    LimitThenFilter(t, rows, batch, now);
    SeqAsSet(KeepDue(t, rows, now));
    SubsetSize(IdSet(KeepDue(t, rows, now)), DueIds(t, now));
  }

  lemma ClearStep(s: Settings, start: System, events: seq<Event>, jobs: set<nat>)
    requires Run(s, start, events).Some?
    ensures var y := Run(s, start, events).value;
            Run(s, start, events + [Clear(jobs)]) == Some(System(WithoutJobs(y.table, jobs), y.pass))
  {
    hide Run;
    RunMore(s, start, events, Clear(jobs));
  }

  lemma DeliverStep(s: Settings, start: System, events: seq<Event>, reply: Reply)
    requires Run(s, start, events).Some? && Run(s, start, events).value.pass.Busy?
    requires Run(s, start, events).value.pass.now <= reply.now && Run(s, start, events).value.pass.todo != []
    requires Run(s, start, events).value.pass.todo[0] in Run(s, start, events).value.table
    ensures var y := Run(s, start, events).value;
            var id := y.pass.todo[0];
            Run(s, start, events + [Deliver(reply)])
            == Some(System(y.table[id := Attempt(s, y.table[id], reply.outcome, reply.now)],
                           Busy(y.pass.now, y.pass.todo[1..])))
  {
    hide Run;
    RunMore(s, start, events, Deliver(reply));
  }

  lemma AbortStep(s: Settings, start: System, events: seq<Event>)
    requires Run(s, start, events).Some? && Run(s, start, events).value.pass.Busy?
    ensures Run(s, start, events + [Abort]) == Some(System(Run(s, start, events).value.table, Idle))
  {
    hide Run;
    RunMore(s, start, events, Abort);
  }

  lemma FinishStep(s: Settings, start: System, events: seq<Event>)
    requires Run(s, start, events).Some?
    requires Run(s, start, events).value.pass.Busy? && Run(s, start, events).value.pass.todo == []
    ensures Run(s, start, events + [Finish]) == Some(System(Run(s, start, events).value.table, Idle))
  {
    hide Run;
    RunMore(s, start, events, Finish);
  }

  class Deliveries {
    var table: Table
    const settings: Settings

    constructor (settings: Settings)
      ensures this.settings == settings && table == map[]
    {
      this.settings, table := settings, map[];
    }

    method Find(job: nat, event: nat) returns (found: Option<Id>)
      ensures found.Some? ==> found.value in table && table[found.value].job == job && table[found.value].event == event
      ensures found.None? ==> forall id :: id in table ==> !(table[id].job == job && table[id].event == event)
    {
      var rest := table.Keys;
      while rest != {}
        invariant rest <= table.Keys
        invariant forall id :: id in table.Keys - rest ==> !(table[id].job == job && table[id].event == event)
        decreases |rest|
      {
        var id :| id in rest;
        if table[id].job == job && table[id].event == event {
          return Some(id);
        }
        rest := rest - {id};
      }
      found := None;
    }

    // Idempotent: a second request for the same job and event finds the first delivery. Other
    // transactions may leave `between` before the insert is committed; when one of them has queued
    // the same event, the uniqueness of (job, event) refuses the insert and the delivery is looked
    // up again in what is there by then, `after`. A service without a URL gets no delivery.
    method Queue(hasUrl: bool, newId: Id, job: nat, event: nat, now: int, between: Table, after: Table)
      returns (id: Option<Id>)
      requires newId !in table && newId !in between
      modifies this`table
      ensures id.Some? ==> id.value in table && table[id.value].job == job && table[id.value].event == event
      ensures !hasUrl ==> id.None? && table == old(table)
      ensures hasUrl && !Queueable(old(table), newId, job, event) ==> id.Some? && table == old(table)
      ensures hasUrl ==>
        (Queueable(old(table), newId, job, event)
         <==> forall i :: i in old(table) ==> old(table)[i].job != job || old(table)[i].event != event)
      ensures hasUrl && Queueable(old(table), newId, job, event) ==>
        if Queueable(between, newId, job, event)
        then id == Some(newId)
             && table == between[newId := Delivery(job, event, Queued, 0, settings.maxAttempts, now, now)]
        else && table == after
             && (id.None? <==> forall i :: i in after ==> !(after[i].job == job && after[i].event == event))
    {
      if !hasUrl {
        return None;
      }
      id := Find(job, event);
      if id.Some? {
        return;
      }
      table := between;
      var rival := Find(job, event);
      if rival.None? {
        table := table[newId := Delivery(job, event, Queued, 0, settings.maxAttempts, now, now)];
        return Some(newId);
      }
      table := after;
      id := Find(job, event);
    }

    method Deliver(id: Id, outcome: Outcome, now: int) returns (delivered: bool)
      requires id in table
      modifies this`table
      ensures table == old(table)[id := Attempt(settings, old(table)[id], outcome, now)]
      ensures delivered <==> table[id].status == Delivered
      // what each outcome makes of the row
      ensures var d, d1 := old(table)[id], table[id];
        && table == old(table)[id := d1]
        && (d.status == Delivered || d.status == Dead ==> d1 == d)
        && (d.status == Queued || d.status == Retrying ==>
              match outcome
              case JobGone => d1 == d.(status := Dead)
              case Accepted => d1 == d.(attempts := d.attempts + 1, status := Delivered, due := now)
              case Raised =>
                if d.attempts + 1 < d.maxAttempts
                then d1 == d.(attempts := d.attempts + 1, status := Retrying,
                              due := now + Min(settings.initial * Power2(d.attempts), settings.cap))
                else d1 == d.(attempts := d.attempts + 1, status := Dead, due := now))
    {
      var d := table[id];
      if !Active(d) {
        return d.status.Delivered?;
      }
      if outcome.JobGone? {
        table := table[id := d.(status := Dead)];
        return false;
      }
      d := d.(attempts := d.attempts + 1);
      if outcome.Raised? {
        if d.attempts >= d.maxAttempts {
          d := d.(status := Dead, due := now);
        } else {
          var delay := RetryDelay(settings, d.attempts);
          d := d.(status := Retrying, due := now + delay);
        }
        table := table[id := d];
        return false;
      }
      table := table[id := d.(status := Delivered, due := now)];
      delivered := true;
    }

    method Earliest(ids: set<Id>) returns (best: Id)
      requires ids != {} && ids <= table.Keys
      ensures best in ids && forall id :: id in ids ==> Before(table[best], table[id])
    {
      best :| best in ids;
      var rest := ids - {best};
      while rest != {}
        invariant rest <= ids && best in ids
        invariant forall id :: id in ids - rest ==> Before(table[best], table[id])
        decreases |rest|
      {
        var id :| id in rest;
        if !Before(table[best], table[id]) {
          best := id;
        }
        rest := rest - {id};
      }
    }

    // SELECT the active rows ORDER BY next_attempt_at, created_at LIMIT batch.
    method Select(batch: nat) returns (rows: seq<Id>)
      ensures FirstOf(table, rows, ActiveIds(table), batch)
      ensures forall i, k :: 0 <= i < k < |rows| ==>
        var d, e := table[rows[i]], table[rows[k]]; d.due < e.due || (d.due == e.due && d.created <= e.created)
      ensures forall i, id :: 0 <= i < |rows| && id in table && id !in rows && Active(table[id]) ==>
        var d, e := table[rows[i]], table[id]; d.due < e.due || (d.due == e.due && d.created <= e.created)
    {
      var active := ActiveIds(table);
      var rest := active;
      rows := [];
      while |rows| < batch && rest != {}
        invariant rest <= active && |rows| + |rest| == |active| && |rows| <= batch
        invariant forall id :: id in active ==> (id in rest <==> id !in rows)
        invariant forall i :: 0 <= i < |rows| ==> rows[i] in active
        invariant forall i, k :: 0 <= i < k < |rows| ==> rows[i] != rows[k] && Before(table[rows[i]], table[rows[k]])
        invariant forall i, id :: 0 <= i < |rows| && id in rest ==> Before(table[rows[i]], table[id])
        decreases |rest|
      {
        var best := Earliest(rest);
        rows := rows + [best];
        rest := rest - {best};
      }
    }

    method SelectDue(batch: nat, now: int) returns (due: seq<Id>, ghost rows: seq<Id>)
      ensures FirstOf(table, rows, ActiveIds(table), batch) && due == KeepDue(table, rows, now)
    {
      var selected := Select(batch);
      rows := selected;
      due := [];
      for i := 0 to |selected|
        invariant due == KeepDue(table, selected[..i], now)
      {
        assert selected[..i + 1][..i] == selected[..i];
        if table[selected[i]].due <= now {
          due := due + [selected[i]];
        }
      }
      assert selected[..|selected|] == selected;
    }

    // The loop of a pass over its due rows: `reached` of them are attempted, and the first one whose
    // row is gone or whose commit fails raises.
    method DeliverAll(due: seq<Id>, now: int, turns: seq<Turn>, ghost start: System, ghost before: seq<Event>)
      returns (reached: nat, ghost events: seq<Event>)
      requires |due| <= |turns| && Distinct(due) && forall id :: id in due ==> id in table
      requires forall turn :: turn in turns ==> now <= turn.reply.now
      requires Run(settings, start, before) == Some(System(table, Busy(now, due)))
      modifies this`table
      ensures Reached(old(table), due, turns, reached)
      ensures events == before + Attempts(turns[..reached])
                        + (if reached < |due| then [Clear(turns[reached].cleared), Abort] else [])
      ensures Run(settings, start, events)
              == Some(System(table, if reached < |due| then Idle else Busy(now, [])))
    {
      hide Run, Enabled, Apply, Attempt, WithoutJobs;
      ghost var first := table;
      events := before;
      for i := 0 to |due|
        invariant events == before + Attempts(turns[..i])
        invariant Run(settings, start, events) == Some(System(table, Busy(now, due[i..])))
        invariant StillThere(first, due, turns, i, table)
        invariant forall k :: 0 <= k < i ==> !Stops(first, due, turns, k)
      {
        AttemptsMore(turns, i);
        ClearStep(settings, start, events, turns[i].cleared);
        ClearKeeps(first, due, turns, i, table);
        table := WithoutJobs(table, turns[i].cleared);
        if due[i] !in table || !turns[i].commits {
          AbortStep(settings, start, events + [Clear(turns[i].cleared)]);
          events := events + [Clear(turns[i].cleared)] + [Abort];
          assert events == before + Attempts(turns[..i]) + [Clear(turns[i].cleared), Abort];
          return i, events;
        }
        DeliverStep(settings, start, events + [Clear(turns[i].cleared)], turns[i].reply);
        AttemptKeeps(settings, first, due, turns, i, table);
        var delivered := Deliver(due[i], turns[i].reply.outcome, turns[i].reply.now);
        events := events + [Clear(turns[i].cleared)] + [Event.Deliver(turns[i].reply)];
        assert due[i..][1..] == due[i + 1..];
      }
      assert due[|due|..] == [];
      reached := |due|;
    }

    // One pass: the due ones among the selected rows are attempted in order, up to the first whose
    // commit raises. A completed pass returns their number.
    method ProcessDue(batch: nat, now: int, turns: seq<Turn>)
      returns (count: Option<nat>, ghost reached: nat, ghost rows: seq<Id>, ghost due: seq<Id>,
               ghost events: seq<Event>)
      requires batch >= 1 && |turns| == batch
      requires forall turn :: turn in turns ==> now <= turn.reply.now
      modifies this`table
      ensures FirstOf(old(table), rows, ActiveIds(old(table)), batch) && due == KeepDue(old(table), rows, now)
      ensures |due| == Min(batch, |DueIds(old(table), now)|) && forall id :: id in due ==> id in old(table)
      ensures forall id :: id in due ==>
        (old(table)[id].status == Queued || old(table)[id].status == Retrying) && old(table)[id].due <= now
      ensures |due| < batch ==> forall id :: id in old(table) && id !in due ==>
        old(table)[id].status == Delivered || old(table)[id].status == Dead || old(table)[id].due > now
      ensures Reached(old(table), due, turns, reached)
      ensures count.Some? <==>
        && (forall k :: 0 <= k < |due| ==> turns[k].commits)
        && (forall k, m :: 0 <= m <= k < |due| ==> old(table)[due[k]].job !in turns[m].cleared)
      ensures count == if reached == |due| then Some(|due|) else None
      ensures events == [Begin(now, batch, rows)] + Attempts(turns[..reached])
                        + (if count.Some? then [Finish] else [Clear(turns[reached].cleared), Abort])
      ensures Run(settings, System(old(table), Idle), events) == Some(System(table, Idle))
    {
      hide Run, Enabled, Apply, KeepDue, Attempt, Attempts, Reached;
      var taken;
      taken, rows := SelectDue(batch, now);
      due := taken;
      BeginStep(settings, table, now, batch, rows);
      var n;
      n, events := DeliverAll(taken, now, turns, System(table, Idle), [Begin(now, batch, rows)]);
      reached := n;
      CompletesExactly(old(table), due, turns, reached);
      if n < |taken| {
        return None, reached, rows, due, events;
      }
      FinishStep(settings, System(old(table), Idle), events);
      events := events + [Finish];
      count := Some(|taken|);
    }

    // Only dead letters can be retried; the attempts start again at zero.
    method RetryDead(id: Id, now: int) returns (ok: bool)
      requires id in table
      modifies this`table
      ensures ok <==> old(table)[id].status == Dead
      ensures table == if ok then old(table)[id := old(table)[id].(status := Queued, attempts := 0, due := now)]
                       else old(table)
    {
      if !table[id].status.Dead? {
        return false;
      }
      table := table[id := table[id].(status := Queued, attempts := 0, due := now)];
      ok := true;
    }
  }
}
