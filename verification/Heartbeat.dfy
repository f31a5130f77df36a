/** The heartbeat thread of an attempt: it renews the lease every interval until it is stopped
    or the row no longer matches, and it survives beats that raise. */
module Heartbeat {
  import opened Options
  import opened Rows
  import S = Statements
  import opened Protocol
  import opened WriteJournal

  // One beat as the database saw it: the connection raised, or the update was executed.
  datatype Beat = Raised | Reached(net: Net)

  // The lease an attempt renews.
  datatype Lease = Lease(job: JobId, token: Token, epoch: nat, ttl: nat, interval: nat)

  predicate ValidTtl(ttl: nat) {
    61 <= ttl <= 3600
  }

  predicate Denied(db: Db, l: Lease, now: int, beat: Beat) {
    ValidTtl(l.ttl) && beat.Reached? && S.Renew(db, l.job, l.token, l.epoch, now, l.ttl).None?
  }

  predicate Renews(db: Db, l: Lease, now: int, beat: Beat) {
    && ValidTtl(l.ttl) && beat.Reached? && !beat.net.Refused?
    && S.Renew(db, l.job, l.token, l.epoch, now, l.ttl).Some?
  }

  datatype Run = Run(db: Db, lost: bool)

  // The rows after a number of beats at start + interval, start + 2 * interval, ...
  function AfterBeats(db: Db, l: Lease, start: int, beats: seq<Beat>): Run {
    if beats == [] then Run(db, false)
    else
      var n := |beats|;
      var r := AfterBeats(db, l, start, beats[..n - 1]);
      var now := start + n * l.interval;
      if r.lost then r
      else if Denied(r.db, l, now, beats[n - 1]) then Run(r.db, true)
      else if Renews(r.db, l, now, beats[n - 1])
      then Run(S.Renew(r.db, l.job, l.token, l.epoch, now, l.ttl).value, false)
      else r
  }

  class WorkerHeartbeat {
    const session: Session
    const lease: Lease
    var started: bool
    var stopped: bool
    var lost: bool

    // The constructor refuses an interval that three beats would not fit into one lease.
    static method Create(session: Session, lease: Lease) returns (h: Option<WorkerHeartbeat>)
      ensures h.Some? <==> lease.interval >= 5 && lease.interval * 3 < lease.ttl
      ensures h.Some? ==> fresh(h.value) && h.value.session == session && h.value.lease == lease
                          && !h.value.started && !h.value.stopped && !h.value.lost
    {
      if lease.interval < 5 || lease.interval * 3 >= lease.ttl {
        return None;
      }
      var created := new WorkerHeartbeat(session, lease);
      h := Some(created);
    }

    constructor (session: Session, lease: Lease)
      ensures this.session == session && this.lease == lease && !started && !stopped && !lost
    {
      this.session, this.lease, started, stopped, lost := session, lease, false, false, false;
    }

    method Start() returns (ok: bool)
      modifies this`started
      ensures ok == !old(started) && started
    {
      ok := !started;
      started := true;
    }

    method Stop()
      modifies this`stopped
      ensures stopped
    {
      stopped := true;
    }

    method BeatOnce(now: int, net: Net) returns (r: Result<bool>)
      requires session.working == session.committed
      modifies session
      ensures session.working == session.committed
      ensures r == Ok(false) <==> Denied(old(session.committed), lease, now, Reached(net))
      ensures session.committed == if Renews(old(session.committed), lease, now, Reached(net))
                                   then S.Renew(old(session.committed), lease.job, lease.token, lease.epoch, now,
                                                lease.ttl).value
                                   else old(session.committed)
    {
      r := session.RenewExecutionLease(lease.job, lease.token, lease.epoch, lease.ttl, now, net);
    }

    // The loop of the thread until the stop event, which comes after the last of `beats`.
    // Any exception of a beat is swallowed; a denied renewal ends the loop.
    method Loop(start: int, beats: seq<Beat>)
      requires session.working == session.committed && !lost
      modifies this`lost, session
      ensures session.working == session.committed
      ensures Run(session.committed, lost) == AfterBeats(old(session.committed), lease, start, beats)
    {
      ghost var db := session.committed;
      for i := 0 to |beats|
        invariant session.working == session.committed && !lost
        invariant Run(session.committed, false) == AfterBeats(db, lease, start, beats[..i])
      {
        assert beats[..i + 1][..i] == beats[..i];
        if beats[i].Reached? {
          var renewed := BeatOnce(start + (i + 1) * lease.interval, beats[i].net);
          if renewed == Ok(false) {
            lost := true;
            LostStays(db, lease, start, beats, i + 1);
            return;
          }
        }
      }
      assert beats[..|beats|] == beats;
    }
  }

  lemma {:induction false} LostStays(db: Db, l: Lease, start: int, beats: seq<Beat>, i: nat)
    requires i <= |beats| && AfterBeats(db, l, start, beats[..i]).lost
    ensures AfterBeats(db, l, start, beats) == AfterBeats(db, l, start, beats[..i])
  {
    if i == |beats| {
      assert beats[..i] == beats;
    } else {
      assert beats[..|beats| - 1][..i] == beats[..i];
      LostStays(db, l, start, beats[..|beats| - 1], i);
    }
  }

  // The beat did not move the deadline.
  predicate Missed(beat: Beat) {
    beat.Raised? || beat.net.Refused?
  }

  function MissedLast(beats: seq<Beat>): (m: nat)
    ensures m <= |beats|
    ensures forall k :: |beats| - m <= k < |beats| ==> Missed(beats[k])
    ensures m < |beats| ==> !Missed(beats[|beats| - m - 1])
  {
    if beats == [] || !Missed(beats[|beats| - 1]) then 0 else 1 + MissedLast(beats[..|beats| - 1])
  }

  // Claimed at `start`: the row runs under this lease and expires one TTL later.
  predicate Leased(db: Db, l: Lease, start: int) {
    && ValidTtl(l.ttl) && l.interval > 0
    && l.job in db.jobs && db.jobs[l.job].status.Running? && db.jobs[l.job].token == Some(l.token)
    && db.jobs[l.job].epoch == l.epoch && db.jobs[l.job].expires == Some(start + l.ttl)
  }

  // The lease is live at every beat time, before the beat is executed.
  ghost predicate NeverLapses(db: Db, l: Lease, start: int, beats: seq<Beat>) {
    forall i :: 0 <= i < |beats| ==>
      S.Fenced(AfterBeats(db, l, start, beats[..i]).db, l.job, l.token, start + (i + 1) * l.interval)
  }

  predicate AllMissed(beats: seq<Beat>, a: nat, b: nat)
    requires a <= b <= |beats|
  {
    forall k :: a <= k < b ==> Missed(beats[k])
  }

  // Every run of missed beats, with the beat after it, fits into one lease.
  ghost predicate RunsFit(l: Lease, beats: seq<Beat>) {
    forall a, b :: 0 <= a <= b < |beats| && AllMissed(beats, a, b) ==> (b - a + 1) * l.interval < l.ttl
  }

  lemma {:induction false} DeadlineAfter(db: Db, l: Lease, start: int, beats: seq<Beat>)
    requires Leased(db, l, start) && NeverLapses(db, l, start, beats)
    ensures var r := AfterBeats(db, l, start, beats);
      && !r.lost && l.job in r.db.jobs
      && r.db.jobs[l.job]
        == db.jobs[l.job].(expires := Some(start + (|beats| - MissedLast(beats)) * l.interval + l.ttl))
  {
    if beats != [] {
      var n := |beats|;
      var init := beats[..n - 1];
      forall i | 0 <= i < n - 1 ensures init[..i] == beats[..i] {
      }
      DeadlineAfter(db, l, start, init);
    }
  }

  lemma {:induction false} LiveAt(db: Db, l: Lease, start: int, beats: seq<Beat>, i: nat)
    requires Leased(db, l, start) && i < |beats| && NeverLapses(db, l, start, beats[..i])
    ensures S.Fenced(AfterBeats(db, l, start, beats[..i]).db, l.job, l.token, start + (i + 1) * l.interval)
            <==> (MissedLast(beats[..i]) + 1) * l.interval < l.ttl
  {
    DeadlineAfter(db, l, start, beats[..i]);
    var m := MissedLast(beats[..i]);
    assert (i - m) * l.interval + (m + 1) * l.interval == (i + 1) * l.interval;
  }

  lemma MissedLastIsLongest(beats: seq<Beat>, i: nat, a: nat)
    requires a <= i < |beats| && AllMissed(beats, a, i)
    ensures i - a <= MissedLast(beats[..i])
  {
    var m := MissedLast(beats[..i]);
    if m < i {
      assert !Missed(beats[i - m - 1]) by {
        assert beats[..i][i - m - 1] == beats[i - m - 1];
      }
    }
  }

  // Evenly spaced beats keep the lease alive exactly when every run of missed beats fits into it.
  lemma NeverLapsesExactly(db: Db, l: Lease, start: int, beats: seq<Beat>)
    requires Leased(db, l, start)
    ensures NeverLapses(db, l, start, beats) <==> RunsFit(l, beats)
  {
    hide Leased, AfterBeats;
    if NeverLapses(db, l, start, beats) {
      forall a, b | 0 <= a <= b < |beats| && AllMissed(beats, a, b) ensures (b - a + 1) * l.interval < l.ttl {
        LiveRunFits(db, l, start, beats, a, b);
      }
    }
    if RunsFit(l, beats) {
      FittingRunsNeverLapse(db, l, start, beats, |beats|);
      assert beats[..|beats|] == beats;
    }
  }

  lemma LiveRunFits(db: Db, l: Lease, start: int, beats: seq<Beat>, a: nat, b: nat)
    requires Leased(db, l, start) && NeverLapses(db, l, start, beats) && a <= b < |beats| && AllMissed(beats, a, b)
    ensures (b - a + 1) * l.interval < l.ttl
  {
    hide Leased, AfterBeats, Missed, MissedLast;
    assert NeverLapses(db, l, start, beats[..b]) by {
      forall i | 0 <= i < b ensures beats[..b][..i] == beats[..i] {
      }
    }
    LiveAt(db, l, start, beats, b);
    MissedLastIsLongest(beats, b, a);
    TimesMonotone(b - a + 1, MissedLast(beats[..b]) + 1, l.interval);
  }

  lemma TimesMonotone(x: int, y: int, n: nat)
    requires x <= y
    ensures x * n <= y * n
  {
  }

  lemma {:induction false} FittingRunsNeverLapse(db: Db, l: Lease, start: int, beats: seq<Beat>, n: nat)
    requires Leased(db, l, start) && RunsFit(l, beats) && n <= |beats|
    ensures NeverLapses(db, l, start, beats[..n])
  {
    if n > 0 {
      FittingRunsNeverLapse(db, l, start, beats, n - 1);
      forall i | 0 <= i < n
        ensures S.Fenced(AfterBeats(db, l, start, beats[..n][..i]).db, l.job, l.token, start + (i + 1) * l.interval)
      {
        assert beats[..n][..i] == beats[..i];
        if i < n - 1 {
          assert beats[..n - 1][..i] == beats[..i];
        } else {
          var m := MissedLast(beats[..i]);
          assert forall k :: i - m <= k < i ==> beats[k] == beats[..i][k];
          assert AllMissed(beats, i - m, i);
          LiveAt(db, l, start, beats, i);
        }
      }
    }
  }

  // Under the constructor's constraint two consecutive misses never cost the lease.
  lemma TwoMissesAreHarmless(db: Db, l: Lease, start: int, beats: seq<Beat>)
    requires Leased(db, l, start) && 3 * l.interval < l.ttl
    requires forall a, b :: 0 <= a && b == a + 3 && b <= |beats| ==> !AllMissed(beats, a, b)
    ensures NeverLapses(db, l, start, beats) && !AfterBeats(db, l, start, beats).lost
  {
    forall a, b | 0 <= a <= b < |beats| && AllMissed(beats, a, b) ensures (b - a + 1) * l.interval < l.ttl {
      if b - a >= 3 {
        assert AllMissed(beats, a, a + 3);
      }
      assert (b - a + 1) * l.interval <= 3 * l.interval;
    }
    NeverLapsesExactly(db, l, start, beats);
    DeadlineAfter(db, l, start, beats);
  }

  // A claim is where a lease begins: the row it leaves runs under the token and the next epoch, and
  // expires one TTL after the reading of the clock.
  lemma ClaimedIsLeased(db: Db, l: Lease, now: int)
    requires ValidTtl(l.ttl) && l.interval > 0 && S.Claim(db, l.job, l.token, now, l.ttl).Some?
    requires l.epoch == db.jobs[l.job].epoch + 1
    ensures var db1 := S.Claim(db, l.job, l.token, now, l.ttl).value;
      && Leased(db1, l, now)
      && (forall at :: S.Fenced(db1, l.job, l.token, at) <==> at < now + l.ttl)
  {
  }

  // From its claim on, an attempt that never misses three beats in a row holds its lease at every
  // beat.
  lemma ClaimSurvivesTwoMisses(db: Db, l: Lease, now: int, beats: seq<Beat>)
    requires ValidTtl(l.ttl) && l.interval > 0 && S.Claim(db, l.job, l.token, now, l.ttl).Some?
    requires l.epoch == db.jobs[l.job].epoch + 1 && 3 * l.interval < l.ttl
    requires forall a, b :: 0 <= a && b == a + 3 && b <= |beats| ==> !AllMissed(beats, a, b)
    ensures var db1 := S.Claim(db, l.job, l.token, now, l.ttl).value;
      NeverLapses(db1, l, now, beats) && !AfterBeats(db1, l, now, beats).lost
  {
    hide NeverLapses, AfterBeats, Leased;
    ClaimedIsLeased(db, l, now);
    TwoMissesAreHarmless(S.Claim(db, l.job, l.token, now, l.ttl).value, l, now, beats);
  }

  // The constraint does not buy a third miss: at the edge of what the constructor accepts,
  // three misses let the lease lapse and the next beat finds it lost.
  lemma ThirdMissCanLoseTheLease(db: Db, l: Lease, start: int, net: Net)
    requires Leased(db, l, start) && 3 * l.interval < l.ttl <= 4 * l.interval
    ensures AfterBeats(db, l, start, [Raised, Raised, Raised, Reached(net)]).lost
  {
    var beats := [Raised, Raised, Raised, Reached(net)];
    assert beats[..3] == [Raised, Raised, Raised];
    AllRaised(db, l, start, beats[..3]);
    assert !Denied(db, l, start, Raised);
    assert start + 4 * l.interval >= start + l.ttl;
  }

  lemma {:induction false} AllRaised(db: Db, l: Lease, start: int, beats: seq<Beat>)
    requires forall k :: 0 <= k < |beats| ==> beats[k].Raised?
    ensures AfterBeats(db, l, start, beats) == Run(db, false)
  {
    if beats != [] {
      AllRaised(db, l, start, beats[..|beats| - 1]);
    }
  }
}
