/** The replay guard of the URL fetcher: a bounded table of used nonces, purged by the clock
    reading of each request, behind a timestamp window. */
module NonceTable {

  const MAX_CLOCK_SKEW := 45.0
  const MAX_NONCES := 1000
  const NONCE_LIFETIME := 100.0

  type Nonce = nat
  type Table = map<Nonce, real>

  // A well-formed, correctly signed request and the clock reading its handler took.
  datatype Request = Request(stamp: int, nonce: Nonce, now: real)

  function Purged(used: Table, now: real): Table {
    map n | n in used && used[n] >= now :: used[n]
  }

  predicate Unused(used: Table, nonce: Nonce, now: real) {
    nonce !in Purged(used, now) && |Purged(used, now)| < MAX_NONCES
  }

  function AfterCheck(used: Table, nonce: Nonce, now: real): Table {
    if Unused(used, nonce, now) then Purged(used, now)[nonce := now + NONCE_LIFETIME] else Purged(used, now)
  }

  class Guard {
    var used: Table

    constructor ()
      ensures used == map[]
    {
      used := map[];
    }

    method CheckNonce(nonce: Nonce, now: real) returns (ok: bool)
      modifies this
      ensures ok <==> Unused(old(used), nonce, now)
      ensures ok <==>
        && (nonce in old(used) ==> old(used)[nonce] < now)
        && |set n | n in old(used) && old(used)[n] >= now| < 1000
      ensures used == AfterCheck(old(used), nonce, now)
      ensures forall n :: n in used <==> (n in old(used) && old(used)[n] >= now) || (ok && n == nonce)
      ensures forall n :: n in used ==> used[n] == if ok && n == nonce then now + 100.0 else old(used)[n]
      ensures |old(used)| <= MAX_NONCES ==> |used| <= MAX_NONCES
    {
      ghost var before := used;
      var rest := used.Keys;
      while rest != {}
        invariant rest <= before.Keys
        invariant used == map n | n in before && (n in rest || before[n] >= now) :: before[n]
        decreases |rest|
      {
        var key :| key in rest;
        rest := rest - {key};
        if used[key] < now {
          used := used - {key};
        }
      }
      assert used == Purged(before, now);
      assert used.Keys == set n | n in before && before[n] >= now;
      PurgedShrinks(before, now);
      if nonce in used || |used| >= MAX_NONCES {
        return false;
      }
      used := used[nonce := now + NONCE_LIFETIME];
      ok := true;
    }

    // The timestamp window, then the nonce.
    method Admit(r: Request) returns (ok: bool)
      modifies this
      ensures ok <==> Admits(old(used), r)
      ensures used == After(old(used), r)
      ensures r.now - r.stamp as real > 45.0 || r.stamp as real - r.now > 45.0 ==> !ok && used == old(used)
    {
      if r.now - r.stamp as real > MAX_CLOCK_SKEW || r.stamp as real - r.now > MAX_CLOCK_SKEW {
        return false;
      }
      ok := CheckNonce(r.nonce, r.now);
    }
  }

  lemma PurgedShrinks(used: Table, now: real)
    ensures |Purged(used, now)| <= |used|
  {
    assert Purged(used, now).Keys <= used.Keys;
    assert used.Keys == Purged(used, now).Keys + (used.Keys - Purged(used, now).Keys);
    assert |used| == |used.Keys| && |Purged(used, now)| == |Purged(used, now).Keys|;
  }

  predicate InWindow(r: Request) {
    -MAX_CLOCK_SKEW <= r.now - r.stamp as real <= MAX_CLOCK_SKEW
  }

  predicate Admits(used: Table, r: Request) {
    InWindow(r) && Unused(used, r.nonce, r.now)
  }

  function After(used: Table, r: Request): Table {
    if InWindow(r) then AfterCheck(used, r.nonce, r.now) else used
  }

  // The table after requests in the order they reached the lock.
  function AfterAll(requests: seq<Request>): Table {
    if requests == [] then map[] else After(AfterAll(requests[..|requests| - 1]), requests[|requests| - 1])
  }

  predicate AcceptedAt(requests: seq<Request>, i: nat)
    requires i < |requests|
  {
    Admits(AfterAll(requests[..i]), requests[i])
  }

  // Of two nonce checks the later one reads the clock at most `bound` seconds behind the earlier one.
  ghost predicate DisorderAtMost(requests: seq<Request>, bound: real) {
    forall i, k :: 0 <= i < k < |requests| && InWindow(requests[i]) && InWindow(requests[k]) ==>
      requests[i].now - requests[k].now <= bound
  }

  lemma {:induction false} TableStaysBounded(requests: seq<Request>)
    ensures |AfterAll(requests)| <= MAX_NONCES
  {
    if requests != [] {
      TableStaysBounded(requests[..|requests| - 1]);
      PurgedShrinks(AfterAll(requests[..|requests| - 1]), requests[|requests| - 1].now);
    }
  }

  // An accepted nonce stays in the table while no check reads a clock past its expiry.
  lemma {:induction false} EntryStays(requests: seq<Request>, i: nat, k: nat)
    requires i < k <= |requests| && AcceptedAt(requests, i)
    requires forall m :: i < m < k && InWindow(requests[m]) ==> requests[m].now <= requests[i].now + NONCE_LIFETIME
    ensures requests[i].nonce in AfterAll(requests[..k])
    ensures AfterAll(requests[..k])[requests[i].nonce] == requests[i].now + NONCE_LIFETIME
    decreases k
  {
    assert requests[..k][..k - 1] == requests[..k - 1];
    if k > i + 1 {
      EntryStays(requests, i, k - 1);
    }
  }

  // Accepted nonces that no clock reading of requests[..i], taken by a check after them, is past.
  ghost function Held(requests: seq<Request>, i: nat): set<nat>
    requires i <= |requests|
  {
    set k: nat | k < i && AcceptedAt(requests, k) && Outlives(requests, k, i)
  }

  ghost predicate Outlives(requests: seq<Request>, k: nat, i: nat)
    requires k < i <= |requests|
  {
    forall m :: k < m < i && InWindow(requests[m]) ==> requests[m].now <= requests[k].now + 100.0
  }

  // Those of them that the reading of request i is not past either.
  ghost function Live(requests: seq<Request>, i: nat): set<nat>
    requires i < |requests|
  {
    set k: nat | k < i && k in Held(requests, i) && requests[i].now <= requests[k].now + 100.0
  }

  // The table holds the nonces of these requests, each once, until 100 seconds after their reading.
  ghost predicate Holds(requests: seq<Request>, ks: set<nat>, used: Table) {
    && (forall k :: k in ks ==>
          && k < |requests| && requests[k].nonce in used && used[requests[k].nonce] == requests[k].now + 100.0)
    && (forall n :: n in used ==> exists k :: k in ks && k < |requests| && requests[k].nonce == n)
    && (forall k, m :: k in ks && m in ks && k < |requests| && m < |requests| && k != m ==>
          requests[k].nonce != requests[m].nonce)
  }

  lemma {:induction false} HoldsSize(requests: seq<Request>, ks: set<nat>, used: Table)
    requires Holds(requests, ks, used)
    ensures |ks| == |used|
    decreases |ks|
  {
    if ks == {} {
      assert used == map[];
    } else {
      var k :| k in ks;
      var n := requests[k].nonce;
      OneLess(requests, ks, used, k);
      HoldsSize(requests, ks - {k}, used - {n});
      hide Holds;
      assert |used.Keys - {n}| == |used.Keys| - 1 && (used - {n}).Keys == used.Keys - {n};
    }
  }

  lemma OneLess(requests: seq<Request>, ks: set<nat>, used: Table, k: nat)
    requires Holds(requests, ks, used) && k in ks
    ensures k < |requests| && requests[k].nonce in used
    ensures Holds(requests, ks - {k}, used - {requests[k].nonce})
  {
    var less := used - {requests[k].nonce};
    forall n | n in less ensures exists m :: m in ks - {k} && m < |requests| && requests[m].nonce == n {
      var m :| m in ks && m < |requests| && requests[m].nonce == n;
      assert m in ks - {k};
    }
  }

  lemma OneMore(requests: seq<Request>, ks: set<nat>, used: Table, k: nat)
    requires Holds(requests, ks, used) && k !in ks && k < |requests| && requests[k].nonce !in used
    ensures Holds(requests, ks + {k}, used[requests[k].nonce := requests[k].now + 100.0])
  {
    var more := used[requests[k].nonce := requests[k].now + 100.0];
    forall n | n in more ensures exists m :: m in ks + {k} && m < |requests| && requests[m].nonce == n {
      if n == requests[k].nonce {
        assert k in ks + {k};
      } else {
        var m :| m in ks && m < |requests| && requests[m].nonce == n;
        assert m in ks + {k};
      }
    }
  }

  lemma {:induction false} TableHolds(requests: seq<Request>, i: nat)
    requires i <= |requests|
    ensures Holds(requests, Held(requests, i), AfterAll(requests[..i]))
  {
    hide Holds, Live, AfterAll, Outlives, AcceptedAt;
    if i == 0 {
      NothingHeld(requests);
    } else {
      hide Held;
      TableHolds(requests, i - 1);
      HeldNext(requests, i - 1);
      AfterOne(requests, i - 1);
      if InWindow(requests[i - 1]) {
        LiveHolds(requests, i - 1);
        AddedHolds(requests, i - 1);
      } else {
        OutsideChangesNothing(requests, i - 1);
      }
    }
  }

  lemma NothingHeld(requests: seq<Request>)
    ensures Holds(requests, Held(requests, 0), AfterAll(requests[..0]))
  {
    assert Held(requests, 0) == {};
  }

  lemma OutsideChangesNothing(requests: seq<Request>, i: nat)
    requires i < |requests| && !InWindow(requests[i])
    ensures !AcceptedAt(requests, i) && forall used :: After(used, requests[i]) == used
    ensures Held(requests, i) + {} == Held(requests, i)
  {
    hide Held;
  }

  lemma AfterOne(requests: seq<Request>, i: nat)
    requires i < |requests|
    ensures AfterAll(requests[..i + 1]) == After(AfterAll(requests[..i]), requests[i])
  {
    assert requests[..i + 1][..i] == requests[..i];
  }

  lemma HeldNext(requests: seq<Request>, i: nat)
    requires i < |requests|
    ensures Held(requests, i + 1)
      == (if InWindow(requests[i]) then Live(requests, i) else Held(requests, i))
         + (if AcceptedAt(requests, i) then {i} else {})
  {
    hide AcceptedAt;
    forall k: nat | k < i
      ensures Outlives(requests, k, i + 1) <==>
        Outlives(requests, k, i) && (InWindow(requests[i]) ==> requests[i].now <= requests[k].now + 100.0)
    {
    }
    assert Outlives(requests, i, i + 1);
  }

  lemma LiveHolds(requests: seq<Request>, i: nat)
    requires i < |requests| && Holds(requests, Held(requests, i), AfterAll(requests[..i]))
    ensures Holds(requests, Live(requests, i), Purged(AfterAll(requests[..i]), requests[i].now))
  {
    hide Held, AfterAll;
    var used := AfterAll(requests[..i]);
    var left := Purged(used, requests[i].now);
    assert forall k :: k in Live(requests, i) ==> k in Held(requests, i);
    forall n | n in left ensures exists k :: k in Live(requests, i) && k < |requests| && requests[k].nonce == n {
      var k :| k in Held(requests, i) && k < |requests| && requests[k].nonce == n;
      HeldBelow(requests, i, k);
      assert k in Live(requests, i);
    }
  }

  lemma HeldBelow(requests: seq<Request>, i: nat, k: nat)
    requires i <= |requests| && k in Held(requests, i)
    ensures k < i
  {
  }

  lemma AddedHolds(requests: seq<Request>, i: nat)
    requires i < |requests| && InWindow(requests[i])
    requires Holds(requests, Live(requests, i), Purged(AfterAll(requests[..i]), requests[i].now))
    ensures Holds(requests, Live(requests, i) + (if AcceptedAt(requests, i) then {i} else {}),
                  After(AfterAll(requests[..i]), requests[i]))
  {
    var live, left := Live(requests, i), Purged(AfterAll(requests[..i]), requests[i].now);
    assert i !in live && live + {} == live;
    hide Live, AfterAll, Purged, Holds;
    if AcceptedAt(requests, i) {
      OneMore(requests, live, left, i);
    }
  }

  // A request is accepted exactly when its timestamp is within 45 seconds of the reading, none of
  // the accepted requests still live carries its nonce, and fewer than 1000 of them are live.
  lemma AcceptedExactly(requests: seq<Request>, i: nat)
    requires i < |requests|
    ensures AcceptedAt(requests, i) <==>
      && -45.0 <= requests[i].now - requests[i].stamp as real <= 45.0
      && (forall k :: k in Live(requests, i) ==> requests[k].nonce != requests[i].nonce)
      && |Live(requests, i)| < 1000
  {
    TableHolds(requests, i);
    LiveHolds(requests, i);
    HoldsSize(requests, Live(requests, i), Purged(AfterAll(requests[..i]), requests[i].now));
    hide Live, AfterAll, Purged, Held;
  }

  // With clock readings out of order by at most 10 seconds the same
  // timestamp and nonce are accepted at most once in any run.
  lemma AcceptedAtMostOnce(requests: seq<Request>, i: nat, k: nat)
    requires DisorderAtMost(requests, 10.0)
    requires i < k < |requests| && requests[i].stamp == requests[k].stamp && requests[i].nonce == requests[k].nonce
    ensures !(AcceptedAt(requests, i) && AcceptedAt(requests, k))
  {
    if AcceptedAt(requests, i) && InWindow(requests[k]) {
      EntryStays(requests, i, k);
    }
  }

  // The first and the last request carry this timestamp and nonce and both are accepted.
  ghost predicate Replayed(requests: seq<Request>, stamp: int, nonce: Nonce) {
    && |requests| >= 2
    && requests[0].stamp == requests[|requests| - 1].stamp == stamp
    && requests[0].nonce == requests[|requests| - 1].nonce == nonce
    && AcceptedAt(requests, 0) && AcceptedAt(requests, |requests| - 1)
  }

  // The bound is exact: any larger disorder lets a replay through, after a request with a later
  // reading has purged the entry.
  lemma MoreDisorderAllowsReplay(bound: real, stamp: int, nonce: Nonce, other: Nonce)
    requires bound > 10.0 && nonce != other
    ensures exists requests: seq<Request> :: Replayed(requests, stamp, nonce) && DisorderAtMost(requests, bound)
  {
    var s := stamp as real;
    var first := Request(stamp, nonce, s - MAX_CLOCK_SKEW);
    var late := s + MAX_CLOCK_SKEW + bound;
    var between := Request(late.Floor, other, late);
    var replay := Request(stamp, nonce, s + MAX_CLOCK_SKEW);
    var run := [first, between, replay];
    assert run[..0] == [] && run[..1] == [first] && run[..2] == [first, between];
    assert [first][..0] == [] && [first, between][..1] == [first];
    var t1 := AfterAll([first]);
    assert AfterAll([]) == map[] && Purged(map[], first.now) == map[];
    assert t1 == map[nonce := s + 55.0];
    assert Purged(t1, late) == map[];
    assert AfterAll([first, between]) == map[other := late + NONCE_LIFETIME];
    assert Purged(map[other := late + NONCE_LIFETIME], replay.now) == map[other := late + NONCE_LIFETIME];
    assert AcceptedAt(run, 0) && AcceptedAt(run, 2);
    assert Replayed(run, stamp, nonce);
  }
}
