/** The manifest checker against the worker that publishes: in every reachable state a completed
    job's manifest is served exactly when its root and an unbroken run of its first parts remain. */
module ManifestTheorems {
  import opened Options
  import opened Rows
  import opened Protocol
  import opened ProtocolInvariant
  import ProtocolTheorems
  import opened Manifest

  // The finished job with a token and its attempt.
  ghost predicate Finished(s: State, j: JobId, t: Token) {
    && j in s.db.jobs && s.db.jobs[j].status.Completed? && s.db.jobs[j].output.Some?
    && s.db.jobs[j].token == Some(t) && t in s.workers && s.workers[t].job == j
  }

  // The slots of the attempt whose file is still there.
  function Remaining(s: State, j: JobId, t: Token): set<nat>
    requires t in s.workers
  {
    set k: nat | k <= s.workers[t].parts && Name(j, t, k) in s.db.files
  }

  function SlotLink(s: State, j: JobId, t: Token, k: nat): Link
    requires t in s.workers && Name(j, t, k) in s.db.files
  {
    LinkFor(Name(j, t, k), s.db.files[Name(j, t, k)], s.workers[t].bundle)
  }

  // A link of the job is the link of a slot of its only attempt.
  lemma LinkIsSlot(s: State, j: JobId, t: Token, l: Link)
    requires Inv(s) && Finished(s, j, t) && l in LinksOf(s.db, j)
    ensures l.file in s.named
    ensures var nm := s.named[l.file];
            nm == Name(j, t, nm.slot) && nm.slot in Remaining(s, j, t) && l == SlotLink(s, j, t, nm.slot)
  {
    var nm := s.named[l.file];
    assert nm in s.db.files && l == LinkFor(nm, s.db.files[nm], s.workers[nm.token].bundle);
    hide WorkersOk, ObjectsOk, EndsOk, LinksOk, JobsOk;
    assert nm in s.db.journal;
    ProtocolTheorems.RowAt(s, nm);
    hide RowsOk;
    assert s.workers[nm.token].job == j;
  }

  lemma SlotHasLink(s: State, j: JobId, t: Token, k: nat)
    requires Inv(s) && Finished(s, j, t) && k in Remaining(s, j, t)
    ensures SlotLink(s, j, t, k) in LinksOf(s.db, j)
    ensures SlotLink(s, j, t, k).file in s.db.files.Values
    ensures SlotLink(s, j, t, k).file in s.named && s.named[SlotLink(s, j, t, k).file] == Name(j, t, k)
  {
    var nm := Name(j, t, k);
    hide WorkersOk, ObjectsOk, EndsOk, JobsOk, RowsOk, ClaimsOk;
    assert s.db.files[nm] in s.db.files.Values;
    ProtocolTheorems.RowAt(s, nm);
  }

  // The links of the job, one for each remaining slot.
  lemma LinksAreSlots(s: State, j: JobId, t: Token)
    requires Inv(s) && Finished(s, j, t)
    ensures LinksOf(s.db, j) == set k | k in Remaining(s, j, t) :: SlotLink(s, j, t, k)
    ensures forall l :: l in LinksOf(s.db, j) ==> l.file in s.db.files.Values
  {
    hide Inv, LinksOf, SlotLink;
    forall l | l in LinksOf(s.db, j) ensures exists k :: k in Remaining(s, j, t) && l == SlotLink(s, j, t, k) {
      LinkIsSlot(s, j, t, l);
    }
    forall k | k in Remaining(s, j, t)
      ensures SlotLink(s, j, t, k) in LinksOf(s.db, j) && SlotLink(s, j, t, k).file in s.db.files.Values
    {
      SlotHasLink(s, j, t, k);
    }
  }

  // The remaining parts are the first ones.
  ghost predicate Unbroken(s: State, j: JobId, t: Token)
    requires t in s.workers
  {
    forall k: nat :: k + 1 in Remaining(s, j, t) ==> k in Remaining(s, j, t)
  }

  function Below(n: nat): (r: set<nat>)
    ensures forall k: nat :: k in r <==> k < n
    ensures |r| == n
  {
    if n == 0 then {} else Below(n - 1) + {n - 1}
  }

  // A set of numbers that reaches down to 0 from each of its members is an initial segment.
  lemma {:induction false} InitialSegment(slots: set<nat>)
    requires 0 in slots && forall k: nat :: k + 1 in slots ==> k in slots
    ensures slots == Below(|slots|)
  {
    LongestSegment(slots, 0);
  }

  lemma {:induction false} LongestSegment(slots: set<nat>, n: nat)
    requires Below(n) <= slots && forall k: nat :: k + 1 in slots ==> k in slots
    ensures slots == Below(|slots|)
    decreases |slots - Below(n)|
  {
    if slots != Below(n) {
      var m :| m in slots && m !in Below(n);
      ReachesDown(slots, m, n);
      StrictSubset(slots - Below(n + 1), slots - Below(n));
      LongestSegment(slots, n + 1);
    }
  }

  lemma StrictSubset(a: set<nat>, b: set<nat>)
    requires a <= b && exists k :: k in b && k !in a
    ensures |a| < |b|
  {
    var k :| k in b && k !in a;
    assert b == a + {k} + (b - a - {k});
  }

  lemma {:induction false} ReachesDown(slots: set<nat>, m: nat, n: nat)
    requires m in slots && n <= m && forall k: nat :: k + 1 in slots ==> k in slots
    ensures n in slots
    decreases m
  {
    if n < m {
      assert m - 1 + 1 in slots;
      ReachesDown(slots, m - 1, n);
    }
  }

  function Image(s: State, j: JobId, t: Token, slots: set<nat>): set<Link>
    requires t in s.workers && slots <= Remaining(s, j, t)
  {
    set k | k in slots :: SlotLink(s, j, t, k)
  }

  // Different slots have different links.
  lemma {:induction false} ImageSize(s: State, j: JobId, t: Token, slots: set<nat>)
    requires t in s.workers && slots <= Remaining(s, j, t)
    ensures |Image(s, j, t, slots)| == |slots|
    decreases |slots|
  {
    if slots != {} {
      var k :| k in slots;
      ImageSize(s, j, t, slots - {k});
      assert Image(s, j, t, slots) == Image(s, j, t, slots - {k}) + {SlotLink(s, j, t, k)};
      forall i | i in slots - {k} ensures SlotLink(s, j, t, i) != SlotLink(s, j, t, k) {
        assert OrdinalOf(i) != OrdinalOf(k);
      }
    }
  }

  // The links split into the root's and the parts'.
  lemma SplitLinks(s: State, j: JobId, t: Token)
    requires Inv(s) && Finished(s, j, t)
    ensures var r := Remaining(s, j, t);
      && LinksOf(s.db, j) == Image(s, j, t, r)
      && Parts(LinksOf(s.db, j)) == Image(s, j, t, r - {0})
      && Roots(LinksOf(s.db, j)) == (if 0 in r then {SlotLink(s, j, t, 0)} else {})
  {
    hide Inv, LinksOf, Remaining;
    LinksAreSlots(s, j, t);
  }

  lemma PartOrdinals(s: State, j: JobId, t: Token)
    requires t in s.workers
    ensures Ordinals(Image(s, j, t, Remaining(s, j, t) - {0})) == set k | k in Remaining(s, j, t) - {0} :: Some(k)
  {
    var r := Remaining(s, j, t) - {0};
    hide Remaining;
    forall k | k in r ensures Some(k) in Ordinals(Image(s, j, t, r)) {
      assert SlotLink(s, j, t, k) in Image(s, j, t, r);
    }
  }

  // The numbers 1..n are all parts left exactly when the run is unbroken.
  lemma UnbrokenIsRange(slots: set<nat>)
    requires 0 in slots
    ensures (set k | k in slots - {0} :: Some(k)) == Range(|slots| - 1) <==>
              forall k: nat :: k + 1 in slots ==> k in slots
  {
    var somes := set k | k in slots - {0} :: Some(k);
    if somes == Range(|slots| - 1) {
      forall k: nat | k + 1 in slots ensures k in slots {
        if k > 0 {
          assert Some(k + 1) in somes && Some(k) in Range(|slots| - 1);
        }
      }
    }
    if forall k: nat :: k + 1 in slots ==> k in slots {
      InitialSegment(slots);
      forall o ensures o in somes <==> o in Range(|slots| - 1) {
      }
    }
  }

  lemma RootIsOutput(s: State, j: JobId, t: Token)
    requires Reachable(s) && Finished(s, j, t)
    ensures 0 in Remaining(s, j, t) ==> Some(s.db.files[Name(j, t, 0)]) == s.db.jobs[j].output
    ensures 0 !in Remaining(s, j, t) ==> s.db.jobs[j].output.value !in s.db.files.Values
    ensures s.db.jobs[j].output.value in s.named && s.named[s.db.jobs[j].output.value] == Name(j, t, 0)
  {
    ReachableInv(s);
    ProtocolTheorems.OutputIsRoot(s, j);
    var root, output := Name(j, t, 0), s.db.jobs[j].output.value;
    ProtocolTheorems.RowAt(s, root);
    hide JobsOk, WorkersOk, RowsOk, ObjectsOk, LinksOk, EndsOk, ClaimsOk;
    forall nm | nm in s.db.files && s.db.files[nm] == output ensures nm == root {
      assert s.db.journal[nm].file == Some(output);
      ProtocolTheorems.RowAt(s, nm);
    }
  }

  lemma ShapeOf(s: State, t: Token)
    requires Inv(s) && t in s.workers
    ensures s.workers[t].parts <= MAX_PARTS && (s.workers[t].parts > 0 ==> s.workers[t].bundle)
  {
    WorkerAt(s, t);
    hide Inv;
  }

  lemma SmallSet(slots: set<nat>, n: nat)
    requires forall k :: k in slots ==> k < n
    ensures |slots| <= n
  {
    var all := Below(n);
    assert all == slots + (all - slots);
  }

  lemma FewSlots(s: State, j: JobId, t: Token)
    requires Inv(s) && Finished(s, j, t)
    ensures |Remaining(s, j, t)| <= MAX_JOB_ARTIFACTS
    ensures !s.workers[t].bundle ==> Remaining(s, j, t) <= {0}
  {
    hide Inv;
    ShapeOf(s, t);
    SmallSet(Remaining(s, j, t), s.workers[t].parts + 1);
  }

  lemma UnbrokenMeans(s: State, j: JobId, t: Token)
    requires t in s.workers
    ensures Unbroken(s, j, t) <==> forall k: nat :: k + 1 in Remaining(s, j, t) ==> k in Remaining(s, j, t)
  {
    hide Remaining;
  }

  // A bundle's root is stored as an archive.
  predicate RootFits(s: State, rs: Records, j: JobId, t: Token)
    requires Finished(s, j, t)
  {
    s.workers[t].bundle ==> rs.isZip(s.db.jobs[j].output.value)
  }

  // The remaining files belong to the service that requested the job.
  ghost predicate Owned(s: State, rs: Records, j: JobId, t: Token)
    requires t in s.workers
  {
    forall k: nat :: k in Remaining(s, j, t) ==> rs.sourceSystem(s.db.files[Name(j, t, k)]) == rs.requestedBy(j)
  }

  // What the worker writes into the records it creates.
  ghost predicate AsCreated(s: State, rs: Records) {
    forall f :: f in s.named ==>
      && rs.sourceSystem(f) == rs.requestedBy(s.named[f].job)
      && (s.named[f].slot == 0 && s.named[f].token in s.workers && s.workers[s.named[f].token].bundle ==> rs.isZip(f))
  }

  lemma AvailableExactly(s: State, rs: Records, j: JobId, t: Token)
    requires Inv(s) && Finished(s, j, t)
    ensures (forall l :: l in LinksOf(s.db, j) ==> Available(s.db, rs, j, l.file)) <==> Owned(s, rs, j, t)
  {
    hide Inv, LinksOf;
    LinksAreSlots(s, j, t);
    forall k: nat | k in Remaining(s, j, t) ensures SlotLink(s, j, t, k) in LinksOf(s.db, j) {
      SlotHasLink(s, j, t, k);
    }
  }

  // What the checker sees when the root is still there.
  lemma RootedConsistency(s: State, rs: Records, j: JobId, t: Token)
    requires Reachable(s) && Finished(s, j, t) && 0 in Remaining(s, j, t)
    ensures Consistent(rs, LinksOf(s.db, j), s.db.jobs[j].output.value) <==> Unbroken(s, j, t) && RootFits(s, rs, j, t)
  {
    hide Inv, Reachable, LinksOf, Remaining, Ordinals, Range, Unbroken;
    ReachableInv(s);
    SplitLinks(s, j, t);
    FewSlots(s, j, t);
    RootIsOutput(s, j, t);
    var r := Remaining(s, j, t);
    ImageSize(s, j, t, r);
    ImageSize(s, j, t, r - {0});
    PartOrdinals(s, j, t);
    UnbrokenIsRange(r);
    UnbrokenMeans(s, j, t);
    assert !s.workers[t].bundle ==> r == {0};
  }

  // In every reachable state the manifest of a completed job is served exactly when the caller
  // requested it, its root and an unbroken run of its first parts remain, all of them belong to the
  // caller and a bundle's root is an archive; removed files can only make it refuse.
  lemma ServedExactly(s: State, rs: Records, caller: Party, j: JobId, t: Token)
    requires Reachable(s) && Finished(s, j, t)
    ensures ReplyKind(s.db, rs, caller, j).Listing? <==>
            && caller == rs.requestedBy(j) && 0 in Remaining(s, j, t) && Unbroken(s, j, t)
            && Owned(s, rs, j, t) && RootFits(s, rs, j, t)
  {
    hide Inv, Reachable, LinksOf, Remaining, Consistent, Available, Owned, RootFits;
    ReachableInv(s);
    SplitLinks(s, j, t);
    FewSlots(s, j, t);
    RootIsOutput(s, j, t);
    AvailableExactly(s, rs, j, t);
    var r, links := Remaining(s, j, t), LinksOf(s.db, j);
    ImageSize(s, j, t, r);
    if 0 in r {
      RootedConsistency(s, rs, j, t);
      RootLinked(s, j, t);
    } else {
      NoneIsOutput(s, j, t);
      GoneIsUnavailable(s, rs, j);
    }
  }

  lemma RootLinked(s: State, j: JobId, t: Token)
    requires Inv(s) && Finished(s, j, t) && 0 in Remaining(s, j, t)
    requires Some(s.db.files[Name(j, t, 0)]) == s.db.jobs[j].output
    ensures exists l :: l in LinksOf(s.db, j) && l.file == s.db.jobs[j].output.value
  {
    SlotHasLink(s, j, t, 0);
    hide Inv, LinksOf;
  }

  lemma GoneIsUnavailable(s: State, rs: Records, j: JobId)
    requires j in s.db.jobs && s.db.jobs[j].output.Some? && s.db.jobs[j].output.value !in s.db.files.Values
    ensures !Available(s.db, rs, j, s.db.jobs[j].output.value)
  {
  }

  lemma NoneIsOutput(s: State, j: JobId, t: Token)
    requires Inv(s) && Finished(s, j, t) && 0 !in Remaining(s, j, t)
    requires s.db.jobs[j].output.value in s.named && s.named[s.db.jobs[j].output.value] == Name(j, t, 0)
    ensures forall l :: l in LinksOf(s.db, j) ==> l.file != s.db.jobs[j].output.value
  {
    forall l | l in LinksOf(s.db, j) ensures l.file != s.db.jobs[j].output.value {
      LinkIsSlot(s, j, t, l);
    }
  }

  lemma CreatedIsOwned(s: State, rs: Records, j: JobId, t: Token)
    requires Reachable(s) && Finished(s, j, t) && AsCreated(s, rs)
    ensures Owned(s, rs, j, t) && RootFits(s, rs, j, t)
  {
    hide Inv, Reachable;
    ReachableInv(s);
    RootIsOutput(s, j, t);
    forall k: nat | k in Remaining(s, j, t)
      ensures s.db.files[Name(j, t, k)] in s.named && s.named[s.db.files[Name(j, t, k)]] == Name(j, t, k)
    {
      SlotHasLink(s, j, t, k);
    }
  }

  // A completed job whose files are untouched is always listed for its requester: the root first, then parts 1..n,
  // each the file the publishing transaction recorded for its slot.
  lemma UntouchedIsServed(s: State, rs: Records, j: JobId, t: Token, artifacts: seq<Artifact>)
    requires Reachable(s) && Finished(s, j, t) && AsCreated(s, rs)
    requires forall k: nat :: k <= s.workers[t].parts ==> Name(j, t, k) in s.db.files
    ensures ReplyKind(s.db, rs, rs.requestedBy(j), j).Listing?
    ensures InOrder(LinksOf(s.db, j), s.db.jobs[j].output.value, artifacts) ==>
      && |artifacts| == s.workers[t].parts + 1
      && (forall k: nat :: k < |artifacts| ==>
            artifacts[k] == Artifact(s.db.files[Name(j, t, k)], RoleOf(s.workers[t].bundle, k), OrdinalOf(k)))
  {
    hide Inv, Reachable, LinksOf, ReplyKind, InOrder, Owned, RootFits, AsCreated;
    ReachableInv(s);
    CreatedIsOwned(s, rs, j, t);
    ServedExactly(s, rs, rs.requestedBy(j), j, t);
    UnbrokenMeans(s, j, t);
    if InOrder(LinksOf(s.db, j), s.db.jobs[j].output.value, artifacts) {
      ListedLength(s, j, t, artifacts);
      forall k: nat | k < |artifacts|
        ensures artifacts[k] == Artifact(s.db.files[Name(j, t, k)], RoleOf(s.workers[t].bundle, k), OrdinalOf(k))
      {
        ListedSlot(s, j, t, artifacts, k);
      }
    }
  }

  lemma ListedLength(s: State, j: JobId, t: Token, artifacts: seq<Artifact>)
    requires Inv(s) && Finished(s, j, t) && InOrder(LinksOf(s.db, j), s.db.jobs[j].output.value, artifacts)
    requires forall k: nat :: k <= s.workers[t].parts ==> Name(j, t, k) in s.db.files
    ensures |artifacts| == s.workers[t].parts + 1
  {
    hide Inv, LinksOf;
    SplitLinks(s, j, t);
    assert Remaining(s, j, t) == Below(s.workers[t].parts + 1);
    ImageSize(s, j, t, Remaining(s, j, t));
  }

  lemma ListedSlot(s: State, j: JobId, t: Token, artifacts: seq<Artifact>, k: nat)
    requires Inv(s) && Finished(s, j, t) && k < |artifacts| && Name(j, t, k) in s.db.files
    requires InOrder(LinksOf(s.db, j), s.db.jobs[j].output.value, artifacts)
    ensures artifacts[k] == Artifact(s.db.files[Name(j, t, k)], RoleOf(s.workers[t].bundle, k), OrdinalOf(k))
  {
    hide Inv, LinksOf;
    var l :| l in LinksOf(s.db, j) && l.role.Part? == (k > 0) && artifacts[k] == Artifact(l.file, l.role, OrdinalOf(k))
             && l.ordinal == OrdinalOf(k);
    LinkIsSlot(s, j, t, l);
    assert OrdinalOf(s.named[l.file].slot) == OrdinalOf(k);
  }
}
