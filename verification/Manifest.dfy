/** The manifest of a job's outputs: the checker over the stored links, and what it answers about
    the outputs the protocol publishes. */
module Manifest {
  import opened Options
  import opened Rows

  const MAX_JOB_ARTIFACTS := 201

  datatype Artifact = Artifact(file: FileId, role: Role, ordinal: Option<nat>)

  datatype Reply = Listing(primary: FileId, artifacts: seq<Artifact>)
                 | NotFound | Forbidden | NotCompleted | Unavailable | TooMany | Inconsistent

  type Party = nat

  // Who requested each job, and of each file record the service it belongs to and whether its
  // content type is application/zip.
  datatype Records = Records(requestedBy: JobId -> Party, sourceSystem: FileId -> Party, isZip: FileId -> bool)

  function LinksOf(db: Db, j: JobId): set<Link> {
    set l | l in db.links && l.job == j
  }

  function Roots(links: set<Link>): set<Link> {
    set l | l in links && !l.role.Part?
  }

  function Parts(links: set<Link>): set<Link> {
    set l | l in links && l.role.Part?
  }

  function Ordinals(links: set<Link>): set<Option<nat>> {
    set l | l in links :: l.ordinal
  }

  function Range(n: nat): set<Option<nat>> {
    set k | 1 <= k <= n :: Some(k)
  }

  // One root, which is the job's output; parts numbered from 1 without a gap; a plain result has
  // none, and a bundle is an archive.
  predicate Consistent(rs: Records, links: set<Link>, output: FileId) {
    && |Roots(links)| == 1
    && (forall l :: l in Roots(links) ==>
          && l.file == output && l.ordinal.None?
          && (l.role.Result? ==> |links| == 1) && (l.role.Bundle? ==> rs.isZip(l.file)))
    && Ordinals(Parts(links)) == Range(|Parts(links)|)
  }

  // The record exists and belongs to the service that requested the job.
  predicate Available(db: Db, rs: Records, j: JobId, f: FileId) {
    f in db.files.Values && rs.sourceSystem(f) == rs.requestedBy(j)
  }

  function ReplyKind(db: Db, rs: Records, caller: Party, j: JobId): Reply {
    if j !in db.jobs then NotFound
    else if rs.requestedBy(j) != caller then Forbidden
    else if !db.jobs[j].status.Completed? then NotCompleted
    else if db.jobs[j].output.None? then Unavailable
    else
      var links, output := LinksOf(db, j), db.jobs[j].output.value;
      if |links| > MAX_JOB_ARTIFACTS then TooMany
      else if links == {} then (if Available(db, rs, j, output) then Listing(output, []) else Unavailable)
      else if exists l :: l in links && !Available(db, rs, j, l.file) then Unavailable
      else if forall l :: l in links ==> l.file != output then Unavailable
      else if !Consistent(rs, links, output) then Inconsistent
      else Listing(output, [])
  }

  // The order of a manifest: the root, then the parts by their number.
  ghost predicate InOrder(links: set<Link>, output: FileId, artifacts: seq<Artifact>) {
    && |artifacts| == |links| > 0 && artifacts[0].file == output
    && (forall k :: 0 <= k < |artifacts| ==>
          exists l :: l in links && l.role.Part? == (k > 0) && artifacts[k] == Artifact(l.file, l.role, OrdinalOf(k))
                      && l.ordinal == OrdinalOf(k))
  }

  // The link of the part with a number.
  method FindPart(parts: set<Link>, k: nat) returns (l: Link)
    requires Some(k) in Ordinals(parts)
    ensures l in parts && l.ordinal == Some(k)
  {
    var rest := parts;
    while true
      invariant rest <= parts && exists m :: m in rest && m.ordinal == Some(k)
      decreases |rest|
    {
      l :| l in rest;
      if l.ordinal == Some(k) {
        return;
      }
      rest := rest - {l};
    }
  }

  method AllAvailable(db: Db, rs: Records, j: JobId, links: set<Link>) returns (ok: bool)
    ensures ok <==> forall l :: l in links ==> Available(db, rs, j, l.file)
  {
    var rest := links;
    while rest != {}
      invariant rest <= links && forall l :: l in links - rest ==> Available(db, rs, j, l.file)
      decreases |rest|
    {
      var l :| l in rest;
      if !(l.file in db.files.Values && rs.sourceSystem(l.file) == rs.requestedBy(j)) {
        return false;
      }
      rest := rest - {l};
    }
    ok := true;
  }

  // The job is the caller's, completed and has an output.
  predicate Presentable(db: Db, rs: Records, caller: Party, j: JobId) {
    && j in db.jobs && rs.requestedBy(j) == caller
    && db.jobs[j].status == Completed && db.jobs[j].output.Some?
  }

  // Some record the listing needs is gone or belongs to another service.
  ghost predicate Missing(db: Db, rs: Records, caller: Party, links: set<Link>, output: FileId) {
    if links == {} then output !in db.files.Values || rs.sourceSystem(output) != caller
    else
      || (exists l :: l in links && (l.file !in db.files.Values || rs.sourceSystem(l.file) != caller))
      || (forall l :: l in links ==> l.file != output)
  }

  predicate IsSoleRoot(links: set<Link>, root: Link) {
    root in links && !root.role.Part? && forall l :: l in links && !l.role.Part? ==> l == root
  }

  // The parts are numbered from 1 without a gap or a repetition.
  ghost predicate NumberedParts(links: set<Link>) {
    var n := |set l | l in links && l.role.Part?|;
    && (forall l :: l in links && l.role.Part? ==> l.ordinal.Some? && 1 <= l.ordinal.value <= n)
    && (forall k :: 1 <= k <= n ==> exists l :: l in links && l.role.Part? && l.ordinal == Some(k))
  }

  // One root without a number, which is the output; a plain result stands alone and a bundle is an
  // archive.
  ghost predicate WellFormed(rs: Records, links: set<Link>, output: FileId) {
    && NumberedParts(links)
    && exists root :: IsSoleRoot(links, root)
         && root.file == output && root.ordinal == None
         && (root.role == Result ==> links == {root}) && (root.role == Bundle ==> rs.isZip(output))
  }

  lemma WellFormedMeans(rs: Records, links: set<Link>, output: FileId)
    ensures WellFormed(rs, links, output) <==> Consistent(rs, links, output)
  {
    OrdinalsMean(links);
    hide NumberedParts, Ordinals, Range, Parts;
    if |Roots(links)| == 1 {
      var root :| root in Roots(links);
      SoleRoot(links, root);
      OnlyRoot(links, root);
      hide Roots;
    } else {
      forall root | IsSoleRoot(links, root) ensures false {
        OnlyRoot(links, root);
      }
    }
  }

  lemma OnlyRoot(links: set<Link>, root: Link)
    requires root in links
    ensures IsSoleRoot(links, root) <==> Roots(links) == {root}
    ensures IsSoleRoot(links, root) ==> |Roots(links)| == 1 && (|links| == 1 <==> links == {root})
    ensures forall other :: IsSoleRoot(links, root) && IsSoleRoot(links, other) ==> other == root
  {
    if Roots(links) == {root} {
      assert root in Roots(links);
      forall l | l in links && !l.role.Part? ensures l == root {
        assert l in Roots(links);
      }
    }
    if |links| == 1 {
      assert |links - {root}| == 0;
    }
  }

  lemma SoleRoot(links: set<Link>, root: Link)
    requires |Roots(links)| == 1 && root in Roots(links)
    ensures root in links && IsSoleRoot(links, root)
  {
    assert |Roots(links) - {root}| == 0;
    forall l | l in links && !l.role.Part? ensures l == root {
      assert l in Roots(links);
      assert l != root ==> l in Roots(links) - {root};
    }
  }

  lemma OrdinalsMean(links: set<Link>)
    ensures Ordinals(Parts(links)) == Range(|Parts(links)|) <==> NumberedParts(links)
  {
    var n := |Parts(links)|;
    assert Parts(links) == set l | l in links && l.role.Part?;
    if Ordinals(Parts(links)) == Range(n) {
      forall l | l in links && l.role.Part? ensures l.ordinal.Some? && 1 <= l.ordinal.value <= n {
        assert l in Parts(links) && l.ordinal in Ordinals(Parts(links));
      }
      forall k | 1 <= k <= n ensures exists l :: l in links && l.role.Part? && l.ordinal == Some(k) {
        assert Some(k) in Range(n);
      }
    }
  }

  method GetJobArtifacts(db: Db, rs: Records, caller: Party, j: JobId, bundleOperation: bool) returns (reply: Reply)
    ensures reply == NotFound <==> j !in db.jobs
    ensures reply == Forbidden <==> j in db.jobs && rs.requestedBy(j) != caller
    ensures reply == NotCompleted <==>
      j in db.jobs && rs.requestedBy(j) == caller && db.jobs[j].status != Completed
    ensures (j in db.jobs && rs.requestedBy(j) == caller && db.jobs[j].status == Completed && db.jobs[j].output.None?)
            ==> reply == Unavailable
    ensures Presentable(db, rs, caller, j) ==>
      var links, output := (set l | l in db.links && l.job == j), db.jobs[j].output.value;
      && (reply == TooMany <==> |links| > 201)
      && (reply == Unavailable <==> |links| <= 201 && Missing(db, rs, caller, links, output))
      && (reply == Inconsistent <==>
            |links| <= 201 && !Missing(db, rs, caller, links, output) && links != {} && !WellFormed(rs, links, output))
    ensures reply.Listing? <==> ReplyKind(db, rs, caller, j).Listing?
    ensures !reply.Listing? ==> reply == ReplyKind(db, rs, caller, j)
    ensures reply.Listing? ==> reply.primary == db.jobs[j].output.value && reply.artifacts != []
    ensures reply.Listing? && LinksOf(db, j) != {} ==> InOrder(LinksOf(db, j), reply.primary, reply.artifacts)
    ensures reply.Listing? && LinksOf(db, j) == {} ==>
      reply.artifacts == [Artifact(reply.primary, if bundleOperation then Bundle else Result, None)]
  {
    if j !in db.jobs {
      return NotFound;
    }
    if rs.requestedBy(j) != caller {
      return Forbidden;
    }
    if !db.jobs[j].status.Completed? {
      return NotCompleted;
    }
    if db.jobs[j].output.None? {
      return Unavailable;
    }
    var links, output := LinksOf(db, j), db.jobs[j].output.value;
    if |links| > MAX_JOB_ARTIFACTS {
      return TooMany;
    }
    if links == {} {
      if !Available(db, rs, j, output) {
        return Unavailable;
      }
      return Listing(output, [Artifact(output, if bundleOperation then Bundle else Result, None)]);
    }
    var present := AllAvailable(db, rs, j, links);
    if !present {
      return Unavailable;
    }
    if forall l :: l in links ==> l.file != output {
      return Unavailable;
    }
    WellFormedMeans(rs, links, output);
    hide WellFormed, Consistent;
    if !Consistent(rs, links, output) {
      return Inconsistent;
    }
    var artifacts := Arrange(rs, links, output);
    reply := Listing(output, artifacts);
  }

  method Arrange(rs: Records, links: set<Link>, output: FileId) returns (artifacts: seq<Artifact>)
    requires Consistent(rs, links, output)
    ensures InOrder(links, output, artifacts)
  {
    var parts := Parts(links);
    assert links == Roots(links) + parts;
    var root :| root in Roots(links);
    artifacts := [Artifact(root.file, root.role, None)];
    for k := 1 to |parts| + 1
      invariant |artifacts| == k && artifacts[0].file == output
      invariant forall i :: 0 <= i < k ==>
        exists l :: l in links && l.role.Part? == (i > 0) && artifacts[i] == Artifact(l.file, l.role, OrdinalOf(i))
                    && l.ordinal == OrdinalOf(i)
    {
      assert Some(k) in Range(|parts|);
      var l := FindPart(parts, k);
      artifacts := artifacts + [Artifact(l.file, l.role, l.ordinal)];
    }
  }
}
