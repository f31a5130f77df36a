/** An expired lease never comes back to life, except through a clock reading taken before
    it expired; and exactly when that happens. */
module LeaseTheorems {
  import opened Options
  import opened Rows
  import S = Statements
  import opened Protocol
  import opened ProtocolInvariant
  import opened ProtocolClosure

  // Job j runs under token t, its lease ran out at e, and every reading the attempt still
  // holds was taken at e or later.
  ghost predicate Expired(s: State, j: JobId, t: Token, e: int) {
    && j in s.db.jobs && s.db.jobs[j].status.Running?
    && s.db.jobs[j].token == Some(t) && s.db.jobs[j].expires == Some(e) && e <= s.clock
    && t in s.workers && s.workers[t].job == j
    && (s.workers[t].sample.Some? ==> e <= s.workers[t].sample.value)
    && (s.workers[t].beat.Some? ==> e <= s.workers[t].beat.value)
  }

  // The job was created and is terminal or deleted.
  ghost predicate Gone(s: State, j: JobId) {
    j in s.usedJobs && (j in s.db.jobs ==> Terminal(s.db.jobs[j].status))
  }

  lemma GoneForever(s: State, a: Action, j: JobId)
    requires Inv(s) && Gone(s, j)
    ensures Gone(Step(s, a), j)
  {
    JobsUsed(s);
    StepOnward(s, a);
    hide Inv, Step;
  }

  // A renewal whose reading is not older than the deadline matches no row.
  lemma LateRenewal(db: Db, u: Token, i: JobId, epoch: nat, now: int, ttl: nat, j: JobId, t: Token, e: int)
    requires j in db.jobs && db.jobs[j].token == Some(t) && db.jobs[j].expires == Some(e)
    requires i == j && u == t ==> e <= now
    ensures var r := S.Renew(db, i, u, epoch, now, ttl); r.Some? ==> j in r.value.jobs && r.value.jobs[j] == db.jobs[j]
  {
  }

  lemma LateBeatKeepsExpired(s: State, u: Token, ttl: nat, net: Net, j: JobId, t: Token, e: int)
    requires Expired(s, j, t, e)
    ensures DoBeat(s, u, ttl, net).db.jobs[j] == s.db.jobs[j]
    ensures Expired(DoBeat(s, u, ttl, net), j, t, e)
  {
    hide S.Renew;
    if u in s.workers && s.workers[u].beat.Some? {
      var w := s.workers[u];
      LateRenewal(s.db, u, w.job, w.epoch, w.beat.value, ttl, j, t, e);
    }
  }

  lemma CreateKeepsExpired(s: State, i: JobId, j: JobId, t: Token, e: int)
    requires Expired(s, j, t, e) && s.db.jobs.Keys <= s.usedJobs
    ensures Expired(DoCreate(s, i), j, t, e)
  {
  }

  lemma ClearKeepsExpired(s: State, js: set<JobId>, j: JobId, t: Token, e: int)
    requires Expired(s, j, t, e)
    ensures Expired(DoClear(s, js), j, t, e)
  {
  }

  lemma TickKeepsExpired(s: State, now: int, j: JobId, t: Token, e: int)
    requires Expired(s, j, t, e) && s.clock <= now
    ensures Expired(s.(clock := now), j, t, e)
  {
  }

  lemma ExpiredStep(s: State, a: Action, j: JobId, t: Token, e: int)
    requires Inv(s) && Expired(s, j, t, e) && (a.Tick? ==> s.clock <= a.now)
    ensures Gone(Step(s, a), j) || Expired(Step(s, a), j, t, e)
  {
    hide Quiet, Busy, Inv, Expired, Gone;
    StepKind(s, a);
    JobsUsed(s);
    match a {
      case CreateJob(i) => CreateKeepsExpired(s, i, j, t, e);
      case ClearTerminal(js) => ClearKeepsExpired(s, js, j, t, e);
      case Tick(now) => TickKeepsExpired(s, now, j, t, e);
      case Beat(u, ttl, net) => LateBeatKeepsExpired(s, u, ttl, net, j, t, e);
      case _ => OrdinaryKeepsExpired(s, Step(s, a), j, t, e);
    }
  }

  lemma OrdinaryKeepsExpired(s: State, s1: State, j: JobId, t: Token, e: int)
    requires Expired(s, j, t, e) && s.db.jobs.Keys <= s.usedJobs
    requires (Quiet(s, s1) || (exists route :: Busy(s, s1, false, route)))
    ensures Gone(s1, j) || Expired(s1, j, t, e)
  {
  }

  // The clock of a run never goes back.
  ghost predicate Forward(s: State, run: seq<Action>) {
    run == [] ||
    (&& Forward(s, run[..|run| - 1])
     && (run[|run| - 1].Tick? ==> Exec(s, run[..|run| - 1]).clock <= run[|run| - 1].now))
  }

  // Once the lease of a running job has run out and the attempt holds no older reading, the
  // deadline stays frozen and no renewal, progress, publication or fenced failure of any
  // attempt that samples its time from then on succeeds, for the rest of the run.
  lemma {:induction false} ExpiredLeaseNeverRevives(s: State, run: seq<Action>, j: JobId, t: Token, e: int)
    requires Inv(s) && Expired(s, j, t, e) && Forward(s, run)
    ensures Gone(Exec(s, run), j) || Expired(Exec(s, run), j, t, e)
    ensures forall u, now :: e <= now ==> !S.Fenced(Exec(s, run).db, j, u, now)
  {
    hide Inv, Step, Expired;
    if run != [] {
      var prefix := run[..|run| - 1];
      ExpiredLeaseNeverRevives(s, prefix, j, t, e);
      ExecKeepsInv(s, prefix);
      if Gone(Exec(s, prefix), j) {
        GoneForever(Exec(s, prefix), run[|run| - 1], j);
      } else {
        ExpiredStep(Exec(s, prefix), run[|run| - 1], j, t, e);
      }
    }
    NotFenced(Exec(s, run), j, t, e);
  }

  lemma NotFenced(s: State, j: JobId, t: Token, e: int)
    requires Gone(s, j) || Expired(s, j, t, e)
    ensures forall u, now :: e <= now ==> !S.Fenced(s.db, j, u, now)
  {
  }

  // The exception: a renewal that read the clock before the deadline and is executed after it
  // succeeds, and makes the lease live again exactly when its new deadline lies ahead and its
  // commit is applied, acknowledged or not.
  lemma RevivalExactly(s: State, j: JobId, t: Token, e: int, ttl: nat, net: Net)
    requires Inv(s) && j in s.db.jobs && s.db.jobs[j].status.Running? && s.db.jobs[j].token == Some(t)
    requires s.db.jobs[j].expires == Some(e) && e <= s.clock
    ensures t in s.workers
    ensures S.Fenced(DoBeat(s, t, ttl, net).db, j, t, s.clock) <==>
            (!net.Refused? && s.workers[t].beating && s.workers[t].beat.Some? && s.workers[t].beat.value < e
             && s.clock < s.workers[t].beat.value + ttl)
  {
    JobAt(s, j);
    ClaimOf(s, j);
    WorkerAt(s, t);
    hide Inv, JobsOk, ClaimsOk, WorkersOk, RowsOk, ObjectsOk, FilesOk, LinksOk, EndsOk;
  }

  lemma ClaimOf(s: State, j: JobId)
    requires Inv(s) && j in s.claims
    ensures s.claims[j] in s.workers && s.workers[s.claims[j]].job == j
  {
    hide JobsOk, WorkersOk, RowsOk, ObjectsOk, FilesOk, LinksOk, EndsOk;
  }
}
