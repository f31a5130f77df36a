/** The operator's guarded recovery of an expired attempt: a chain of refusals on the rows as
    read, then one conditional update on the rows as other transactions have left them. */
module LeaseRecovery {
  import opened Options
  import opened Rows
  import S = Statements
  import opened Protocol
  import opened WriteJournal

  datatype RqStatus = RqQueued | RqStarted | RqDeferred | RqScheduled | RqFinished | RqFailed | RqStopped | RqCanceled

  // The queue's own record of the job, fetched live.
  datatype RqJob = RqJob(id: RqId, isProcessJob: bool, args: seq<JobId>, status: RqStatus)

  datatype Refusal = BadCall | BadGrace | NotCurrent | NotRunning | NotExpired | RqMismatch | WrongInvocation
                   | RqNotTerminal | HasCommittedRow | AuditUnavailable | ChangedMeanwhile | CommitUnknown

  datatype Report = Report(job: JobId, epoch: nat, dryRun: bool)

  datatype Reply = Reported(report: Report) | Declined(refusal: Refusal)

  predicate RqTerminal(st: RqStatus) {
    st.RqFailed? || st.RqStopped? || st.RqCanceled?
  }

  // What the operator must have: the job's own invocation, reported terminal.
  predicate RqProof(rq: RqJob, j: JobId) {
    rq.isProcessJob && rq.args == [j] && RqTerminal(rq.status)
  }

  ghost predicate Eligible(db: Db, j: JobId, epoch: int, rq: RqJob, actorNamed: bool, now: int, grace: int) {
    && actorNamed && epoch >= 1
    && S.Recoverable(db, j, epoch, rq.id, now, grace)
    && RqProof(rq, j) && !S.CommittedRow(db, j, epoch)
  }

  class Recovery {
    const session: Session

    constructor (session: Session)
      ensures this.session == session
    {
      this.session := session;
    }

    method HasCommittedRow(j: JobId, epoch: int) returns (linked: bool)
      ensures linked <==> epoch >= 0 && S.CommittedRow(session.working, j, epoch)
    {
      var journal := session.working.journal;
      var rest := journal.Keys;
      while rest != {}
        invariant rest <= journal.Keys
        invariant forall nm :: nm in journal.Keys - rest ==>
          !(journal[nm].job == j && journal[nm].epoch == epoch && journal[nm].state.Committed?)
        decreases |rest|
      {
        var nm :| nm in rest;
        if journal[nm].job == j && journal[nm].epoch == epoch && journal[nm].state.Committed? {
          return true;
        }
        rest := rest - {nm};
      }
      linked := false;
    }

    // A report exactly when every guard holds; a dry run changes nothing; an application marks the
    // job failed and drops its token, provided the row is still what the guards saw. `later` is
    // the database as other transactions have left it when the update runs.
    method InspectOrRecover(j: JobId, epoch: int, rq: RqJob, actorNamed: bool, apply: bool, now: int, grace: int,
                            audited: bool, later: Db, net: Net) returns (reply: Reply)
      requires session.working == session.committed
      modifies session
      ensures var db := old(session.committed);
        var eligible := Eligible(db, j, epoch, rq, actorNamed, now, grace);
        && (!eligible || !apply ==> session.committed == db)
        && (!apply ==> (reply.Reported? <==> eligible))
        && (!eligible ==> reply.Declined?)
        && (eligible && !apply ==> reply == Reported(Report(j, epoch, true)))
        && (eligible && apply && !audited ==> reply == Declined(AuditUnavailable) && session.committed == db)
        && (eligible && apply && audited ==>
              var d := S.Recover(later, S.Evidence(j, epoch, db.jobs[j].token.value, rq.id, now - grace));
              && session.committed == (if d.None? || net.Refused? then later else d.value)
              && reply == (if d.None? then Declined(ChangedMeanwhile)
                           else if net.Ack? then Reported(Report(j, epoch, false)) else Declined(CommitUnknown)))
      // the answer and the rows, guard by guard in the order they are tested
      ensures var db := old(session.committed);
        if !actorNamed || epoch < 1 then reply == Declined(BadCall) && session.committed == db
        else if grace < 60 then reply == Declined(BadGrace) && session.committed == db
        else if j !in db.jobs || db.jobs[j].token.None? || db.jobs[j].epoch != epoch
        then reply == Declined(NotCurrent) && session.committed == db
        else
          var job := db.jobs[j];
          if job.status != Running || job.output.Some? then reply == Declined(NotRunning) && session.committed == db
          else if job.expires.None? || job.expires.value + grace > now
          then reply == Declined(NotExpired) && session.committed == db
          else if job.rq != Some(rq.id) then reply == Declined(RqMismatch) && session.committed == db
          else if !rq.isProcessJob || rq.args != [j] then reply == Declined(WrongInvocation) && session.committed == db
          else if rq.status != RqFailed && rq.status != RqStopped && rq.status != RqCanceled
          then reply == Declined(RqNotTerminal) && session.committed == db
          else if exists nm :: nm in db.journal && db.journal[nm].job == j && db.journal[nm].epoch == epoch
                               && db.journal[nm].state == Committed
          then reply == Declined(Refusal.HasCommittedRow) && session.committed == db
          else if !apply then reply == Reported(Report(j, epoch, true)) && session.committed == db
          else if !audited then reply == Declined(AuditUnavailable) && session.committed == db
          else if j in later.jobs && later.jobs[j].status == Running && later.jobs[j].token == job.token
                  && later.jobs[j].epoch == epoch && later.jobs[j].rq == Some(rq.id) && later.jobs[j].output.None?
                  && later.jobs[j].expires.Some? && later.jobs[j].expires.value + grace <= now
          then
            && session.committed
               == (if net.Refused? then later
                   else later.(jobs := later.jobs[
                     j := later.jobs[j].(status := Failed, progress := 100, token := None)]))
            && reply == (if net.Ack? then Reported(Report(j, epoch, false)) else Declined(CommitUnknown))
          else reply == Declined(ChangedMeanwhile) && session.committed == later
      ensures session.working == session.committed
    {
      if !actorNamed || epoch < 1 {
        return Declined(BadCall);
      }
      if grace < S.MIN_GRACE_SECONDS {
        return Declined(BadGrace);
      }
      if j !in session.working.jobs {
        return Declined(NotCurrent);
      }
      var job := session.working.jobs[j];
      if job.token.None? || job.epoch != epoch {
        return Declined(NotCurrent);
      }
      if !job.status.Running? || job.output.Some? {
        return Declined(NotRunning);
      }
      if job.expires.None? || job.expires.value > now - grace {
        return Declined(NotExpired);
      }
      if job.rq != Some(rq.id) {
        return Declined(RqMismatch);
      }
      if !rq.isProcessJob || rq.args != [j] {
        return Declined(WrongInvocation);
      }
      if !RqTerminal(rq.status) {
        return Declined(RqNotTerminal);
      }
      var linked := HasCommittedRow(j, epoch);
      if linked {
        return Declined(Refusal.HasCommittedRow);
      }
      if !apply {
        return Reported(Report(j, epoch, true));
      }
      if !audited {
        return Declined(AuditUnavailable);
      }
      session.working, session.committed := later, later;
      var rowcount := 0;
      if j in session.working.jobs {
        var row := session.working.jobs[j];
        if && row.status.Running? && row.token == job.token && row.epoch == epoch && row.rq == Some(rq.id)
           && row.output.None? && row.expires.Some? && row.expires.value <= now - grace {
          session.working := S.SetJob(session.working, j, row.(status := Failed, progress := 100, token := None));
          rowcount := 1;
        }
      }
      if rowcount != 1 {
        session.Rollback();
        return Declined(ChangedMeanwhile);
      }
      var acknowledged := session.Commit(net);
      reply := if acknowledged then Reported(Report(j, epoch, false)) else Declined(CommitUnknown);
    }
  }

  // With nothing in between, a recovery whose guards passed always matches its row.
  lemma EligibleIsRecovered(db: Db, j: JobId, epoch: int, rq: RqJob, now: int, grace: int)
    requires Eligible(db, j, epoch, rq, true, now, grace)
    ensures var d := S.Recover(db, S.Evidence(j, epoch, db.jobs[j].token.value, rq.id, now - grace));
      && d.Some? && d.value.jobs[j].status.Failed? && d.value.jobs[j].token.None?
      && (forall t, at :: !S.Fenced(d.value, j, t, at))
      && d.value.journal == db.journal && d.value.files == db.files && d.value.links == db.links
  {
  }
}
