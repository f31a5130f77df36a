/** Concrete runs: a job that completes, and the three events the protocol does not exclude. */
module ProtocolRuns {
  import opened Options
  import opened Rows
  import S = Statements
  import opened Protocol

  lemma ReachableStep(s: State, a: Action)
    requires Reachable(s)
    ensures Reachable(Step(s, a))
  {
    hide Step;
    var run :| Exec(INIT, run) == s;
    assert (run + [a])[..|run + [a]| - 1] == run;
    assert Exec(INIT, run + [a]) == Step(s, a);
  }

  // One job, created and claimed under token 7 at time 0 with a lease of 180 seconds.
  const CLAIMED := State(
    Db(map[0 := Job(Running, 10, 1, Some(7), Some(180), None, None)], map[], map[], {}), {},
    map[7 := Worker(0, 1, AtProgress25, None, None, true, 0, false, 0, 0, {}, false, false)],
    map[], {0}, map[], {}, {0}, map[0 := 7], map[], [], 0)

  lemma ClaimedReachable()
    ensures Reachable(CLAIMED)
  {
    hide Step;
    assert Exec(INIT, []) == INIT;
    ReachableStep(INIT, CreateJob(0));
    CreateStep(INIT);
    ReachableStep(DoCreate(INIT, 0), Deliver(0, 7, 0, 180));
    DeliverStep(DoCreate(INIT, 0));
    assert DoDeliver(DoCreate(INIT, 0), 0, 7, 0, 180) == CLAIMED;
  }

  // The actions of the runs below, each as the function that executes it.
  lemma CreateStep(s: State)
    ensures Step(s, CreateJob(0)) == DoCreate(s, 0)
  {
    hide DoCreate;
  }

  lemma DeliverStep(s: State)
    ensures Step(s, Deliver(0, 7, 0, 180)) == DoDeliver(s, 0, 7, 0, 180)
  {
    hide DoDeliver;
  }

  lemma EnqueuedStep(s: State)
    ensures Step(s, EnqueueReturned(0, 5, Ack)) == DoEnqueueReturned(s, 0, 5, Ack)
  {
    hide DoEnqueueReturned;
  }

  lemma EnqueueErrorStep(s: State)
    ensures Step(s, EnqueueRaised(0)) == DoEnqueueRaised(s, 0)
  {
    hide DoEnqueueRaised;
  }

  lemma CancelReadStep(s: State)
    ensures Step(s, CancelRead(0, 0)) == DoCancelRead(s, 0, 0)
  {
    hide DoCancelRead;
  }

  lemma CancelWriteStep(s: State)
    ensures Step(s, CancelWrite(0)) == DoCancelWrite(s, 0)
  {
    hide DoCancelWrite;
  }

  lemma SampleStep(s: State)
    ensures Step(s, Sample(7)) == DoSample(s, 7)
  {
    hide DoSample;
  }

  lemma ProgressStep(s: State)
    ensures Step(s, Progress(7, Ack)) == DoProgress(s, 7, Ack)
  {
    hide DoProgress;
  }

  lemma InsertStep(s: State)
    ensures Step(s, InsertRows(7, Ack)) == DoInsertRows(s, 7, Ack)
  {
    hide DoInsertRows;
  }

  lemma CheckDestStep(s: State)
    ensures Step(s, CheckDest(7)) == DoCheckDest(s, 7)
  {
    hide DoCheckDest;
  }

  lemma StoreStep(s: State)
    ensures Step(s, Store(7, Done)) == DoStore(s, 7, Done)
  {
    hide DoStore;
  }

  lemma PublishStep(s: State)
    ensures Step(s, Publish(7, [3], Ack)) == DoPublish(s, 7, [3], Ack)
  {
    hide DoPublish;
  }

  lemma BeatSampleStep(s: State)
    ensures Step(s, BeatSample(7)) == DoBeatSample(s, 7)
  {
    hide DoBeatSample;
  }

  lemma BeatStep(s: State)
    ensures Step(s, Beat(7, 180, Ack)) == DoBeat(s, 7, 180, Ack)
  {
    hide DoBeat;
  }

  lemma ConvertStep(s: State)
    ensures Step(s, Convert(7, 0, false)) == DoConvert(s, 7, 0, false)
  {
    hide DoConvert;
  }

  lemma RefreshStep(s: State)
    ensures Step(s, Refresh(7)) == DoRefresh(s, 7)
  {
    hide DoRefresh;
  }

  lemma CheckLeaseStep(s: State)
    ensures Step(s, CheckLease(7)) == DoCheckLease(s, 7)
  {
    hide DoCheckLease;
  }

  lemma TickStep(s: State, now: int)
    ensures Step(s, Tick(now)) == s.(clock := now)
  {
  }

  // A run with a clock that never goes back on which an expired lease is live again: the beat
  // reads the clock at 170, ten seconds before the deadline, and is executed at 200.
  lemma LateBeatRevives()
    ensures exists s :: Reachable(s) && !S.Fenced(s.db, 0, 7, s.clock) && s.clock == 200
                        && S.Fenced(Step(s, Beat(7, 180, Ack)).db, 0, 7, 200)
  {
    hide Step;
    ClaimedReachable();
    var s1 := CLAIMED.(clock := 170);
    var s2 := DoBeatSample(s1, 7);
    var s3 := s2.(clock := 200);
    TickStep(CLAIMED, 170);
    BeatSampleStep(s1);
    TickStep(s2, 200);
    BeatStep(s3);
    ReachableStep(CLAIMED, Tick(170));
    ReachableStep(s1, BeatSample(7));
    ReachableStep(s2, Tick(200));
    assert !S.Fenced(s3.db, 0, 7, s3.clock) && S.Fenced(DoBeat(s3, 7, 180, Ack).db, 0, 7, 200);
  }

  // The same job on its way to completion; either its enqueue call has not yet returned, or it has
  // and a cancel request has read the job as running.
  function Mid(open: bool, pc: Pc, sample: Option<int>, progress: nat, attempted: nat, reserved: bool,
               stored: bool): State {
    State(
      Db(map[0 := Job(Running, progress, 1, Some(7), Some(180), None, if open then None else Some(5))],
         if reserved then map[Name(0, 7, 0) := Row(0, 1, 7, Result, Planned, None)] else map[], map[], {}),
      if stored then {Name(0, 7, 0)} else {},
      map[7 := Worker(0, 1, pc, sample, None, true, 0, false, attempted, 0, {}, reserved, false)],
      if open then map[] else map[0 := 0], if open then {0} else {}, map[], {}, {0}, map[0 := 7], map[], [], 0)
  }

  lemma Reached(s: State, a: Action, s1: State)
    requires Reachable(s) && Step(s, a) == s1
    ensures Reachable(s1)
  {
    hide Step;
    ReachableStep(s, a);
  }

  lemma UnderWay(open: bool)
    ensures Reachable(Mid(open, AtProgress25, None, 10, 0, false, false))
  {
    hide Step;
    ClaimedReachable();
    if open {
      assert Mid(open, AtProgress25, None, 10, 0, false, false) == CLAIMED;
    } else {
      var s1 := DoEnqueueReturned(CLAIMED, 0, 5, Ack);
      EnqueuedStep(CLAIMED);
      CancelReadStep(s1);
      Reached(CLAIMED, EnqueueReturned(0, 5, Ack), s1);
      Reached(s1, CancelRead(0, 0), Mid(open, AtProgress25, None, 10, 0, false, false));
    }
  }

  lemma SampledAt(open: bool, pc: Pc, progress: nat, attempted: nat, reserved: bool, stored: bool)
    requires Reachable(Mid(open, pc, None, progress, attempted, reserved, stored)) && !pc.Crashed?
    ensures Reachable(Mid(open, pc, Some(0), progress, attempted, reserved, stored))
  {
    hide Step;
    SampleStep(Mid(open, pc, None, progress, attempted, reserved, stored));
    Reached(Mid(open, pc, None, progress, attempted, reserved, stored), Sample(7),
            Mid(open, pc, Some(0), progress, attempted, reserved, stored));
  }

  lemma First25(open: bool)
    requires Reachable(Mid(open, AtProgress25, Some(0), 10, 0, false, false))
    ensures Reachable(Mid(open, AtConvert, None, 25, 0, false, false))
  {
    hide Step;
    ProgressStep(Mid(open, AtProgress25, Some(0), 10, 0, false, false));
    Reached(Mid(open, AtProgress25, Some(0), 10, 0, false, false), Progress(7, Ack),
            Mid(open, AtConvert, None, 25, 0, false, false));
  }

  lemma ConvertDone(open: bool)
    requires Reachable(Mid(open, AtConvert, None, 25, 0, false, false))
    ensures Reachable(Mid(open, AtProgress80, None, 25, 0, false, false))
  {
    hide Step;
    ConvertStep(Mid(open, AtConvert, None, 25, 0, false, false));
    Reached(Mid(open, AtConvert, None, 25, 0, false, false), Convert(7, 0, false),
            Mid(open, AtProgress80, None, 25, 0, false, false));
  }

  lemma Then80(open: bool)
    requires Reachable(Mid(open, AtProgress80, Some(0), 25, 0, false, false))
    ensures Reachable(Mid(open, AtRefresh, None, 80, 0, false, false))
  {
    hide Step;
    ProgressStep(Mid(open, AtProgress80, Some(0), 25, 0, false, false));
    Reached(Mid(open, AtProgress80, Some(0), 25, 0, false, false), Progress(7, Ack),
            Mid(open, AtRefresh, None, 80, 0, false, false));
  }

  lemma Refreshed(open: bool)
    requires Reachable(Mid(open, AtRefresh, None, 80, 0, false, false))
    ensures Reachable(Mid(open, AtCheckLease, None, 80, 0, false, false))
  {
    hide Step;
    RefreshStep(Mid(open, AtRefresh, None, 80, 0, false, false));
    Reached(Mid(open, AtRefresh, None, 80, 0, false, false), Refresh(7),
            Mid(open, AtCheckLease, None, 80, 0, false, false));
  }

  lemma LeaseChecked(open: bool)
    requires Reachable(Mid(open, AtCheckLease, Some(0), 80, 0, false, false))
    ensures Reachable(Mid(open, AtInsertRows, None, 80, 0, false, false))
  {
    hide Step;
    CheckLeaseStep(Mid(open, AtCheckLease, Some(0), 80, 0, false, false));
    Reached(Mid(open, AtCheckLease, Some(0), 80, 0, false, false), CheckLease(7),
            Mid(open, AtInsertRows, None, 80, 0, false, false));
  }

  lemma RowsInserted(open: bool)
    requires Reachable(Mid(open, AtInsertRows, None, 80, 0, false, false))
    ensures Reachable(Mid(open, AtCheckDest, None, 80, 0, true, false))
  {
    hide Step;
    InsertStep(Mid(open, AtInsertRows, None, 80, 0, false, false));
    Reached(Mid(open, AtInsertRows, None, 80, 0, false, false), InsertRows(7, Ack),
            Mid(open, AtCheckDest, None, 80, 0, true, false));
  }

  lemma DestChecked(open: bool)
    requires Reachable(Mid(open, AtCheckDest, None, 80, 0, true, false))
    ensures Reachable(Mid(open, AtStore, None, 80, 1, true, false))
  {
    hide Step;
    CheckDestStep(Mid(open, AtCheckDest, None, 80, 0, true, false));
    Reached(Mid(open, AtCheckDest, None, 80, 0, true, false), CheckDest(7),
            Mid(open, AtStore, None, 80, 1, true, false));
  }

  lemma StoredOnce(open: bool)
    requires Reachable(Mid(open, AtStore, None, 80, 1, true, false))
    ensures Reachable(Mid(open, AtPublish, None, 80, 1, true, true))
  {
    hide Step;
    StoreStep(Mid(open, AtStore, None, 80, 1, true, false));
    Reached(Mid(open, AtStore, None, 80, 1, true, false), Store(7, Done),
            Mid(open, AtPublish, None, 80, 1, true, true));
  }

  lemma ReadyToPublish(open: bool)
    ensures Reachable(Mid(open, AtPublish, Some(0), 80, 1, true, true))
  {
    hide Mid, Reachable;
    UnderWay(open);
    SampledAt(open, AtProgress25, 10, 0, false, false);
    First25(open);
    ConvertDone(open);
    SampledAt(open, AtProgress80, 25, 0, false, false);
    Then80(open);
    Refreshed(open);
    SampledAt(open, AtCheckLease, 80, 0, false, false);
    LeaseChecked(open);
    RowsInserted(open);
    DestChecked(open);
    StoredOnce(open);
    SampledAt(open, AtPublish, 80, 1, true, true);
  }

  lemma PublishedRows(db: Db, job: Job)
    requires db == Db(map[0 := job], map[Name(0, 7, 0) := Row(0, 1, 7, Result, Planned, None)], map[], {})
    requires job.status.Running? && job.epoch == 1 && job.token == Some(7) && job.expires == Some(180)
    ensures var r := S.Publish(db, 0, 7, 0, false, [3]);
            && r.Some? && r.value.jobs == map[0 := job.(status := Completed, progress := 100, output := Some(3))]
            && Name(0, 7, 0) in r.value.files && r.value.files[Name(0, 7, 0)] == 3
  {
    hide S.CommittedRows, S.PublishedLinks;
    assert Slots(0, 7, 0) == {Name(0, 7, 0)};
    assert Name(0, 7, 0) in S.PublishedFiles(0, 7, [3]);
  }

  lemma CompletedState(open: bool)
    ensures var s := DoPublish(Mid(open, AtPublish, Some(0), 80, 1, true, true), 7, [3], Ack);
            && 0 in s.db.jobs && s.db.jobs[0].status.Completed? && s.db.jobs[0].output == Some(3)
            && (if open then 0 in s.enqueuing else s.cancels == map[0 := 0])
            && Name(0, 7, 0) in s.db.files && s.db.files[Name(0, 7, 0)] == 3
  {
    hide S.Publish, NameIds;
    var s := Mid(open, AtPublish, Some(0), 80, 1, true, true);
    PublishedRows(s.db, s.db.jobs[0]);
  }

  // The job completes and publishes file 3; then the cancel request that read it as running
  // overwrites the completed status, leaving the published output in place.
  lemma CancelOverwritesCompleted()
    ensures exists s ::
      && Reachable(s) && 0 in s.db.jobs && s.db.jobs[0].status.Completed? && s.db.jobs[0].output == Some(3)
      && var s1 := Step(s, CancelWrite(0));
         && s1.db.jobs[0].status.Cancelled? && s1.db.jobs[0].output == Some(3)
         && s1.db.files == s.db.files && 3 in s1.db.files.Values
  {
    hide Step, DoPublish, Mid;
    Published(false);
    CancelWriteStep(DoPublish(Mid(false, AtPublish, Some(0), 80, 1, true, true), 7, [3], Ack));
  }

  // The worker completes the job before the enqueue call returns with an error; the error branch
  // then overwrites the completed status, leaving the published output in place.
  lemma EnqueueErrorOverwritesCompleted()
    ensures exists s ::
      && Reachable(s) && 0 in s.db.jobs && s.db.jobs[0].status.Completed? && s.db.jobs[0].output == Some(3)
      && var s1 := Step(s, EnqueueRaised(0));
         && s1.db.jobs[0].status.Failed? && s1.db.jobs[0].output == Some(3)
         && s1.db.files == s.db.files && 3 in s1.db.files.Values
  {
    hide Step, DoPublish, Mid;
    Published(true);
    EnqueueErrorStep(DoPublish(Mid(true, AtPublish, Some(0), 80, 1, true, true), 7, [3], Ack));
  }

  lemma Published(open: bool)
    ensures var s := DoPublish(Mid(open, AtPublish, Some(0), 80, 1, true, true), 7, [3], Ack);
            && Reachable(s) && 0 in s.db.jobs && s.db.jobs[0].status.Completed? && s.db.jobs[0].output == Some(3)
            && (if open then 0 in s.enqueuing else s.cancels == map[0 := 0])
            && Name(0, 7, 0) in s.db.files && s.db.files[Name(0, 7, 0)] == 3
  {
    hide Step, DoPublish, Mid;
    ReadyToPublish(open);
    CompletedState(open);
    var s0 := Mid(open, AtPublish, Some(0), 80, 1, true, true);
    PublishStep(s0);
    Reached(s0, Publish(7, [3], Ack), DoPublish(s0, 7, [3], Ack));
  }
}
