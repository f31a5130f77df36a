/** The fenced execution protocol as a transition system over the database, the object
    store, the worker processes, the HTTP routes, the retention job and the operator.
    One action is one SQL statement with its commit, one storage call or one clock reading.
    An action that is not enabled leaves the state unchanged. */
module Protocol {
  import opened Options
  import opened Rows
  import S = Statements

  // How a commit ends: acknowledged, applied although the client saw an error, or not applied.
  datatype Net = Ack | LostAck | Refused

  // How a storage call ends: done, failed before taking effect, failed after taking effect.
  datatype Io = Done | RaisedBefore | RaisedAfter

  datatype Pc =
    | AtProgress25 | AtConvert | AtProgress80 | AtRefresh | AtCheckLease | AtInsertRows
    | AtCheckDest | AtStore | AtPublish
    | AtLookUp | AtDelete | AtCompensate | AtRefreshFailed | AtMarkFailed
    | Finished | Crashed

  // One claimed attempt. `reserved` and `published` are history that no step reads.
  datatype Worker = Worker(
    job: JobId, epoch: nat, pc: Pc, sample: Option<int>, beat: Option<int>, beating: bool,
    parts: nat, bundle: bool, attempted: nat, cursor: nat, confirmed: set<Name>,
    reserved: bool, published: bool)

  datatype EndKind = ByPublish | ByWorker | ByRecovery
  datatype End = End(kind: EndKind, job: JobId, token: Token)

  datatype State = State(
    db: Db,
    objects: set<Name>,                    // what the object store holds
    workers: map<Token, Worker>,           // every attempt ever claimed
    cancels: map<nat, JobId>,              // cancel requests between their read and their write
    enqueuing: set<JobId>,                 // submissions whose try block has not ended
    evidence: map<nat, S.Evidence>,        // recoveries between their guards and their update
    purging: set<Name>,                    // file removals between object and record
    usedJobs: set<JobId>,                  // job ids ever created
    claims: map<JobId, Token>,             // history: the last token that claimed each job
    named: map<FileId, Name>,              // history: the destination each file id was created for
    ends: seq<End>,                        // history: fenced endings, oldest first
    clock: int)

  const MAX_PARTS := 200

  datatype Action =
    | CreateJob(j: JobId)
    | EnqueueReturned(j: JobId, rq: RqId, net: Net)
    | EnqueueRaised(j: JobId)
    | CancelRead(c: nat, j: JobId)
    | CancelWrite(c: nat)
    | ClearTerminal(js: set<JobId>)
    | Deliver(j: JobId, t: Token, now: int, ttl: nat)
    | Sample(t: Token)
    | Progress(t: Token, net: Net)
    | Convert(t: Token, parts: nat, bundle: bool)
    | Raise(t: Token)
    | Refresh(t: Token)
    | CheckLease(t: Token)
    | InsertRows(t: Token, net: Net)
    | CheckDest(t: Token)
    | Store(t: Token, io: Io)
    | Publish(t: Token, ids: seq<FileId>, net: Net)
    | LookUp(t: Token, raised: bool)
    | Delete(t: Token, io: Io)
    | Compensate(t: Token, net: Net)
    | RefreshFailed(t: Token)
    | MarkFailed(t: Token, net: Net)
    | Crash(t: Token)
    | BeatSample(t: Token)
    | Beat(t: Token, ttl: nat, net: Net)
    | Inspect(r: nat, j: JobId, epoch: nat, rq: RqId, now: int, grace: int)
    | Recover(r: nat, net: Net)
    | PurgeObject(nm: Name)
    | PurgeRecord(nm: Name, clearOutput: bool)
    | Tick(now: int)

  const INIT := State(Db(map[], map[], map[], {}), {}, map[], map[], {}, map[], {}, {}, map[], map[], [], 0)

  function SetWorker(s: State, t: Token, w: Worker): State {
    s.(workers := s.workers[t := w])
  }

  // An exception inside the try block: roll back and start the cleanup of every attempted name.
  function ToFailure(w: Worker): Worker {
    w.(pc := AtLookUp, sample := None, cursor := w.attempted, confirmed := {})
  }

  function Goto(w: Worker, pc: Pc): Worker {
    w.(pc := pc, sample := None)
  }

  function SlotName(w: Worker, t: Token, slot: nat): Name {
    Name(w.job, t, slot)
  }

  predicate InTry(pc: Pc) {
    pc.AtProgress25? || pc.AtConvert? || pc.AtProgress80? || pc.AtRefresh? || pc.AtCheckLease?
    || pc.AtInsertRows? || pc.AtCheckDest? || pc.AtStore? || pc.AtPublish?
  }

  // ---- submission and the HTTP routes

  function DoCreate(s: State, j: JobId): State {
    if j in s.usedJobs then s
    else s.(db := S.SetJob(s.db, j, Job(Queued, 0, 0, None, None, None, None)),
            usedJobs := s.usedJobs + {j}, enqueuing := s.enqueuing + {j})
  }

  // The queue's answer is recorded; when that commit raises, the error branch is still to come.
  function DoEnqueueReturned(s: State, j: JobId, rq: RqId, net: Net): State {
    if j !in s.enqueuing || (j in s.db.jobs && s.db.jobs[j].rq.Some?) then s
    else s.(enqueuing := if net.Ack? then s.enqueuing - {j} else s.enqueuing,
            db := if j in s.db.jobs && !net.Refused? then S.SetJob(s.db, j, s.db.jobs[j].(rq := Some(rq))) else s.db)
  }

  function DoEnqueueRaised(s: State, j: JobId): State {
    if j !in s.enqueuing then s
    else s.(enqueuing := s.enqueuing - {j}, db := S.Overwrite(s.db, j, Failed))
  }

  function DoCancelRead(s: State, c: nat, j: JobId): State {
    if && c !in s.cancels && j in s.db.jobs && s.db.jobs[j].rq.Some?
       && (s.db.jobs[j].status.Queued? || s.db.jobs[j].status.Running?)
    then s.(cancels := s.cancels[c := j])
    else s
  }

  function DoCancelWrite(s: State, c: nat): State {
    if c !in s.cancels then s
    else s.(cancels := s.cancels - {c}, db := S.Overwrite(s.db, s.cancels[c], Cancelled))
  }

  function DoClear(s: State, js: set<JobId>): State {
    if forall j :: j in js ==> j in s.db.jobs && Terminal(s.db.jobs[j].status)
    then s.(db := S.Clear(s.db, js))
    else s
  }

  // ---- the worker

  function DoDeliver(s: State, j: JobId, t: Token, now: int, ttl: nat): State {
    if t in s.workers then s
    else
      var r := S.Claim(s.db, j, t, now, ttl);
      if r.None? then s
      else s.(db := r.value,
              claims := s.claims[j := t],
              workers := s.workers[t := Worker(j, r.value.jobs[j].epoch, AtProgress25, None, None, true,
                                               0, false, 0, 0, {}, false, false)])
  }

  function DoSample(s: State, t: Token): State {
    if t in s.workers && !s.workers[t].pc.Crashed?
    then SetWorker(s, t, s.workers[t].(sample := Some(s.clock)))
    else s
  }

  function DoProgress(s: State, t: Token, net: Net): State {
    if !(t in s.workers && s.workers[t].sample.Some?
         && (s.workers[t].pc.AtProgress25? || s.workers[t].pc.AtProgress80?)) then s
    else
      var w := s.workers[t];
      var r := S.Progress(s.db, w.job, t, w.sample.value, if w.pc.AtProgress25? then 25 else 80);
      var s1 := if r.None? || net.Refused? then s else s.(db := r.value);
      SetWorker(s1, t, if r.None? || !net.Ack? then ToFailure(w)
                       else Goto(w, if w.pc.AtProgress25? then AtConvert else AtRefresh))
  }

  function DoConvert(s: State, t: Token, parts: nat, bundle: bool): State {
    if t in s.workers && s.workers[t].pc.AtConvert? && parts <= MAX_PARTS && (parts > 0 ==> bundle)
    then SetWorker(s, t, Goto(s.workers[t], AtProgress80).(parts := parts, bundle := bundle))
    else s
  }

  function DoRaise(s: State, t: Token): State {
    if t in s.workers && InTry(s.workers[t].pc) then SetWorker(s, t, ToFailure(s.workers[t])) else s
  }

  function DoRefresh(s: State, t: Token): State {
    if !(t in s.workers && s.workers[t].pc.AtRefresh?) then s
    else
      var w := s.workers[t];
      SetWorker(s, t, if w.job !in s.db.jobs then ToFailure(w)
                      else if s.db.jobs[w.job].status.Cancelled? then Goto(w, Finished)
                      else Goto(w, AtCheckLease))
  }

  function DoCheckLease(s: State, t: Token): State {
    if !(t in s.workers && s.workers[t].pc.AtCheckLease? && s.workers[t].sample.Some?) then s
    else
      var w := s.workers[t];
      SetWorker(s, t, if S.Fenced(s.db, w.job, t, w.sample.value) then Goto(w, AtInsertRows) else ToFailure(w))
  }

  function DoInsertRows(s: State, t: Token, net: Net): State {
    if !(t in s.workers && s.workers[t].pc.AtInsertRows?) then s
    else
      var w := s.workers[t];
      var r := S.Reserve(s.db, w.job, t, w.epoch, w.bundle, w.parts);
      if r.None? || net.Refused? then SetWorker(s, t, ToFailure(w))
      else SetWorker(s.(db := r.value), t,
                     (if net.Ack? then Goto(w, AtCheckDest) else ToFailure(w)).(reserved := true))
  }

  // The name is noted as attempted before the destination is looked up and written.
  function DoCheckDest(s: State, t: Token): State {
    if !(t in s.workers && s.workers[t].pc.AtCheckDest? && s.workers[t].attempted <= s.workers[t].parts) then s
    else
      var w := s.workers[t];
      var w1 := w.(attempted := w.attempted + 1);
      SetWorker(s, t, if SlotName(w, t, w.attempted) in s.db.files then ToFailure(w1) else Goto(w1, AtStore))
  }

  function DoStore(s: State, t: Token, io: Io): State {
    if !(t in s.workers && s.workers[t].pc.AtStore? && s.workers[t].attempted > 0) then s
    else
      var w := s.workers[t];
      var nm := SlotName(w, t, w.attempted - 1);
      SetWorker(if io.RaisedBefore? then s else s.(objects := s.objects + {nm}), t,
                if !io.Done? then ToFailure(w)
                else Goto(w, if w.attempted <= w.parts then AtCheckDest else AtPublish))
  }

  predicate FreshIds(s: State, ids: seq<FileId>) {
    && (forall k :: 0 <= k < |ids| ==> ids[k] !in s.named)
    && (forall k, l :: 0 <= k < l < |ids| ==> ids[k] != ids[l])
  }

  function NameIds(named: map<FileId, Name>, w: Worker, t: Token, ids: seq<FileId>): map<FileId, Name>
    requires forall k, l :: 0 <= k < l < |ids| ==> ids[k] != ids[l]
  {
    named + map k | 0 <= k < |ids| :: ids[k] := SlotName(w, t, k)
  }

  function DoPublish(s: State, t: Token, ids: seq<FileId>, net: Net): State {
    if !(t in s.workers && s.workers[t].pc.AtPublish? && s.workers[t].sample.Some? && |ids| == s.workers[t].parts + 1
         && FreshIds(s, ids)) then s
    else
      var w := s.workers[t];
      var r := S.Publish(s.db, w.job, t, w.sample.value, w.bundle, ids);
      if r.None? || net.Refused? then SetWorker(s, t, ToFailure(w))
      else SetWorker(s.(db := r.value,
                        named := NameIds(s.named, w, t, ids),
                        ends := s.ends + [End(ByPublish, w.job, t)]),
                     t, (if net.Ack? then Goto(w, Finished) else ToFailure(w)).(published := true))
  }

  // Cleanup visits the attempted names newest first; slot cursor-1 is next.
  function DoLookUp(s: State, t: Token, raised: bool): State {
    if !(t in s.workers && s.workers[t].pc.AtLookUp?) then s
    else
      var w := s.workers[t];
      if w.cursor == 0 then SetWorker(s, t, Goto(w, AtCompensate))
      else if raised || SlotName(w, t, w.cursor - 1) in s.db.files
      then SetWorker(s, t, w.(cursor := w.cursor - 1))
      else SetWorker(s, t, Goto(w, AtDelete))
  }

  function DoDelete(s: State, t: Token, io: Io): State {
    if !(t in s.workers && s.workers[t].pc.AtDelete? && s.workers[t].cursor > 0) then s
    else
      var w := s.workers[t];
      var nm := SlotName(w, t, w.cursor - 1);
      SetWorker(if io.RaisedBefore? then s else s.(objects := s.objects - {nm}), t,
                Goto(w, AtLookUp).(cursor := w.cursor - 1,
                                   confirmed := if io.Done? then w.confirmed + {nm} else w.confirmed))
  }

  // Names never attempted count as confirmed: nothing was written there.
  function Confirmed(w: Worker, t: Token): set<Name> {
    w.confirmed + (Slots(w.job, t, w.parts) - set k | 0 <= k < w.attempted :: SlotName(w, t, k))
  }

  function DoCompensate(s: State, t: Token, net: Net): State {
    if !(t in s.workers && s.workers[t].pc.AtCompensate?) then s
    else
      var w := s.workers[t];
      SetWorker(if net.Refused? then s else s.(db := S.Compensate(s.db, w.job, t, Confirmed(w, t))), t,
                Goto(w, AtRefreshFailed))
  }

  function DoRefreshFailed(s: State, t: Token): State {
    if !(t in s.workers && s.workers[t].pc.AtRefreshFailed?) then s
    else
      var w := s.workers[t];
      SetWorker(s, t, Goto(w, if w.job in s.db.jobs && !s.db.jobs[w.job].status.Cancelled?
                              then AtMarkFailed else Finished))
  }

  function DoMarkFailed(s: State, t: Token, net: Net): State {
    if !(t in s.workers && s.workers[t].pc.AtMarkFailed? && s.workers[t].sample.Some?) then s
    else
      var w := s.workers[t];
      var r := S.MarkFailed(s.db, w.job, t, w.sample.value);
      SetWorker(if r.None? || net.Refused? then s
                else s.(db := r.value, ends := s.ends + [End(ByWorker, w.job, t)]),
                t, Goto(w, Finished))
  }

  function DoCrash(s: State, t: Token): State {
    if t in s.workers
    then SetWorker(s, t, s.workers[t].(pc := Crashed, sample := None, beat := None, beating := false))
    else s
  }

  // ---- the heartbeat thread

  function DoBeatSample(s: State, t: Token): State {
    if t in s.workers && s.workers[t].beating
    then SetWorker(s, t, s.workers[t].(beat := Some(s.clock)))
    else s
  }

  function DoBeat(s: State, t: Token, ttl: nat, net: Net): State {
    if !(t in s.workers && s.workers[t].beating && s.workers[t].beat.Some?) then s
    else
      var w := s.workers[t];
      var r := S.Renew(s.db, w.job, t, w.epoch, w.beat.value, ttl);
      SetWorker(if r.None? || net.Refused? then s else s.(db := r.value), t,
                w.(beat := None, beating := !r.None?))
  }

  // ---- the operator, retention and the clock

  ghost function DoInspect(s: State, r: nat, j: JobId, epoch: nat, rq: RqId, now: int, grace: int): State {
    if r !in s.evidence && S.Recoverable(s.db, j, epoch, rq, now, grace) && !S.CommittedRow(s.db, j, epoch)
    then s.(evidence := s.evidence[r := S.Evidence(j, epoch, s.db.jobs[j].token.value, rq, now - grace)])
    else s
  }

  function DoRecover(s: State, r: nat, net: Net): State {
    if r !in s.evidence then s
    else
      var e := s.evidence[r];
      var d := S.Recover(s.db, e);
      var s1 := s.(evidence := s.evidence - {r});
      if d.None? || net.Refused? then s1
      else s1.(db := d.value, ends := s.ends + [End(ByRecovery, e.job, e.token)])
  }

  function DoPurgeObject(s: State, nm: Name): State {
    if nm in s.db.files then s.(objects := s.objects - {nm}, purging := s.purging + {nm}) else s
  }

  function DoPurgeRecord(s: State, nm: Name, clearOutput: bool): State {
    if nm in s.purging && nm in s.db.files then s.(db := S.Purge(s.db, nm, clearOutput)) else s
  }

  ghost function Step(s: State, a: Action): State {
    match a
    case CreateJob(j) => DoCreate(s, j)
    case EnqueueReturned(j, rq, net) => DoEnqueueReturned(s, j, rq, net)
    case EnqueueRaised(j) => DoEnqueueRaised(s, j)
    case CancelRead(c, j) => DoCancelRead(s, c, j)
    case CancelWrite(c) => DoCancelWrite(s, c)
    case ClearTerminal(js) => DoClear(s, js)
    case Deliver(j, t, now, ttl) => DoDeliver(s, j, t, now, ttl)
    case Sample(t) => DoSample(s, t)
    case Progress(t, net) => DoProgress(s, t, net)
    case Convert(t, parts, bundle) => DoConvert(s, t, parts, bundle)
    case Raise(t) => DoRaise(s, t)
    case Refresh(t) => DoRefresh(s, t)
    case CheckLease(t) => DoCheckLease(s, t)
    case InsertRows(t, net) => DoInsertRows(s, t, net)
    case CheckDest(t) => DoCheckDest(s, t)
    case Store(t, io) => DoStore(s, t, io)
    case Publish(t, ids, net) => DoPublish(s, t, ids, net)
    case LookUp(t, raised) => DoLookUp(s, t, raised)
    case Delete(t, io) => DoDelete(s, t, io)
    case Compensate(t, net) => DoCompensate(s, t, net)
    case RefreshFailed(t) => DoRefreshFailed(s, t)
    case MarkFailed(t, net) => DoMarkFailed(s, t, net)
    case Crash(t) => DoCrash(s, t)
    case BeatSample(t) => DoBeatSample(s, t)
    case Beat(t, ttl, net) => DoBeat(s, t, ttl, net)
    case Inspect(r, j, epoch, rq, now, grace) => DoInspect(s, r, j, epoch, rq, now, grace)
    case Recover(r, net) => DoRecover(s, r, net)
    case PurgeObject(nm) => DoPurgeObject(s, nm)
    case PurgeRecord(nm, clearOutput) => DoPurgeRecord(s, nm, clearOutput)
    case Tick(now) => s.(clock := now)
  }

  // The state after a finite run.
  ghost function Exec(s: State, run: seq<Action>): State {
    if run == [] then s else Step(Exec(s, run[..|run| - 1]), run[|run| - 1])
  }

  ghost predicate Reachable(s: State) {
    exists run :: Exec(INIT, run) == s
  }
}
