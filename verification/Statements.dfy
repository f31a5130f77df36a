/** The SQL statements of the job protocol, as functions on the committed database.
    `None` stands for a conditional update that matched no row. */
module Statements {
  import opened Options
  import opened Rows

  const MIN_GRACE_SECONDS := 60

  // WHERE id = j AND status = 'running' AND lease_token = t AND lease_expires_at > now
  predicate Fenced(db: Db, j: JobId, t: Token, now: int) {
    && j in db.jobs
    && db.jobs[j].status.Running?
    && db.jobs[j].token == Some(t)
    && db.jobs[j].expires.Some?
    && now < db.jobs[j].expires.value
  }

  function SetJob(db: Db, j: JobId, job: Job): Db {
    db.(jobs := db.jobs[j := job])
  }

  function Claim(db: Db, j: JobId, t: Token, now: int, ttl: nat): Option<Db> {
    if j in db.jobs && db.jobs[j].status.Queued? then
      Some(SetJob(db, j, db.jobs[j].(
        status := Running, progress := 10, token := Some(t),
        epoch := db.jobs[j].epoch + 1, expires := Some(now + ttl))))
    else None
  }

  function Progress(db: Db, j: JobId, t: Token, now: int, progress: nat): Option<Db> {
    if Fenced(db, j, t, now) then Some(SetJob(db, j, db.jobs[j].(progress := progress))) else None
  }

  function Renew(db: Db, j: JobId, t: Token, epoch: nat, now: int, ttl: nat): Option<Db> {
    if Fenced(db, j, t, now) && db.jobs[j].epoch == epoch then
      Some(SetJob(db, j, db.jobs[j].(expires := Some(now + ttl))))
    else None
  }

  function PlannedRows(j: JobId, t: Token, epoch: nat, bundle: bool, parts: nat): map<Name, Row> {
    map nm | nm in Slots(j, t, parts) :: Row(j, epoch, t, RoleOf(bundle, nm.slot), Planned, None)
  }

  // The planned rows of one attempt, inserted in one transaction; stored names are unique.
  function Reserve(db: Db, j: JobId, t: Token, epoch: nat, bundle: bool, parts: nat): Option<Db> {
    if PlannedRows(j, t, epoch, bundle, parts).Keys !! db.journal.Keys
    then Some(db.(journal := db.journal + PlannedRows(j, t, epoch, bundle, parts)))
    else None
  }

  predicate MarkableRow(db: Db, j: JobId, t: Token, nm: Name) {
    nm in db.journal && db.journal[nm].job == j && db.journal[nm].token == t && db.journal[nm].state.Planned?
  }

  // The attempt's reservations, each naming the file record made for it.
  function CommittedRows(journal: map<Name, Row>, j: JobId, t: Token, ids: seq<FileId>): map<Name, Row>
    requires |ids| > 0 && Slots(j, t, |ids| - 1) <= journal.Keys
  {
    map nm | nm in Slots(j, t, |ids| - 1) :: journal[nm].(state := Committed, file := Some(ids[nm.slot]))
  }

  function PublishedFiles(j: JobId, t: Token, ids: seq<FileId>): map<Name, FileId>
    requires |ids| > 0
  {
    map nm | nm in Slots(j, t, |ids| - 1) :: ids[nm.slot]
  }

  function PublishedLinks(j: JobId, bundle: bool, ids: seq<FileId>): set<Link> {
    set k | 0 <= k < |ids| :: Link(j, ids[k], RoleOf(bundle, k), OrdinalOf(k))
  }

  // The publishing transaction: file records, links, journal transitions and completion.
  function Publish(db: Db, j: JobId, t: Token, now: int, bundle: bool, ids: seq<FileId>): Option<Db>
    requires |ids| > 0
  {
    if && Slots(j, t, |ids| - 1) <= db.journal.Keys
       && (forall nm :: nm in Slots(j, t, |ids| - 1) ==> MarkableRow(db, j, t, nm) && nm !in db.files)
       && Fenced(db, j, t, now)
    then
      Some(Db(
        db.jobs[j := db.jobs[j].(status := Completed, progress := 100, output := Some(ids[0]))],
        db.journal + CommittedRows(db.journal, j, t, ids),
        db.files + PublishedFiles(j, t, ids),
        db.links + PublishedLinks(j, bundle, ids)))
    else None
  }

  // Every row of the attempt still planned becomes compensated or needs_review.
  function Compensate(db: Db, j: JobId, t: Token, confirmed: set<Name>): Db {
    db.(journal := map nm | nm in db.journal ::
          var row := db.journal[nm];
          if row.job == j && row.token == t && row.state.Planned?
          then row.(state := if nm in confirmed then Compensated else NeedsReview)
          else row)
  }

  function MarkFailed(db: Db, j: JobId, t: Token, now: int): Option<Db> {
    if Fenced(db, j, t, now) then Some(SetJob(db, j, db.jobs[j].(status := Failed, progress := 100))) else None
  }

  // What the operator saw when the recovery guards passed.
  datatype Evidence = Evidence(job: JobId, epoch: nat, token: Token, rq: RqId, deadline: int)

  // The recovery guards before the journal is consulted; RQ reported the job terminal.
  predicate Recoverable(db: Db, j: JobId, epoch: nat, rq: RqId, now: int, grace: int) {
    && epoch >= 1 && grace >= MIN_GRACE_SECONDS
    && j in db.jobs
    && db.jobs[j].token.Some? && db.jobs[j].epoch == epoch
    && db.jobs[j].status.Running? && db.jobs[j].output.None?
    && db.jobs[j].expires.Some? && db.jobs[j].expires.value <= now - grace
    && db.jobs[j].rq == Some(rq)
  }

  ghost predicate CommittedRow(db: Db, j: JobId, epoch: nat) {
    exists nm :: nm in db.journal && db.journal[nm].job == j && db.journal[nm].epoch == epoch
                 && db.journal[nm].state.Committed?
  }

  function Recover(db: Db, e: Evidence): Option<Db> {
    if && e.job in db.jobs
       && db.jobs[e.job].status.Running?
       && db.jobs[e.job].token == Some(e.token)
       && db.jobs[e.job].epoch == e.epoch
       && db.jobs[e.job].rq == Some(e.rq)
       && db.jobs[e.job].output.None?
       && db.jobs[e.job].expires.Some? && db.jobs[e.job].expires.value <= e.deadline
    then Some(SetJob(db, e.job, db.jobs[e.job].(status := Failed, progress := 100, token := None)))
    else None
  }

  // Writes of the HTTP routes that carry no status predicate.
  function Overwrite(db: Db, j: JobId, st: Status): Db {
    if j in db.jobs then SetJob(db, j, db.jobs[j].(status := st, progress := 100)) else db
  }

  function Clear(db: Db, js: set<JobId>): Db {
    db.(jobs := db.jobs - js, links := set l | l in db.links && l.job !in js)
  }

  // Removal of one file record with its links; only the file routes also clear output pointers.
  function Purge(db: Db, nm: Name, clearOutput: bool): Db
    requires nm in db.files
  {
    var f := db.files[nm];
    Db(
      if clearOutput
      then map j | j in db.jobs :: if db.jobs[j].output == Some(f) then db.jobs[j].(output := None) else db.jobs[j]
      else db.jobs,
      db.journal, db.files - {nm}, set l | l in db.links && l.file != f)
  }
}
