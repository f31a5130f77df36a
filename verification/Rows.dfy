/** The rows of the job database that the fenced job protocol reads and writes:
    jobs, the write journal, file records and artifact links. */
module Rows {

  import opened Options

  // Identifiers are random UUIDs in the program; here they are only compared.
  type JobId = nat
  type Token = nat
  type FileId = nat
  type RqId = nat

  datatype Status = Queued | Running | Completed | Failed | Cancelled

  predicate Terminal(st: Status) {
    st.Completed? || st.Failed? || st.Cancelled?
  }

  datatype Job = Job(
    status: Status, progress: nat, epoch: nat, token: Option<Token>,
    expires: Option<int>, output: Option<FileId>, rq: Option<RqId>)

  // A destination of one attempt: slot 0 is the root output, slot k >= 1 is part k.
  datatype Name = Name(job: JobId, token: Token, slot: nat)

  datatype RowState = Planned | Committed | Compensated | NeedsReview

  datatype Role = Result | Bundle | Part

  datatype Row = Row(job: JobId, epoch: nat, token: Token, role: Role, state: RowState, file: Option<FileId>)

  datatype Link = Link(job: JobId, file: FileId, role: Role, ordinal: Option<nat>)

  // Journal rows and file records are keyed by their unique stored name.
  datatype Db = Db(jobs: map<JobId, Job>, journal: map<Name, Row>, files: map<Name, FileId>, links: set<Link>)

  function RoleOf(bundle: bool, slot: nat): Role {
    if slot > 0 then Part else if bundle then Bundle else Result
  }

  function OrdinalOf(slot: nat): Option<nat> {
    if slot == 0 then None else Some(slot)
  }

  // The destinations of an attempt with `parts` parts.
  function Slots(j: JobId, t: Token, parts: nat): (r: set<Name>)
    ensures forall nm :: nm in r <==> nm.job == j && nm.token == t && nm.slot <= parts
  {
    var r := set k | 0 <= k <= parts :: Name(j, t, k);
    assert forall nm: Name :: nm.job == j && nm.token == t && nm.slot <= parts ==> nm == Name(j, t, nm.slot);
    r
  }
}
