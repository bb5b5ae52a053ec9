/** The records of backend/models/models.go: users, issues and the two
    request bodies, with the status string turned into an enumeration. */
module Models {
  import opened Wrappers

  /** The four lifecycle states of an issue. */
  datatype Status = Pending | InProgress | Completed | Cancelled {

    /** COMPLETED and CANCELLED issues may no longer be modified. */
    predicate IsTerminal() {
      this == Completed || this == Cancelled
    }

    /** The states an issue without an assignee may not be moved into. */
    predicate NeedsAssignee() {
      this == InProgress || this == Completed
    }
  }

  /** The wire spelling of a status. */
  function StatusName(st: Status): string {
    match st
    case Pending => "PENDING"
    case InProgress => "IN_PROGRESS"
    case Completed => "COMPLETED"
    case Cancelled => "CANCELLED"
  }

  /** Reads a status string; `None` for anything but the four spellings. */
  function ParseStatus(name: string): (r: Option<Status>)
    ensures r.Some? ==> StatusName(r.value) == name
    ensures r.None? ==> forall st :: StatusName(st) != name
  {
    if name == "PENDING" then Some(Pending)
    else if name == "IN_PROGRESS" then Some(InProgress)
    else if name == "COMPLETED" then Some(Completed)
    else if name == "CANCELLED" then Some(Cancelled)
    else None
  }

  /** isValidStatus: true exactly for the spelling of one of the four states. */
  function IsValidStatus(name: string): (valid: bool)
    ensures valid <==> exists st :: StatusName(st) == name
  {
    var r := ParseStatus(name);
    if r.Some? then
      assert StatusName(r.value) == name;
      true
    else false
  }

  /** Reading back the spelling of a status gives that status. */
  lemma ParseStatusName(st: Status)
    ensures ParseStatus(StatusName(st)) == Some(st)
  {
  }

  /** Stands in for Go's zero `time.Time`; timestamps are seconds. */
  const ZeroTime: int := 0

  datatype User = User(id: nat, name: string)

  /** An issue; `assignee == None` means unassigned (a nil `*User`). */
  datatype Issue = Issue(
    id: nat,
    title: string,
    description: string,
    status: Status,
    assignee: Option<User>,
    createdAt: int,
    updatedAt: int)

  /** Body of a create request: title and description required, the user id
      optional, with an absent id distinct from an explicit 0. */
  datatype NewIssueRequest = NewIssueRequest(
    title: string,
    description: string,
    userId: Option<nat>)

  /** Body of a partial update: every field independently optional. */
  datatype UpdateIssueRequest = UpdateIssueRequest(
    title: Option<string>,
    description: Option<string>,
    status: Option<string>,
    userId: Option<nat>)

  /** The error kinds the handlers answer with: 404, 400, 403, and 500 for
      a store write that fails after the checks passed. */
  datatype Err = NotFound | BadRequest | Forbidden | InternalError
}
