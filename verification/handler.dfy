/** The business rules inside backend/handler/handler.go, separated from
    request decoding and response writing: each handler becomes a pure
    decision over the store plus the store call it makes on acceptance.
    A request body that fails to decode is `None`. */
module Handler {
  import opened Wrappers
  import opened Models
  import opened Data

  // -------------------------------------------------------- invariant

  /** An unassigned issue is PENDING or CANCELLED, and an assignee is a
      copy of a known user. */
  ghost predicate WellFormed(issue: Issue, users: map<nat, User>) {
    && (issue.assignee.None? ==> issue.status == Pending || issue.status == Cancelled)
    && (issue.assignee.Some? ==>
          issue.assignee.value.id in users && users[issue.assignee.value.id] == issue.assignee.value)
  }

  /** The store invariant every handler keeps. */
  ghost predicate Valid(s: Store) {
    && Consistent(s)
    && forall k :: k in s.issues ==> WellFormed(s.issues[k], s.users)
  }

  /** The seeded store satisfies the invariant. */
  lemma NewMockStoreValid(now: int)
    ensures Valid(NewMockStore(now))
  {
    var s := NewMockStore(now);
    forall k | k in s.issues ensures WellFormed(s.issues[k], s.users) {
      assert s.issues[(k - 1) + 1] == SeedIssues(now)[k - 1].(id := (k - 1) + 1);
    }
  }

  // ------------------------------------------------------------ list

  /** The status-filter check of GetIssuesHandler: the empty filter and the
      four status spellings pass, anything else is a BadRequest. */
  function CheckFilter(filter: string): (r: Result<string, Err>)
    ensures r.Success? <==> filter == "" || exists st :: StatusName(st) == filter
    ensures r.Success? ==> r.value == filter
    ensures r.Failure? ==> r.error == BadRequest
  {
    if filter != "" && !IsValidStatus(filter) then Failure(BadRequest) else Success(filter)
  }

  /** GetIssuesHandler: with an accepted filter, the listed issues are
      exactly the stored ones of that status (all of them for ""). */
  method ListIssues(s: Store, filter: string) returns (r: Result<seq<Issue>, Err>)
    ensures r.Failure? <==> filter != "" && ParseStatus(filter).None?
    ensures r.Failure? ==> r.error == BadRequest
    ensures r.Success? ==> forall x :: x in r.value <==>
      (exists k :: k in s.issues && s.issues[k] == x) &&
      (filter == "" || Some(x.status) == ParseStatus(filter))
    ensures r.Success? ==> |r.value| == |MatchingKeys(s, filter)|
  {
    match CheckFilter(filter)
    case Failure(e) =>
      r := Failure(e);
    case Success(f) =>
      var found := GetIssues(s, f);
      r := Success(found);
      forall x ensures x in found <==>
        (exists k :: k in s.issues && s.issues[k] == x) &&
        (filter == "" || Some(x.status) == ParseStatus(filter))
      {
        if x in found {
          var i :| 0 <= i < |found| && found[i] == x;
          var k :| k in MatchingKeys(s, f) && s.issues[k] == found[i];
          ParseStatusName(x.status);
        }
        if (exists k :: k in s.issues && s.issues[k] == x) &&
           (filter == "" || Some(x.status) == ParseStatus(filter)) {
          var k :| k in s.issues && s.issues[k] == x;
          assert k in MatchingKeys(s, f);
        }
      }
  }

  // ---------------------------------------------------------- create

  /** The decision of CreateIssueHandler: the issue to store, still
      without an id, or the reason to refuse. */
  function DecideCreate(s: Store, body: Option<NewIssueRequest>): (r: Result<Issue, Err>)
    ensures r.Failure? <==>
      || body.None?
      || body.value.title == ""
      || body.value.description == ""
      || (body.value.userId.Some? && body.value.userId.value != 0 && body.value.userId.value !in s.users)
    ensures r.Failure? ==> r.error == BadRequest
    ensures r.Success? ==>
      && r.value.id == 0
      && r.value.title == body.value.title
      && r.value.description == body.value.description
    ensures r.Success? && (body.value.userId == None || body.value.userId == Some(0)) ==>
      r.value.status == Pending && r.value.assignee == None
    ensures r.Success? && body.value.userId.Some? && body.value.userId.value != 0 ==>
      r.value.status == InProgress && r.value.assignee == Some(s.users[body.value.userId.value])
  {
    match body
    case None => Failure(BadRequest)
    case Some(req) =>
      if req.title == "" || req.description == "" then Failure(BadRequest)
      else if req.userId.Some? && req.userId.value != 0 then
        match GetUserByID(s, req.userId.value)
        case None => Failure(BadRequest)
        case Some(user) =>
          Success(Issue(0, req.title, req.description, InProgress, Some(user), ZeroTime, ZeroTime))
      else
        Success(Issue(0, req.title, req.description, Pending, None, ZeroTime, ZeroTime))
  }

  /** CreateIssueHandler: decide, then store. A refusal leaves the store
      as it was; an acceptance files the new issue under the counter's
      value and advances the counter by one. */
  function HandleCreate(s: Store, body: Option<NewIssueRequest>): (res: (Result<Issue, Err>, Store))
    ensures res.0.Failure? ==> res.1 == s
    ensures res.0.Failure? <==> DecideCreate(s, body).Failure?
    ensures res.0.Failure? ==> res.0 == DecideCreate(s, body)
    ensures res.0.Success? ==>
      && res.0.value.id == s.nextId
      && res.0.value == DecideCreate(s, body).value.(id := s.nextId)
      && res.1.issues == s.issues[s.nextId := res.0.value]
      && res.1.nextId == s.nextId + 1
      && res.1.users == s.users
  {
    match DecideCreate(s, body)
    case Failure(e) => (Failure(e), s)
    case Success(issue) =>
      var (created, s') := CreateIssue(s, issue);
      (Success(created), s')
  }

  /** Creation never reuses an id: the new issue's key was free, every
      earlier issue is kept, and the invariant holds afterwards. */
  lemma CreatePreservesValid(s: Store, body: Option<NewIssueRequest>)
    requires Valid(s)
    ensures var (r, s') := HandleCreate(s, body);
      && Valid(s')
      && (r.Success? ==> r.value.id !in s.issues && r.value.id >= 1)
      && (forall k :: k in s.issues ==> k in s'.issues && s'.issues[k] == s.issues[k])
  {
  }

  // ---------------------------------------------------------- update

  /** The request names a status outside the four spellings. */
  predicate BadStatusName(req: UpdateIssueRequest) {
    req.status.Some? && ParseStatus(req.status.value).None?
  }

  /** The status guard: the request asks for IN_PROGRESS or COMPLETED while
      the STORED issue has no assignee, whatever `userId` it also carries. */
  predicate GuardBlocks(stored: Issue, req: UpdateIssueRequest) {
    && stored.assignee.None?
    && req.status.Some?
    && ParseStatus(req.status.value).Some?
    && ParseStatus(req.status.value).value.NeedsAssignee()
  }

  /** The request names a non-zero user id that is not in the user table. */
  predicate UnknownUser(s: Store, req: UpdateIssueRequest) {
    req.userId.Some? && req.userId.value != 0 && req.userId.value !in s.users
  }

  /** The status-change block: an invalid name or a blocked guard is a
      BadRequest, a valid name replaces the status. */
  function ApplyStatus(issue: Issue, requested: Option<string>): Result<Issue, Err>
  {
    match requested
    case None => Success(issue)
    case Some(name) =>
      match ParseStatus(name)
      case None => Failure(BadRequest)
      case Some(st) =>
        if issue.assignee.None? && st.NeedsAssignee() then Failure(BadRequest)
        else Success(issue.(status := st))
  }

  /** The assignee block, run after the status block: 0 clears the assignee
      and forces PENDING; a known id assigns that user and promotes a
      PENDING issue only when no status was requested. */
  function ApplyAssignee(s: Store, issue: Issue, req: UpdateIssueRequest): Result<Issue, Err>
  {
    match req.userId
    case None => Success(issue)
    case Some(uid) =>
      if uid == 0 then Success(issue.(assignee := None, status := Pending))
      else
        match GetUserByID(s, uid)
        case None => Failure(BadRequest)
        case Some(user) =>
          var promoted := issue.status == Pending && req.status.None?;
          Success(issue.(assignee := Some(user), status := if promoted then InProgress else issue.status))
  }

  /** The decision of UpdateIssueHandler: the merged issue to persist, or
      the reason to refuse, checked in the handler's order. */
  function DecideUpdate(s: Store, id: nat, body: Option<UpdateIssueRequest>): (r: Result<Issue, Err>)
    // which error wins
    ensures id !in s.issues ==> r == Failure(NotFound)
    ensures id in s.issues && s.issues[id].status.IsTerminal() ==> r == Failure(Forbidden)
    ensures id in s.issues && !s.issues[id].status.IsTerminal() && r.Failure? ==> r.error == BadRequest
    // exactly these requests are refused
    ensures r.Failure? <==>
      || id !in s.issues
      || s.issues[id].status.IsTerminal()
      || body.None?
      || BadStatusName(body.value)
      || GuardBlocks(s.issues[id], body.value)
      || UnknownUser(s, body.value)
    // what an accepted update produces
    ensures r.Success? ==>
      var stored := s.issues[id];
      var req := body.value;
      && r.value.id == stored.id
      && r.value.title == req.title.GetOr(stored.title)
      && r.value.description == req.description.GetOr(stored.description)
      && r.value.createdAt == stored.createdAt
      && r.value.updatedAt == stored.updatedAt
    ensures r.Success? && body.value.userId == Some(0) ==>
      r.value.assignee == None && r.value.status == Pending
    ensures r.Success? && body.value.userId.Some? && body.value.userId.value != 0 ==>
      && r.value.assignee == Some(s.users[body.value.userId.value])
      && r.value.status ==
           if body.value.status.Some? then ParseStatus(body.value.status.value).value
           else if s.issues[id].status == Pending then InProgress
           else s.issues[id].status
    ensures r.Success? && body.value.userId.None? ==>
      && r.value.assignee == s.issues[id].assignee
      && r.value.status ==
           if body.value.status.Some? then ParseStatus(body.value.status.value).value
           else s.issues[id].status
  {
    match GetIssueByID(s, id)
    case Failure(_) => Failure(NotFound)
    case Success(existing) =>
      if existing.status.IsTerminal() then Failure(Forbidden)
      else if body.None? then Failure(BadRequest)
      else
        var req := body.value;
        var edited := existing.(title := req.title.GetOr(existing.title),
                                description := req.description.GetOr(existing.description));
        match ApplyStatus(edited, req.status)
        case Failure(e) => Failure(e)
        case Success(withStatus) => ApplyAssignee(s, withStatus, req)
  }

  /** UpdateIssueHandler: decide, then persist. A refusal leaves the store
      as it was; an acceptance replaces only the record under the issue's
      own id, stamped with `now`. In a consistent store that id is `id` and
      the write cannot fail. */
  function HandleUpdate(s: Store, id: nat, body: Option<UpdateIssueRequest>, now: int)
    : (res: (Result<Issue, Err>, Store))
    ensures res.0.Failure? ==> res.1 == s
    ensures DecideUpdate(s, id, body).Failure? ==> res.0 == DecideUpdate(s, id, body)
    ensures res.0.Success? ==>
      && res.0.value == DecideUpdate(s, id, body).value.(updatedAt := now)
      && res.1.issues == s.issues[res.0.value.id := res.0.value]
      && res.1.nextId == s.nextId
      && res.1.users == s.users
    ensures Consistent(s) ==>
      && (res.0.Failure? <==> DecideUpdate(s, id, body).Failure?)
      && (res.0.Success? ==> res.0.value.id == id)
  {
    match DecideUpdate(s, id, body)
    case Failure(e) => (Failure(e), s)
    case Success(merged) =>
      match UpdateIssue(s, merged, now)
      case (Failure(_), s') => (Failure(InternalError), s')
      case (Success(stored), s') => (Success(stored), s')
  }

  /** An accepted update keeps the invariant: in particular it never leaves
      an unassigned issue IN_PROGRESS or COMPLETED. */
  lemma UpdatePreservesValid(s: Store, id: nat, body: Option<UpdateIssueRequest>, now: int)
    requires Valid(s)
    ensures Valid(HandleUpdate(s, id, body, now).1)
  {
  }

  /** A terminal issue is frozen: every update to it is Forbidden and the
      store does not change, whatever the request holds. */
  lemma TerminalIsFrozen(s: Store, id: nat, body: Option<UpdateIssueRequest>, now: int)
    requires id in s.issues && s.issues[id].status.IsTerminal()
    ensures HandleUpdate(s, id, body, now) == (Failure(Forbidden), s)
  {
  }

  /** Replaying an accepted update changes no field but the timestamp:
      either it is refused and the store stays put, or it stores the same
      issue again with a fresh `updatedAt`. */
  lemma UpdateIdempotent(s: Store, id: nat, req: UpdateIssueRequest, now1: int, now2: int)
    requires Valid(s)
    requires HandleUpdate(s, id, Some(req), now1).0.Success?
    ensures var s1 := HandleUpdate(s, id, Some(req), now1).1;
      var s2 := HandleUpdate(s1, id, Some(req), now2).1;
      && s2.nextId == s1.nextId && s2.users == s1.users
      && s2.issues.Keys == s1.issues.Keys
      && s2.issues[id] == s1.issues[id].(updatedAt := s2.issues[id].updatedAt)
      && (forall k :: k in s1.issues && k != id ==> s2.issues[k] == s1.issues[k])
  {
  }

  /** The walk-through: create with user 1 gives IN_PROGRESS under user 1;
      clearing the user gives PENDING with no assignee; asking for
      COMPLETED afterwards is refused for want of an assignee. */
  lemma Walkthrough(now: int)
    ensures var s0 := NewMockStore(now);
      var (c, s1) := HandleCreate(s0, Some(NewIssueRequest("Fix bug", "...", Some(1))));
      var (u, s2) := HandleUpdate(s1, 6, Some(UpdateIssueRequest(None, None, None, Some(0))), now);
      var (v, s3) := HandleUpdate(s2, 6, Some(UpdateIssueRequest(None, None, Some("COMPLETED"), None)), now);
      && c.Success? && c.value.id == 6 && c.value.status == InProgress
      && c.value.assignee == Some(User(1, ""))
      && u.Success? && u.value.status == Pending && u.value.assignee == None
      && v == Failure(BadRequest) && s3 == s2
  {
  }
}
