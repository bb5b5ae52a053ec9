/** The issue lifecycle over a whole run of the service: any sequence of
    create and update requests, applied one after another to the store. */
module Lifecycle {
  import opened Wrappers
  import opened Models
  import opened Data
  import opened Handler

  /** A mutating request as the handlers receive it. */
  datatype Request =
    | Create(createBody: Option<NewIssueRequest>)
    | Update(id: nat, updateBody: Option<UpdateIssueRequest>, now: int)

  function Step(s: Store, req: Request): (Result<Issue, Err>, Store) {
    match req
    case Create(body) => HandleCreate(s, body)
    case Update(id, body, now) => HandleUpdate(s, id, body, now)
  }

  /** Applies the requests in order; returns the final store and the ids
      of the issues created along the way, in creation order. */
  function Replay(s: Store, reqs: seq<Request>): (Store, seq<nat>)
    decreases |reqs|
  {
    if reqs == [] then (s, [])
    else
      var (r, s1) := Step(s, reqs[0]);
      var (fin, ids) := Replay(s1, reqs[1..]);
      (fin, (if reqs[0].Create? && r.Success? then [r.value.id] else []) + ids)
  }

  predicate StrictlyIncreasing(ids: seq<nat>) {
    forall i, j :: 0 <= i < j < |ids| ==> ids[i] < ids[j]
  }

  /** One request keeps the invariant, never lowers the counter, never
      drops an issue and never touches the user table. */
  lemma StepPreservesValid(s: Store, req: Request)
    requires Valid(s)
    ensures var s1 := Step(s, req).1;
      && Valid(s1)
      && s1.nextId >= s.nextId
      && s1.users == s.users
      && s.issues.Keys <= s1.issues.Keys
  {
  }

  /** Over any run the invariant holds at the end, the counter has not gone
      down, no issue has disappeared and the users are unchanged. */
  lemma {:induction false} ReplayPreservesValid(s: Store, reqs: seq<Request>)
    requires Valid(s)
    ensures var fin := Replay(s, reqs).0;
      && Valid(fin)
      && fin.nextId >= s.nextId
      && fin.users == s.users
      && s.issues.Keys <= fin.issues.Keys
    decreases |reqs|
  {
    if reqs != [] {
      var s1 := Step(s, reqs[0]).1;
      StepPreservesValid(s, reqs[0]);
      ReplayPreservesValid(s1, reqs[1..]);
    }
  }

  /** Ids are never reused: the issues created during a run receive
      strictly increasing ids, all at or above the starting counter (so
      none was in use before) and all below the final counter. */
  lemma {:induction false} CreatedIdsIncrease(s: Store, reqs: seq<Request>)
    requires Valid(s)
    ensures var (fin, ids) := Replay(s, reqs);
      && StrictlyIncreasing(ids)
      && (forall i :: 0 <= i < |ids| ==> s.nextId <= ids[i] < fin.nextId && ids[i] !in s.issues)
    decreases |reqs|
  {
    if reqs != [] {
      var (r, s1) := Step(s, reqs[0]);
      StepPreservesValid(s, reqs[0]);
      CreatedIdsIncrease(s1, reqs[1..]);
      ReplayPreservesValid(s1, reqs[1..]);
      var (fin, rest) := Replay(s1, reqs[1..]);
      if reqs[0].Create? && r.Success? {
        assert r.value.id == s.nextId && s1.nextId == s.nextId + 1;
        assert forall i :: 0 <= i < |rest| ==> r.value.id < rest[i];
      } else if reqs[0].Update? {
        assert s1.nextId == s.nextId;
      }
    }
  }

  /** A COMPLETED or CANCELLED issue keeps every field, timestamps
      included, through any run. */
  lemma {:induction false} TerminalStaysFrozen(s: Store, reqs: seq<Request>, k: nat)
    requires Valid(s)
    requires k in s.issues && s.issues[k].status.IsTerminal()
    ensures var fin := Replay(s, reqs).0;
      k in fin.issues && fin.issues[k] == s.issues[k]
    decreases |reqs|
  {
    if reqs != [] {
      var s1 := Step(s, reqs[0]).1;
      StepPreservesValid(s, reqs[0]);
      match reqs[0] {
        case Create(body) =>
          CreatePreservesValid(s, body);
        case Update(id, body, now) =>
          if id == k {
            TerminalIsFrozen(s, id, body, now);
          }
      }
      TerminalStaysFrozen(s1, reqs[1..], k);
    }
  }
}
