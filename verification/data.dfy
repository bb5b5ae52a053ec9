/** MockStore of backend/data/data.go: a map from issue id to issue, the
    counter for the next id, and a fixed user table. No business rules live
    here. */
module Data {
  import opened Wrappers
  import opened Models

  datatype Store = Store(issues: map<nat, Issue>, nextId: nat, users: map<nat, User>)

  /** Every issue is filed under its own id, ids start at 1 and stay below
      the counter, and every user is filed under its own non-zero id. */
  ghost predicate Consistent(s: Store) {
    && s.nextId >= 1
    && (forall k :: k in s.issues ==> s.issues[k].id == k && 1 <= k < s.nextId)
    && (forall u :: u in s.users ==> s.users[u].id == u && u != 0)
  }

  // ---------------------------------------------------------------- writes

  /** Stores `issue`, giving it the counter's value when it carries id 0;
      the counter then moves past the stored id. */
  function CreateIssue(s: Store, issue: Issue): (res: (Issue, Store))
    ensures issue.id == 0 ==> res.0.id == s.nextId
    ensures issue.id != 0 ==> res.0.id == issue.id
    ensures res.0 == issue.(id := res.0.id)
    ensures res.1.issues == s.issues[res.0.id := res.0]
    ensures res.1.nextId > res.0.id && res.1.nextId >= s.nextId
    ensures res.0.id < s.nextId ==> res.1.nextId == s.nextId
    ensures res.0.id >= s.nextId ==> res.1.nextId == res.0.id + 1
    ensures res.1.users == s.users
  {
    var id := if issue.id == 0 then s.nextId else issue.id;
    var stored := issue.(id := id);
    var next := if id >= s.nextId then id + 1 else s.nextId;
    (stored, s.(issues := s.issues[id := stored], nextId := next))
  }

  /** Replaces an existing record wholesale, stamping it with `now`. */
  function UpdateIssue(s: Store, issue: Issue, now: int): (res: (Result<Issue, Err>, Store))
    ensures issue.id !in s.issues ==> res.0.Failure? && res.1 == s
    ensures issue.id in s.issues ==> res.0 == Success(issue.(updatedAt := now))
    ensures issue.id in s.issues ==>
      && res.1.issues == s.issues[issue.id := issue.(updatedAt := now)]
      && res.1.nextId == s.nextId
      && res.1.users == s.users
  {
    if issue.id !in s.issues then (Failure(NotFound), s)
    else
      var stamped := issue.(updatedAt := now);
      (Success(stamped), s.(issues := s.issues[issue.id := stamped]))
  }

  // ----------------------------------------------------------------- reads

  /** Does `issue` pass the list filter? The empty filter passes everything. */
  predicate Matches(issue: Issue, filter: string) {
    filter == "" || StatusName(issue.status) == filter
  }

  /** The keys whose records pass the filter. */
  function MatchingKeys(s: Store, filter: string): set<nat> {
    set k | k in s.issues && Matches(s.issues[k], filter)
  }

  /** Lists the stored issues that pass the filter, in an unspecified order:
      each listed issue is a matching record, each matching record is
      listed, and the list holds one entry per matching key. */
  method GetIssues(s: Store, filter: string) returns (r: seq<Issue>)
    ensures forall i :: 0 <= i < |r| ==>
      exists k :: k in MatchingKeys(s, filter) && s.issues[k] == r[i]
    ensures forall k :: k in MatchingKeys(s, filter) ==> s.issues[k] in r
    ensures |r| == |MatchingKeys(s, filter)|
  {
    r := [];
    var todo := s.issues.Keys;
    ghost var taken: set<nat> := {};
    while todo != {}
      invariant todo <= s.issues.Keys
      invariant forall k :: k in taken <==> k in s.issues && k !in todo && Matches(s.issues[k], filter)
      invariant |r| == |taken|
      invariant forall i :: 0 <= i < |r| ==> exists k :: k in taken && s.issues[k] == r[i]
      invariant forall k :: k in taken ==> s.issues[k] in r
      decreases todo
    {
      var k :| k in todo;
      todo := todo - {k};
      if Matches(s.issues[k], filter) {
        r := r + [s.issues[k]];
        taken := taken + {k};
      }
    }
    assert taken == MatchingKeys(s, filter);
  }

  /** The record filed under `id`, or NotFound. */
  function GetIssueByID(s: Store, id: nat): (r: Result<Issue, Err>)
    ensures r.Success? <==> id in s.issues
    ensures r.Success? ==> r.value == s.issues[id]
    ensures r.Failure? ==> r.error == NotFound
  {
    if id in s.issues then Success(s.issues[id]) else Failure(NotFound)
  }

  /** The id the next issue created without one will receive. */
  function GetNextIssueID(s: Store): (n: nat)
    ensures forall x: Issue :: x.id == 0 ==> CreateIssue(s, x).0.id == n
  {
    s.nextId
  }

  /** A pure lookup in the user table. */
  function GetUserByID(s: Store, id: nat): (r: Option<User>)
    ensures r.Some? <==> id in s.users
    ensures r.Some? ==> r.value == s.users[id]
  {
    if id in s.users then Some(s.users[id]) else None
  }

  // ------------------------------------------------------------- seeding

  const Day: int := 24 * 60 * 60

  function SeedUsers(): map<nat, User> {
    map[1 := User(1, ""), 2 := User(2, ""), 3 := User(3, "")]
  }

  /** The five seed issues, in seed order, still without ids. */
  function SeedIssues(now: int): seq<Issue> {
    [ Issue(0, "", "", InProgress, Some(User(1, "")), now - 5 * Day, now - 5 * Day),
      Issue(0, "", "", Pending, None, now - 3 * Day, now - 3 * Day),
      Issue(0, "", "", Completed, Some(User(3, "")), now - 7 * Day, now - 2 * Day),
      Issue(0, "", "", Pending, Some(User(2, "")), now - 1 * Day, now - 1 * Day),
      Issue(0, "", "", InProgress, Some(User(1, "")), now - 10 * Day, now - 8 * Day) ]
  }

  /** Calls CreateIssue on each issue in order. */
  function CreateAll(s: Store, xs: seq<Issue>): Store
    decreases |xs|
  {
    if xs == [] then s else CreateAll(CreateIssue(s, xs[0]).1, xs[1..])
  }

  /** Creating id-less issues one after another files them under
      consecutive ids starting at the counter, in order, and touches
      nothing else. */
  lemma {:induction false} CreateAllConsecutive(s: Store, xs: seq<Issue>)
    requires forall i :: 0 <= i < |xs| ==> xs[i].id == 0
    ensures CreateAll(s, xs).nextId == s.nextId + |xs|
    ensures CreateAll(s, xs).users == s.users
    ensures forall k :: k in CreateAll(s, xs).issues <==>
      k in s.issues || s.nextId <= k < s.nextId + |xs|
    ensures forall i :: 0 <= i < |xs| ==>
      CreateAll(s, xs).issues[s.nextId + i] == xs[i].(id := s.nextId + i)
    ensures forall k :: k in s.issues && !(s.nextId <= k < s.nextId + |xs|) ==>
      CreateAll(s, xs).issues[k] == s.issues[k]
    decreases |xs|
  {
    if xs != [] {
      var s1 := CreateIssue(s, xs[0]).1;
      var rest := xs[1..];
      CreateAllConsecutive(s1, rest);
      assert CreateAll(s, xs) == CreateAll(s1, rest);
      forall i | 0 <= i < |xs|
        ensures CreateAll(s, xs).issues[s.nextId + i] == xs[i].(id := s.nextId + i)
      {
        if i > 0 {
          assert rest[i - 1] == xs[i];
        }
      }
    }
  }

  /** NewMockStore: the three users, the five seed issues under ids 1 to 5
      in seed order, and the counter at 6. */
  function NewMockStore(now: int): (s: Store)
    ensures s.users == SeedUsers()
    ensures s.issues.Keys == {1, 2, 3, 4, 5}
    ensures forall i :: 0 <= i < 5 ==> s.issues[i + 1] == SeedIssues(now)[i].(id := i + 1)
    ensures s.nextId == 6
    ensures Consistent(s)
  {
    var empty := Store(map[], 1, SeedUsers());
    CreateAllConsecutive(empty, SeedIssues(now));
    var s := CreateAll(empty, SeedIssues(now));
    assert forall k :: k in s.issues <==> 1 <= k < 6;
    assert forall k :: k in s.issues ==> s.issues[k].id == k by {
      forall k | k in s.issues ensures s.issues[k].id == k {
        assert s.issues[(k - 1) + 1] == SeedIssues(now)[k - 1].(id := (k - 1) + 1);
      }
    }
    s
  }

  // ------------------------------------------- 64-bit counter, as written

  /** Go's `uint` on a 64-bit platform. */
  const UintLimit: nat := 0x1_0000_0000_0000_0000

  /** CreateIssue as the Go code computes it, where `issue.ID + 1` wraps
      around at 2^64. */
  function CreateIssueUint64(s: Store, issue: Issue): (res: (Issue, Store))
    requires s.nextId < UintLimit && issue.id < UintLimit
    ensures issue.id == 0 ==> res.0.id == s.nextId
    ensures issue.id != 0 ==> res.0.id == issue.id
    ensures res.0 == issue.(id := res.0.id)
    ensures res.1.issues == s.issues[res.0.id := res.0]
    ensures res.0.id >= s.nextId ==> res.1.nextId == (res.0.id + 1) % UintLimit
    ensures res.0.id < s.nextId ==> res.1.nextId == s.nextId
    ensures res.1.nextId < UintLimit && res.0.id < UintLimit
    ensures res.1.users == s.users
  {
    var id := if issue.id == 0 then s.nextId else issue.id;
    var stored := issue.(id := id);
    var next := if id >= s.nextId then (id + 1) % UintLimit else s.nextId;
    (stored, s.(issues := s.issues[id := stored], nextId := next))
  }

  /** With the wrapping counter, storing the largest id resets the counter
      to 0, and two later id-less creations hand out id 1 again, silently
      replacing the issue already filed there. */
  lemma CreateIssueUint64ReusesIds()
    ensures var first := Issue(1, "first", "", Pending, None, 0, 0);
      var later := Issue(0, "later", "", Pending, None, 0, 0);
      var s0 := Store(map[1 := first], 2, map[]);
      var (top, s1) := CreateIssueUint64(s0, later.(id := UintLimit - 1));
      var (zero, s2) := CreateIssueUint64(s1, later);
      var (again, s3) := CreateIssueUint64(s2, later);
      && s1.nextId == 0 && s1.nextId <= top.id
      && zero.id == 0
      && again.id == 1 && 1 in s0.issues && s3.issues[1] != first
  {
  }

  /** With the unbounded counter, a creation with any id, explicit or not,
      keeps the store consistent, and the next id-less creation after it
      receives an id that is not in use. */
  lemma CreateIssueKeepsFresh(s: Store, x: Issue, y: Issue)
    requires Consistent(s) && y.id == 0
    ensures Consistent(CreateIssue(s, x).1)
    ensures CreateIssue(CreateIssue(s, x).1, y).0.id !in CreateIssue(s, x).1.issues
  {
  }
}
