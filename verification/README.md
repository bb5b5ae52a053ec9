# Issue tracker: store and lifecycle rules

A Dafny model of the backend of a small issue-tracking service written in Go.
Clients create, list, fetch and partially update issues. Each issue may have a
user as its assignee and moves through four statuses: PENDING, IN_PROGRESS,
COMPLETED and CANCELLED. The model covers two parts:

- **the in-memory store** `MockStore` (`backend/data/data.go`). It is a map
  from issue id to issue, a counter for the next id, and a fixed table of
  three users. Module `Data` holds the store, its operations and its seeding.
- **the lifecycle rules** inside the HTTP handlers (`backend/handler/handler.go`).
  They are pulled out as pure decisions over the store. `DecideCreate` and
  `DecideUpdate` return the issue to persist or an error kind. `HandleCreate`
  and `HandleUpdate` add the store write. A request body that fails to
  decode is `None`.

The records of `backend/models/models.go` are datatypes in module `Models`.
Status is a four-constructor enum, and the assignee is `Option<User>`. Every
field of an update request is an `Option`, so an absent `userId` is distinct
from an explicit 0. Module `Lifecycle` replays any sequence of create and
update requests. Over such runs it proves that the invariant holds, that ids
are never reused, and that terminal issues never change.

The store invariant (`Handler.Valid`) says:

- every issue is filed under its own id;
- ids lie between 1 and the counter;
- an unassigned issue is PENDING or CANCELLED;
- an assignee is a copy of a known user.

Behaviour as the code has it, where a reader might expect otherwise:

- The update handler checks the status guard (handler.go:167) before the
  assignee block (handler.go:175). The guard therefore looks at the assignee
  *as stored*. `{status: IN_PROGRESS, userId: 1}` on an unassigned issue is
  refused, even though the same request would assign a user. A reader might
  expect the guard to see the assignee after the assignment. The model
  follows the code (`Handler.GuardBlocks`).
- A request with `userId == 0` clears the assignee and forces PENDING. That
  block runs last, so it overrides any status the same request set.
- A known user id promotes a PENDING issue to IN_PROGRESS only when the
  request carries no status.
- The create handler does not set `CreatedAt` or `UpdatedAt`. The comment at
  data.go:105 says it does. The model leaves both at Go's zero time
  (`Models.ZeroTime`).
- At handler.go:56 and :186 the handler takes `&user` of the `*User` that
  `GetUserByID` already returns. As written, this does not type-check. The
  model uses the intended meaning: the looked-up user becomes the assignee.
- The merged issue keeps the stored record's own `ID`, and `UpdateIssue`
  writes under that id. In a store where the key and the id disagree, this
  write can miss and answer 500 (`InternalError`). `Data.Consistent` rules
  that out, and then the update writes under the requested id.

Time is an `int` count of seconds. `UpdateIssue` and `HandleUpdate` take the
current time `now` as a parameter, and so does `NewMockStore`, whose seeds
are dated relative to it.

## Model

| member | source | states |
|---|---|---|
| Models.ParseStatus | backend/handler/handler.go:24-31 | a status string is read as a status exactly when it is the spelling of that status, and as nothing when it spells none of the four |
| Models.IsValidStatus | backend/handler/handler.go:24-31 | a string is a valid status if and only if it is the spelling of one of the four statuses |
| Models.ParseStatusName | backend/models/models.go:18 | reading back the wire spelling of any status gives that status, so the enum and the four strings correspond one to one |
| Data.CreateIssue | backend/data/data.go:96-107 | id 0 gets the counter's value and a non-zero id is kept; the record is filed under that id, replacing any earlier one, and nothing else about the issue changes; afterwards the counter is above the id and not below its old value, it becomes the id plus one when the id was at or above it, and it is unchanged when the id was below it; users are untouched; there is no error path |
| Data.GetIssues | backend/data/data.go:111-119 | every listed issue is a stored record passing the filter, every stored record passing it is listed, and the list has as many entries as there are matching keys (the empty filter matches all) |
| Data.GetIssueByID | backend/data/data.go:122-128 | succeeds if and only if the id is a key, returning that record; otherwise NotFound |
| Data.UpdateIssue | backend/data/data.go:131-138 | an absent id is an error and changes nothing; a present one has its record replaced wholesale by the given issue stamped with `now`, and every other record, the counter and the users stay the same |
| Data.GetNextIssueID | backend/data/data.go:141-143 | the value returned is the id that CreateIssue gives the next issue arriving without one |
| Data.GetUserByID | backend/data/data.go:146-149 | a pure lookup: some user if and only if the id is in the table, and then that user |
| Data.CreateAllConsecutive | backend/data/data.go:87-89 | creating id-less issues in sequence files the i-th under counter+i, in order, keeps every earlier record and the users, and advances the counter by their number |
| Data.NewMockStore | backend/data/data.go:28-40 | the seeded store has users 1 to 3, the five seed issues under ids 1 to 5 in seed order, the counter at 6, and is consistent |
| Handler.NewMockStoreValid | backend/data/data.go:44-85 | the seed issues satisfy the store invariant (the one unassigned seed is PENDING; assignees are seeded users) |
| Handler.CheckFilter | backend/handler/handler.go:84-87 | a list filter is accepted if and only if it is empty or the spelling of a status; any other filter is a BadRequest |
| Handler.ListIssues | backend/handler/handler.go:80-98 | refuses exactly the non-empty filters that name no status; otherwise lists exactly the stored issues of the filtered status (all of them for the empty filter), with as many entries as matching keys |
| Handler.DecideCreate | backend/handler/handler.go:42-65 | refused, always as BadRequest, exactly when the body is undecodable, the title or description is empty, or a non-zero user id is unknown; an absent or 0 user id gives PENDING with no assignee, a known one gives IN_PROGRESS with that user; title and description are carried over |
| Handler.HandleCreate | backend/handler/handler.go:67-76 | a refusal answers the decision's error (always BadRequest) and leaves the store unchanged; an acceptance files the decided issue under the counter's value and advances the counter by exactly one |
| Handler.CreatePreservesValid | backend/handler/handler.go:47-67 | creation keeps the store invariant, gives the new issue an id not in use before, and keeps every existing record |
| Handler.DecideUpdate | backend/handler/handler.go:133-193 | an absent id is NotFound; a COMPLETED or CANCELLED issue is Forbidden whatever the body holds; every other refusal is BadRequest; refused exactly for an undecodable body, an unknown status name, IN_PROGRESS or COMPLETED requested while the stored issue has no assignee (even with a userId in the same request), or an unknown non-zero user; on acceptance, the stored id and timestamps are kept and absent title or description are unchanged; user 0 gives no assignee and PENDING regardless of the requested status; a known user is assigned, and the status is the requested one, else IN_PROGRESS if the issue was PENDING, else unchanged; with no userId the assignee is unchanged and the status is the requested one or the old one |
| Handler.HandleUpdate | backend/handler/handler.go:195-199 | a refusal leaves the store unchanged; an acceptance replaces only the issue's record, stamped with `now`, keeping the counter and users; in a consistent store it fails exactly when the decision does and writes under the requested id |
| Handler.UpdatePreservesValid | backend/handler/handler.go:159-193 | every update keeps the store invariant; in particular no unassigned issue ends up IN_PROGRESS or COMPLETED |
| Handler.TerminalIsFrozen | backend/handler/handler.go:139-142 | any update of a COMPLETED or CANCELLED issue answers Forbidden and leaves the store exactly as it was |
| Handler.UpdateIdempotent | backend/handler/handler.go:151-193 | applying an accepted update a second time changes no field except `updatedAt`: either it is refused or it stores the same issue again |
| Handler.Walkthrough | backend/handler/handler.go:175-179 | on the seeded store: create with user 1 gives issue 6, IN_PROGRESS under user 1; then userId 0 gives PENDING with no assignee; then a request for COMPLETED is a BadRequest and the store is unchanged |
| Lifecycle.StepPreservesValid | backend/handler/handler.go:123-199 | one create or update request keeps the invariant, never lowers the counter, never drops an issue and never changes the users |
| Lifecycle.ReplayPreservesValid | backend/data/data.go:96-138 | over any sequence of requests the invariant holds at the end, the counter has not decreased, no issue has disappeared and the users are unchanged |
| Lifecycle.CreatedIdsIncrease | backend/data/data.go:97-104 | the issues created during any run receive strictly increasing ids, each at or above the starting counter (so never in use before) and below the final counter |
| Lifecycle.TerminalStaysFrozen | backend/handler/handler.go:139-142 | once COMPLETED or CANCELLED, an issue keeps every field through any later sequence of requests |
| Data.CreateIssueUint64 | backend/data/data.go:96-107 | CreateIssue with the counter as Go's 64-bit `uint`: id 0 takes the counter and a non-zero id is kept; the record is filed under that id; when the id is at or above the counter, the counter becomes the id plus one modulo 2^64, and otherwise it is unchanged; users are untouched |
| Data.CreateIssueKeepsFresh | backend/data/data.go:96-107 | with the unbounded counter, a creation with any id, explicit or not, keeps the store consistent, and the next id-less creation receives an id not in use |
| Data.CreateIssueUint64ReusesIds | backend/data/data.go:102-104 | with the wrapping counter, storing id 2^64-1 resets the counter to 0; two later id-less creations then hand out id 1 again and replace the issue already filed there |

## Left out

- HTTP transport is not modelled: routing, the CORS middleware and preflight
  handling, `ListenAndServe` (backend/main.go), `mux.Vars`, and parsing the
  path id with `strconv.ParseUint`. The model takes the id as a `nat`.
- JSON decoding and encoding and `handleError` response writing are not
  modelled. A body that fails to decode is `None`, and errors are the kinds
  of `Models.Err`. The wire-format details are out too: `APIError`, the
  `json` tag on `UpdatedAt`, and `omitempty`.
- `GetIssueByIDHandler` adds nothing beyond `Data.GetIssueByID` and path
  parsing, so it has no separate member.
- `time.Now()` is the parameter `now`. Create sets no timestamps, and no
  ordering between `createdAt` and `updatedAt` is claimed.
- The seed issues' titles and descriptions and the users' names are not
  modelled. Empty strings stand in for them, because no rule depends on
  them.
- Concurrency is not modelled. `MockStore` has no locking, and the model is
  one sequential store.
- Data.GetIssues: the Go slice order follows map iteration, which is
  unspecified. The contract therefore fixes contents and length, not order.
  The length matches the number of matching keys. How often each record
  appears is exact only when stored records are distinct, as they are in a
  consistent store, where each issue carries its own key.
- The create handler's 500 path after `CreateIssue` is left out, because
  `CreateIssue` never returns an error.
- Ids and user ids are unbounded `nat` everywhere except
  `Data.CreateIssueUint64`. Out-of-range ids in a request body are decode
  errors and are not modelled.
- The frontend (`frontend/src/router/index.js`, `frontend/tailwind.config.js`)
  is not modelled.

## Findings

| source | as written | input that shows it | evidently intended | confidence | as-written member | corrected member |
|---|---|---|---|---|---|---|
| backend/data/data.go:102-104 | `nextIssueID = issue.ID + 1` on a 64-bit `uint` wraps to 0 when the id is 2^64-1. Later id-less creations then get ids 0, 1, 2, … again and overwrite issues already stored under those ids. | `CreateIssue` with `ID = 18446744073709551615` on a store holding issue 1, then two `CreateIssue` calls with `ID = 0`: the second gets id 1 and replaces issue 1 | the counter stays above every stored id, so fresh ids are never reused | not executed; reachable only by a caller of the store that passes an explicit maximal id, since the handlers always pass id 0 | Data.CreateIssueUint64ReusesIds | Data.CreateIssue |

The rest of the model uses `Data.CreateIssue`, with an unbounded counter.
Its contract states that the counter is above the returned id.
`Data.CreateIssueKeepsFresh` shows the next id-less creation gets an unused
id, even after an explicit one.
`Lifecycle.CreatedIdsIncrease` proves that, over any run, created ids are
fresh and strictly increasing.
