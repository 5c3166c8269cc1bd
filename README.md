# Issue tracker: a Dafny model of the request handlers

The issue tracker is a small HTTP service. It keeps "issues" grouped under named
"projects". There is one document per project, holding the project's issues in the
order they were stored. Four handlers on `/api/issues/:project` do the work:

- GET lists a project's issues, narrowed by query keys. Each key is an equality filter,
  and the filters are ANDed.
- POST creates an issue and appends it. A project that does not exist yet is created.
- PUT rewrites the fields of the issues whose id matches the request's `_id`.
- DELETE removes the issue with the request's `_id`.

This project models those handlers over an in-memory store. The store is a class
`IssueStore` whose field `projects` maps a project name to its `seq<Issue>`. Each
mutating handler replaces that project's entry, the way the handler saves the document.
The pure logic behind each handler lives in functions over sequences:

- building the new record;
- the per-issue update and the map over the list;
- the filter that deletes;
- the chain of filters that lists.

Lemmas state what these functions promise. Every handler returns a `Reply` value in
place of the HTTP response.

Files:

- `wrappers.dfy`: `Option`, for request fields that may be missing.
- `sequences.dfy`: `Keep`, the model of JavaScript's array `filter`. It comes with its
  order, membership and multiplicity lemmas, and with `IsSubsequence`.
- `issues.dfy`: the `Issue` record and the required-field rule. It also holds the POST
  record builder, the PUT update, the DELETE filter and the GET query and filter chain,
  with their lemmas.
- `tracker.dfy`: the reply strings, the `IssueStore` class with `List`, `Post`, `Put`
  and `Delete`, and two client methods.

Inputs that come from outside the handlers are parameters:

- `now`: the current time, in milliseconds.
- `id`: the new issue's ObjectId, which must not be in use in that project.
- `storeOk`: whether the database accepts a write. This is on top of schema validation,
  which the model does check.

The store invariant `Valid()` says three things about every stored project: every issue
has a non-empty title, text and author (the schema's required fields), every id is
non-empty, and ids are distinct within the project. POST, PUT and DELETE all preserve it.

In these places the model follows the code. The first two replies differ from the PUT
handler's own comment (routes/api.js:139-145), which promises "successfully updated"
and "could not update " followed by the id:

- The PUT success reply is spelled `"sucessfully updated"`.
- PUT's save-failure reply is the literal text `"could not update ${id}"`, with no id
  filled in.
- PUT reports success whenever the project exists and the save goes through, even if no
  issue has the id (`Issues.UpdateWithoutMatch`).
- The date filters compare the string forms of two dates. Those strings show whole
  seconds, so the model compares timestamps by the second, not by exact equality.
- POST returns the issue it appended. The code searches the saved list by title,
  author and update-time object; that search finds the same issue.

## Model

| member | source | states |
|---|---|---|
| `Tracker.IssueStore.List` | routes/api.js:50-90 | An unknown project gives the error outcome. Otherwise the reply is exactly the project's issues that match every query key sent: an order-preserving subsequence that contains an issue iff it is stored and matches. With no keys it is the whole stored list. The store is not modified. |
| `Tracker.IssueStore.Post` | routes/api.js:98-136 | If the new record has its three required fields and the store accepts the write, the reply is that record. The project's list becomes the old list (or `[]` for an unknown name) with the record appended, and all other projects are unchanged. Otherwise the reply is `{"errors":"required fields missing"}` and the store is unchanged. The invariant is kept. |
| `Tracker.IssueStore.Put` | routes/api.js:146-185 | An empty body gives "no updated field sent" and an unchanged store. An unknown project gives "could not update <id>" and an unchanged store. Otherwise the project's list becomes `UpdateMatching` of it and the reply is "sucessfully updated", whether or not an id matched. If the save fails, the reply is the literal "could not update ${id}" and the store is unchanged. The invariant is kept. |
| `Tracker.IssueStore.Delete` | routes/api.js:192-231 | A missing or empty `_id` gives "_id error". A project that is unknown or has no issue with that id gives "could not delete <id>". In both cases the store is unchanged. Otherwise a saved delete replies "deleted <id>", and the list becomes the old one with exactly that one issue cut out, the rest in order. |
| `Tracker.DeleteTwice` | routes/api.js:209-227 | When the same non-empty id is deleted twice, the second reply is always "could not delete <id>". |
| `Tracker.PostThenList` | routes/api.js:115-134 | After a successful create, listing the project without filters gives the earlier issues in stored order, followed by the new issue. |
| `Issues.NewIssue` | routes/api.js:103-113 | The new record has the given id, `open` = true and `created_on` = `updated_on` = now. Title, text and author are copied from the form. `assigned_to` and `status_text` are copied when truthy and are "" otherwise. The record passes validation iff title, text and author were all sent non-empty. |
| `Issues.IdOf` | routes/api.js:150 | The targeted id is empty exactly when `_id` is missing or empty. |
| `Issues.ApplyUpdate` | routes/api.js:167-175 | The update sets `updated_on` to now and keeps the id and `created_on`. Each string field is overwritten only by a non-empty sent value. `open` is overwritten whenever it is sent, `false` included. The required fields never become empty. |
| `Issues.ApplyUpdateIdempotent` | routes/api.js:167-175 | Applying the same update twice at the same instant gives the same issue as applying it once. |
| `Issues.UpdateMatching` | routes/api.js:166-177 | The length and order of the list are unchanged. Position i holds the updated issue if its id matches and the original issue otherwise. |
| `Issues.UpdateWithoutMatch` | routes/api.js:166-177 | An update whose id no issue has leaves the list equal to the original. |
| `Issues.UpdateKeepsWellFormed` | routes/api.js:166-177 | The update keeps every id in its place and preserves the required-field and distinct-id invariant. |
| `Issues.Without` | routes/api.js:217 | No issue in the result has the id. An issue is in the result iff it is in the input and has a different id. |
| `Issues.WithoutIsSubsequence` | routes/api.js:217 | Deleting keeps the remaining issues in their stored order. |
| `Issues.WithoutRemovesOne` | routes/api.js:216-217 | With distinct ids, deleting the id of the issue at position k gives exactly `s[..k] + s[k+1..]`. |
| `Issues.WithoutAbsent` | routes/api.js:216-217 | Deleting an id that no issue has leaves the list unchanged. |
| `Issues.WithoutKeepsWellFormed` | routes/api.js:216-218 | Deleting preserves the required-field and distinct-id invariant. |
| `Issues.OpenQueryCaseInsensitive` | routes/api.js:82-84 | The `open` query key asks for open issues exactly when it is "true" in any mix of upper and lower case; every other text asks for closed issues. |
| `Issues.RequestedMeansMatches` | routes/api.js:59-85 | The filters requested by a query's keys all hold of an issue iff the issue matches every key sent. |
| `Issues.ChainIsConjunction` | routes/api.js:59-85 | Applying filters one after another is the same as one filter by their conjunction. |
| `Issues.ListIsSelection` | routes/api.js:57-86 | The handler's chain of eight conditional filters returns exactly the stored issues that match every key sent. |
| `Issues.SelectionIsOrderedSubsequence` | routes/api.js:57-85 | The GET result is a subsequence of the stored list. It contains an issue iff the issue is stored and matches. Each matching issue appears as often as it is stored. |
| `Issues.ListWithoutFilters` | routes/api.js:57-86 | With no query keys, both the handler's chain and the reference selection return the stored list unchanged and in stored order. |
| `Issues.ListOpenAndAssignee` | tests/2_functional-tests.js:164-178 | With `open=true` and `assigned_to` set, an issue is returned iff it is stored, open and has that assignee. |
| `Sequences.Keep` | routes/api.js:60 | Filtering never lengthens the list. |
| `Sequences.KeepMembers` | routes/api.js:60 | An element is in a filtered list iff it is in the input and satisfies the predicate. |
| `Sequences.KeepCounts` | routes/api.js:60 | Filtering keeps each satisfying element exactly as often as it occurs and drops every other element. |
| `Sequences.KeepIsSubsequence` | routes/api.js:60 | Filtering returns an order-preserving subsequence of its input. |
| `Sequences.KeepCut` | routes/api.js:217 | If only the element at k fails the predicate, filtering cuts out exactly that element. |

## Left out

- Connecting to the database, its events and the construction of the schema and model
  (routes/api.js:11-43) are left out. Only the schema's required-field rule is kept, as
  `HasRequiredFields` and `AllRequired`.
- Express routing, request and response plumbing and console logging are left out. Each
  handler returns a `Reply` value instead.
- Failures of the project lookup (routes/api.js:117-119, 159-161, 204-206) are left out.
  They are database I/O.
- A save that the database rejects for reasons other than validation is the `storeOk`
  parameter. The model gives no reason for such a rejection.
- ObjectId generation is left out. The id is a parameter that must be non-empty and not
  used in that project yet.
- Clock reads are the `now` parameter. Because `now` is arbitrary, `created_on <=
  updated_on` is not part of the invariant. An update keeps `created_on` and sets
  `updated_on` to `now`.
- `NewIssue`: POST reads the clock twice (routes/api.js:107-108), so `created_on` and
  `updated_on` can differ by a tick. The model deliberately uses one `now` for both.
- Parsing a query date string into a `Date` is left out. The query carries the parsed
  instant, or `InvalidDate`.
- GET on an unknown project throws, and the handler catches the error. The reply text
  of that catch is not modelled; the reply is only the `ListFailed` outcome.
- Request values are single strings in the model. Query keys sent several times (which
  arrive as arrays) and non-string body values are left out.
- Body keys other than the modelled fields are left out. In the code, such a key alone
  also makes a PUT body non-empty.
- PUT's `open` is taken as a boolean. The database library's conversion of strings such
  as "false", and the save failure when that conversion fails, are left out.
- Lower-casing the `open` query key handles ASCII letters only. This gives the same
  answer for the comparison with "true", because no other character lower-cases to one
  of its letters (`Issues.OpenQueryCaseInsensitive` states the resulting test).
- A POST body without a required field is modelled with that field as the empty string.
  Validation rejects both alike, so such a record is never stored or returned.
- Concurrent requests on the same project document are left out.
