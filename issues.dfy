/**
 * The issue record and the pure part of the four request handlers of the
 * issue tracker: building a new issue (POST), rewriting the issues that match
 * an id (PUT), removing an issue by id (DELETE) and narrowing a project's
 * issues by the query's filters (GET).
 */
module Issues {
  import opened Wrappers
  import opened Sequences

  /**
   * One issue embedded in a project document. `id` stands for the string form
   * of the store's ObjectId; timestamps are milliseconds since the epoch.
   */
  datatype Issue = Issue(
    id: string,
    issueTitle: string,
    issueText: string,
    createdBy: string,
    assignedTo: string,
    statusText: string,
    open: bool,
    createdOn: int,
    updatedOn: int)

  /** A request string is truthy in JavaScript when it is present and not empty. */
  predicate Present(v: Option<string>) {
    v.Some? && v.value != ""
  }

  /** The handlers' `v ? v : current` idiom. */
  function Truthy(v: Option<string>, current: string): string {
    if Present(v) then v.value else current
  }

  /** The schema's `required: true` on title, text and author: each is a non-empty string. */
  predicate HasRequiredFields(x: Issue) {
    x.issueTitle != "" && x.issueText != "" && x.createdBy != ""
  }

  /** Validation of a whole project document, which checks every embedded issue. */
  predicate AllRequired(s: seq<Issue>) {
    forall i :: 0 <= i < |s| ==> HasRequiredFields(s[i])
  }

  /** Some issue of `s` carries the id `id` (the DELETE handler's existence test). */
  predicate HasId(s: seq<Issue>, id: string) {
    exists i :: 0 <= i < |s| && s[i].id == id
  }

  predicate DistinctIds(s: seq<Issue>) {
    forall i, j :: 0 <= i < j < |s| ==> s[i].id != s[j].id
  }

  /**
   * What every stored project's issue list satisfies: each issue passed
   * validation, and each carries its own non-empty id.
   */
  ghost predicate WellFormed(s: seq<Issue>) {
    && AllRequired(s)
    && (forall i :: 0 <= i < |s| ==> s[i].id != "")
    && DistinctIds(s)
  }

  // ---------------------------------------------------------------- POST

  /** The body of a POST request; a field the client did not send is `None`. */
  datatype NewIssueForm = NewIssueForm(
    issueTitle: Option<string>,
    issueText: Option<string>,
    createdBy: Option<string>,
    assignedTo: Option<string>,
    statusText: Option<string>)

  /**
   * The record the POST handler builds before saving. A missing required
   * field is represented by the empty string: validation rejects both alike,
   * so such a record is never stored nor returned.
   */
  function NewIssue(form: NewIssueForm, id: string, now: int): (x: Issue)
    ensures x.id == id && x.open
    ensures x.createdOn == now && x.updatedOn == now
    ensures form.issueTitle.Some? ==> x.issueTitle == form.issueTitle.value
    ensures form.issueText.Some? ==> x.issueText == form.issueText.value
    ensures form.createdBy.Some? ==> x.createdBy == form.createdBy.value
    ensures Present(form.assignedTo) ==> x.assignedTo == form.assignedTo.value
    ensures !Present(form.assignedTo) ==> x.assignedTo == ""
    ensures Present(form.statusText) ==> x.statusText == form.statusText.value
    ensures !Present(form.statusText) ==> x.statusText == ""
    ensures HasRequiredFields(x) <==>
              Present(form.issueTitle) && Present(form.issueText) && Present(form.createdBy)
  {
    Issue(
      id,
      form.issueTitle.GetOr(""),
      form.issueText.GetOr(""),
      form.createdBy.GetOr(""),
      Truthy(form.assignedTo, ""),
      Truthy(form.statusText, ""),
      true,
      now,
      now)
  }

  // ---------------------------------------------------------------- PUT

  /** The body of a PUT request; a field the client did not send is `None`. */
  datatype UpdateBody = UpdateBody(
    id: Option<string>,
    issueTitle: Option<string>,
    issueText: Option<string>,
    createdBy: Option<string>,
    assignedTo: Option<string>,
    statusText: Option<string>,
    open: Option<bool>)
  {
    /** The request body has no key at all. */
    predicate IsEmpty() {
      && id.None? && issueTitle.None? && issueText.None? && createdBy.None?
      && assignedTo.None? && statusText.None? && open.None?
    }
  }

  /** The id a PUT or DELETE request targets: the `_id` field when truthy, else the empty string. */
  function IdOf(v: Option<string>): (id: string)
    ensures id == "" <==> !Present(v)
  {
    Truthy(v, "")
  }

  /**
   * The update applied to one matched issue: `updated_on` becomes `now`, each
   * string field is overwritten only by a truthy value, and `open` whenever
   * it is sent, `false` included.
   */
  function ApplyUpdate(x: Issue, b: UpdateBody, now: int): (y: Issue)
    ensures y.id == x.id && y.createdOn == x.createdOn && y.updatedOn == now
    ensures y.issueTitle == if Present(b.issueTitle) then b.issueTitle.value else x.issueTitle
    ensures y.issueText == if Present(b.issueText) then b.issueText.value else x.issueText
    ensures y.createdBy == if Present(b.createdBy) then b.createdBy.value else x.createdBy
    ensures y.assignedTo == if Present(b.assignedTo) then b.assignedTo.value else x.assignedTo
    ensures y.statusText == if Present(b.statusText) then b.statusText.value else x.statusText
    ensures y.open == if b.open.Some? then b.open.value else x.open
    ensures HasRequiredFields(x) ==> HasRequiredFields(y)
  {
    x.(
      updatedOn := now,
      issueTitle := Truthy(b.issueTitle, x.issueTitle),
      issueText := Truthy(b.issueText, x.issueText),
      createdBy := Truthy(b.createdBy, x.createdBy),
      assignedTo := Truthy(b.assignedTo, x.assignedTo),
      statusText := Truthy(b.statusText, x.statusText),
      open := b.open.GetOr(x.open))
  }

  /** Sending the same update again at the same instant changes nothing more. */
  lemma ApplyUpdateIdempotent(x: Issue, b: UpdateBody, now: int)
    ensures ApplyUpdate(ApplyUpdate(x, b, now), b, now) == ApplyUpdate(x, b, now)
  {
  }

  /**
   * The PUT handler's map over the issue list: every issue whose id equals the
   * request's id is updated, every other issue is kept as it is, and the
   * length and order of the list do not change.
   */
  function UpdateMatching(s: seq<Issue>, b: UpdateBody, now: int): (r: seq<Issue>)
    ensures |r| == |s|
    ensures forall i :: 0 <= i < |s| ==>
              r[i] == if s[i].id == IdOf(b.id) then ApplyUpdate(s[i], b, now) else s[i]
  {
    if s == [] then []
    else [if s[0].id == IdOf(b.id) then ApplyUpdate(s[0], b, now) else s[0]]
         + UpdateMatching(s[1..], b, now)
  }

  /** An update that matches no issue leaves the list as it was. */
  lemma UpdateWithoutMatch(s: seq<Issue>, b: UpdateBody, now: int)
    requires !HasId(s, IdOf(b.id))
    ensures UpdateMatching(s, b, now) == s
  {
  }

  /**
   * An update keeps every issue valid and keeps the ids in place, so the list
   * stays well formed.
   */
  lemma UpdateKeepsWellFormed(s: seq<Issue>, b: UpdateBody, now: int)
    requires WellFormed(s)
    ensures WellFormed(UpdateMatching(s, b, now))
    ensures forall i :: 0 <= i < |s| ==> UpdateMatching(s, b, now)[i].id == s[i].id
  {
  }

  // ---------------------------------------------------------------- DELETE

  /** The DELETE handler's filter: every issue whose id differs from `id`, in order. */
  function Without(s: seq<Issue>, id: string): (r: seq<Issue>)
    ensures !HasId(r, id)
    ensures forall x :: x in r <==> x in s && x.id != id
  {
    var r := Keep(s, (x: Issue) => x.id != id);
    KeepMembers(s, (x: Issue) => x.id != id);
    assert forall i :: 0 <= i < |r| ==> r[i] in r;
    r
  }

  /** Removing by id keeps the remaining issues in their stored order. */
  lemma WithoutIsSubsequence(s: seq<Issue>, id: string)
    ensures IsSubsequence(Without(s, id), s)
  {
    KeepIsSubsequence(s, (x: Issue) => x.id != id);
  }

  /**
   * When ids are distinct, removing the id of the issue at `k` removes exactly
   * that issue and nothing else.
   */
  lemma WithoutRemovesOne(s: seq<Issue>, id: string, k: int)
    requires DistinctIds(s)
    requires 0 <= k < |s| && s[k].id == id
    ensures Without(s, id) == s[..k] + s[k + 1..]
  {
    KeepCut(s, (x: Issue) => x.id != id, k);
  }

  /** Removing an id that no issue has leaves the list as it was. */
  lemma WithoutAbsent(s: seq<Issue>, id: string)
    requires !HasId(s, id)
    ensures Without(s, id) == s
  {
    KeepAll(s, (x: Issue) => x.id != id);
  }

  /** Removing an issue keeps the list well formed. */
  lemma WithoutKeepsWellFormed(s: seq<Issue>, id: string)
    requires WellFormed(s)
    ensures WellFormed(Without(s, id))
  {
    if k :| 0 <= k < |s| && s[k].id == id {
      WithoutRemovesOne(s, id, k);
      var r := Without(s, id);
      assert forall i :: 0 <= i < |r| ==> r[i] == if i < k then s[i] else s[i + 1];
    } else {
      WithoutAbsent(s, id);
    }
  }

  // ---------------------------------------------------------------- GET

  /**
   * A date given in the query, as `new Date(...)` reads it: a valid instant in
   * milliseconds, or an invalid date.
   */
  datatype DateQuery = ParsedAs(ms: int) | InvalidDate

  /** The query string of a GET request; a key the client did not send is `None`. */
  datatype Query = Query(
    issueTitle: Option<string>,
    issueText: Option<string>,
    createdBy: Option<string>,
    assignedTo: Option<string>,
    statusText: Option<string>,
    createdOn: Option<DateQuery>,
    updatedOn: Option<DateQuery>,
    open: Option<string>)

  const NoFilters := Query(None, None, None, None, None, None, None, None)

  /**
   * The date filters compare the string forms of the stored date and the
   * query's date. The string form shows whole seconds, so two valid dates print
   * alike exactly when they fall in the same second; an invalid date prints as
   * "Invalid Date" and never matches a stored date.
   */
  predicate SameDateString(stored: int, d: DateQuery) {
    d.ParsedAs? && stored / 1000 == d.ms / 1000
  }

  function LowerChar(c: char): char {
    if 'A' <= c <= 'Z' then (c as int + 32) as char else c
  }

  function Lower(s: string): (r: string)
    ensures |r| == |s|
    ensures forall i :: 0 <= i < |s| ==> r[i] == LowerChar(s[i])
  {
    seq(|s|, i requires 0 <= i < |s| => LowerChar(s[i]))
  }

  /** The `open` query key counts as `true` iff it lower-cases to "true". */
  predicate OpenQuery(text: string) {
    Lower(text) == "true"
  }

  /**
   * The `open` query key counts as `true` exactly when it spells "true" in any
   * mix of upper and lower case, and as `false` for every other text.
   */
  lemma OpenQueryCaseInsensitive(t: string)
    ensures OpenQuery(t) <==>
              && |t| == 4
              && t[0] in {'t', 'T'} && t[1] in {'r', 'R'}
              && t[2] in {'u', 'U'} && t[3] in {'e', 'E'}
  {
  }

  /** One equality test of the GET handler's filter chain. */
  datatype Filter =
    | TitleIs(title: string)
    | TextIs(text: string)
    | CreatorIs(creator: string)
    | AssigneeIs(assignee: string)
    | StatusIs(status: string)
    | CreatedOnIs(created: DateQuery)
    | UpdatedOnIs(updated: DateQuery)
    | OpenIs(open: bool)

  predicate Holds(f: Filter, x: Issue) {
    match f
    case TitleIs(t) => x.issueTitle == t
    case TextIs(t) => x.issueText == t
    case CreatorIs(c) => x.createdBy == c
    case AssigneeIs(a) => x.assignedTo == a
    case StatusIs(st) => x.statusText == st
    case CreatedOnIs(d) => SameDateString(x.createdOn, d)
    case UpdatedOnIs(d) => SameDateString(x.updatedOn, d)
    case OpenIs(o) => x.open == o
  }

  /** For each query key in the order the handler tests them, the filter it asks for, if sent. */
  function Requested(q: Query): seq<Option<Filter>> {
    [ if q.issueTitle.Some? then Some(TitleIs(q.issueTitle.value)) else None,
      if q.issueText.Some? then Some(TextIs(q.issueText.value)) else None,
      if q.createdBy.Some? then Some(CreatorIs(q.createdBy.value)) else None,
      if q.assignedTo.Some? then Some(AssigneeIs(q.assignedTo.value)) else None,
      if q.statusText.Some? then Some(StatusIs(q.statusText.value)) else None,
      if q.createdOn.Some? then Some(CreatedOnIs(q.createdOn.value)) else None,
      if q.updatedOn.Some? then Some(UpdatedOnIs(q.updatedOn.value)) else None,
      if q.open.Some? then Some(OpenIs(OpenQuery(q.open.value))) else None ]
  }

  /** The filters that were actually sent, in order. */
  function Supplied(opts: seq<Option<Filter>>): seq<Filter> {
    if opts == [] then []
    else (if opts[0].Some? then [opts[0].value] else []) + Supplied(opts[1..])
  }

  function Filters(q: Query): seq<Filter> {
    Supplied(Requested(q))
  }

  /** The GET handler's chain: each filter narrows the result of the previous one. */
  function Chain(s: seq<Issue>, fs: seq<Filter>): seq<Issue>
    decreases |fs|
  {
    if fs == [] then s
    else Chain(Keep(s, (x: Issue) => Holds(fs[0], x)), fs[1..])
  }

  /** The GET handler's result for a project's issue list. */
  function ListMatching(s: seq<Issue>, q: Query): seq<Issue> {
    Chain(s, Filters(q))
  }

  /** The reference meaning of a query: every key sent is equal to the issue's field. */
  predicate Matches(q: Query, x: Issue) {
    && (q.issueTitle.Some? ==> x.issueTitle == q.issueTitle.value)
    && (q.issueText.Some? ==> x.issueText == q.issueText.value)
    && (q.createdBy.Some? ==> x.createdBy == q.createdBy.value)
    && (q.assignedTo.Some? ==> x.assignedTo == q.assignedTo.value)
    && (q.statusText.Some? ==> x.statusText == q.statusText.value)
    && (q.createdOn.Some? ==> SameDateString(x.createdOn, q.createdOn.value))
    && (q.updatedOn.Some? ==> SameDateString(x.updatedOn, q.updatedOn.value))
    && (q.open.Some? ==> x.open == OpenQuery(q.open.value))
  }

  /** The issues of `s` that match every key of `q`, in stored order. */
  function Selection(s: seq<Issue>, q: Query): seq<Issue> {
    Keep(s, (x: Issue) => Matches(q, x))
  }

  predicate AllHold(fs: seq<Filter>, x: Issue) {
    forall i :: 0 <= i < |fs| ==> Holds(fs[i], x)
  }

  lemma AllHoldAppend(a: seq<Filter>, b: seq<Filter>, x: Issue)
    ensures AllHold(a + b, x) <==> AllHold(a, x) && AllHold(b, x)
  {
    assert forall i :: 0 <= i < |a| ==> (a + b)[i] == a[i];
    assert forall i :: 0 <= i < |b| ==> (a + b)[|a| + i] == b[i];
  }

  /** Every filter that was sent holds of `x`. */
  predicate AllSentHold(opts: seq<Option<Filter>>, x: Issue) {
    forall i :: 0 <= i < |opts| && opts[i].Some? ==> Holds(opts[i].value, x)
  }

  lemma {:induction false} AllHoldSupplied(opts: seq<Option<Filter>>, x: Issue)
    ensures AllHold(Supplied(opts), x) <==> AllSentHold(opts, x)
  {
    if opts != [] {
      AllHoldSupplied(opts[1..], x);
      var head := if opts[0].Some? then [opts[0].value] else [];
      AllHoldAppend(head, Supplied(opts[1..]), x);
      assert forall i :: 0 <= i < |opts| - 1 ==> opts[1..][i] == opts[i + 1];
      assert AllSentHold(opts, x) <==>
               (opts[0].Some? ==> Holds(opts[0].value, x)) && AllSentHold(opts[1..], x);
    }
  }

  /** The filters a query asks for mean, together, that the issue matches the query. */
  lemma RequestedMeansMatches(q: Query, x: Issue)
    ensures AllSentHold(Requested(q), x) <==> Matches(q, x)
  {
    var r := Requested(q);
    assert AllSentHold(r, x) <==>
      && (r[0].Some? ==> Holds(r[0].value, x))
      && (r[1].Some? ==> Holds(r[1].value, x))
      && (r[2].Some? ==> Holds(r[2].value, x))
      && (r[3].Some? ==> Holds(r[3].value, x))
      && (r[4].Some? ==> Holds(r[4].value, x))
      && (r[5].Some? ==> Holds(r[5].value, x))
      && (r[6].Some? ==> Holds(r[6].value, x))
      && (r[7].Some? ==> Holds(r[7].value, x));
  }

  /** A chain of filters is one filter by their conjunction. */
  lemma {:induction false} ChainIsConjunction(s: seq<Issue>, fs: seq<Filter>)
    ensures Chain(s, fs) == Keep(s, (x: Issue) => AllHold(fs, x))
    decreases |fs|
  {
    if fs == [] {
      KeepAll(s, (x: Issue) => AllHold(fs, x));
    } else {
      var first := (x: Issue) => Holds(fs[0], x);
      ChainIsConjunction(Keep(s, first), fs[1..]);
      forall x: Issue ensures AllHold(fs, x) == (Holds(fs[0], x) && AllHold(fs[1..], x)) {
        assert forall i :: 0 <= i < |fs| - 1 ==> fs[1..][i] == fs[i + 1];
      }
      KeepKeep(s, first, (x: Issue) => AllHold(fs[1..], x), (x: Issue) => AllHold(fs, x));
    }
  }

  /**
   * The handler's chain of filters returns exactly the issues that match every
   * key sent, in stored order.
   */
  lemma ListIsSelection(s: seq<Issue>, q: Query)
    ensures ListMatching(s, q) == Selection(s, q)
  {
    ChainIsConjunction(s, Filters(q));
    forall x: Issue ensures AllHold(Filters(q), x) == Matches(q, x) {
      AllHoldSupplied(Requested(q), x);
      RequestedMeansMatches(q, x);
    }
    KeepSame(s, (x: Issue) => AllHold(Filters(q), x), (x: Issue) => Matches(q, x));
  }

  /** The selection keeps stored order, and each matching issue as often as it is stored. */
  lemma SelectionIsOrderedSubsequence(s: seq<Issue>, q: Query)
    ensures IsSubsequence(Selection(s, q), s)
    ensures forall x :: x in Selection(s, q) <==> x in s && Matches(q, x)
    ensures forall x :: multiset(Selection(s, q))[x] == if Matches(q, x) then multiset(s)[x] else 0
  {
    KeepIsSubsequence(s, (x: Issue) => Matches(q, x));
    KeepMembers(s, (x: Issue) => Matches(q, x));
    KeepCounts(s, (x: Issue) => Matches(q, x));
  }

  /** With no query keys, the handler returns the whole list as stored. */
  lemma ListWithoutFilters(s: seq<Issue>)
    ensures ListMatching(s, NoFilters) == s
    ensures Selection(s, NoFilters) == s
  {
    KeepAll(s, (x: Issue) => Matches(NoFilters, x));
  }

  /**
   * The functional test's two filters, `open=true` and an assignee: exactly
   * the open issues with that assignee are returned.
   */
  lemma ListOpenAndAssignee(s: seq<Issue>, who: string)
    ensures var q := NoFilters.(open := Some("true"), assignedTo := Some(who));
      forall x :: x in ListMatching(s, q) <==> x in s && x.open && x.assignedTo == who
  {
    var q := NoFilters.(open := Some("true"), assignedTo := Some(who));
    assert Lower("true") == "true";
    ListIsSelection(s, q);
    KeepMembers(s, (x: Issue) => Matches(q, x));
  }
}
