/**
 * The issue tracker's store and its four request handlers on
 * `/api/issues/:project`: GET lists and filters, POST creates, PUT updates and
 * DELETE removes. The document store is an in-memory map from project name to
 * that project's ordered issue list; saving a project replaces its entry.
 */
module Tracker {
  import opened Wrappers
  import opened Sequences
  import opened Issues

  /** What a handler sends back. Every reply goes out with HTTP status 200. */
  datatype Reply =
    | IssueList(issues: seq<Issue>)  // `res.json(...)` of an array of issues
    | IssueJson(issue: Issue)        // `res.json(...)` of one issue
    | ErrorsJson(errors: string)     // `res.json({"errors": ...})`
    | Text(text: string)             // `res.send(...)` of a string
    | ListFailed                     // the GET handler's caught exception

  const RequiredFieldsMissing := "required fields missing"
  const NoUpdatedFieldSent := "no updated field sent"
  /** The PUT handler's success reply, spelled as the handler spells it. */
  const SuccessfullyUpdated := "sucessfully updated"
  /** The PUT handler's reply when saving fails: a plain string, so `${id}` stays as written. */
  const UpdateSaveFailed := "could not update ${id}"
  const IdError := "_id error"

  function CouldNotUpdate(id: string): string {
    "could not update " + id
  }

  function Deleted(id: string): string {
    "deleted " + id
  }

  function CouldNotDelete(id: string): string {
    "could not delete " + id
  }

  /**
   * The issues of the named project; for an unknown name, the empty list of
   * the project the POST handler creates.
   */
  function IssuesOf(projects: map<string, seq<Issue>>, name: string): seq<Issue> {
    if name in projects then projects[name] else []
  }

  /**
   * Whether `project.save` succeeds: the schema validates every issue of the
   * document, and `storeOk` says whether the database accepts the write.
   */
  predicate Saves(issues: seq<Issue>, storeOk: bool) {
    storeOk && AllRequired(issues)
  }

  class IssueStore {
    /** One document per project name, holding the project's issues in stored order. */
    var projects: map<string, seq<Issue>>

    ghost predicate Valid()
      reads this
    {
      forall name :: name in projects ==> WellFormed(projects[name])
    }

    constructor ()
      ensures Valid() && projects == map[]
    {
      projects := map[];
    }

    /**
     * GET: the project's issues narrowed by every query key sent, in stored
     * order; an unknown project makes the handler fail. Nothing is changed.
     */
    method List(project: string, q: Query) returns (reply: Reply)
      ensures project !in projects ==> reply == ListFailed
      ensures project in projects ==> reply == IssueList(Selection(projects[project], q))
      ensures project in projects ==> IsSubsequence(reply.issues, projects[project])
      ensures project in projects ==>
                forall x :: x in reply.issues <==> x in projects[project] && Matches(q, x)
      ensures project in projects && q == NoFilters ==> reply.issues == projects[project]
    {
      if project !in projects {
        return ListFailed;
      }
      var issues := projects[project];
      ListIsSelection(issues, q);
      SelectionIsOrderedSubsequence(issues, q);
      if q == NoFilters {
        ListWithoutFilters(issues);
      }
      reply := IssueList(ListMatching(issues, q));
    }

    /**
     * POST: build the new issue, append it to the project's list (creating the
     * project when the name is unknown) and save. When validation or the store
     * rejects the save, nothing changes and the errors object is sent.
     */
    method Post(project: string, form: NewIssueForm, id: string, now: int, storeOk: bool)
      returns (reply: Reply)
      requires Valid()
      requires id != "" && !HasId(IssuesOf(projects, project), id)
      modifies this
      ensures Valid()
      ensures var issue := NewIssue(form, id, now);
        if HasRequiredFields(issue) && storeOk then
          && reply == IssueJson(issue)
          && projects == old(projects)[project := IssuesOf(old(projects), project) + [issue]]
        else
          reply == ErrorsJson(RequiredFieldsMissing) && projects == old(projects)
    {
      var issue := NewIssue(form, id, now);
      var issues := IssuesOf(projects, project) + [issue];
      assert issues[|issues| - 1] == issue;
      if Saves(issues, storeOk) {
        projects := projects[project := issues];
        reply := IssueJson(issue);
      } else {
        reply := ErrorsJson(RequiredFieldsMissing);
      }
    }

    /**
     * PUT: with an empty body, reply at once; otherwise update every issue of
     * the project whose id matches and save. Success is reported whenever the
     * project exists and the save goes through, whether or not an id matched.
     */
    method Put(project: string, body: UpdateBody, now: int, storeOk: bool) returns (reply: Reply)
      requires Valid()
      modifies this
      ensures Valid()
      ensures body.IsEmpty() ==> reply == Text(NoUpdatedFieldSent) && projects == old(projects)
      ensures !body.IsEmpty() && project !in old(projects) ==>
                reply == Text(CouldNotUpdate(IdOf(body.id))) && projects == old(projects)
      ensures !body.IsEmpty() && project in old(projects) ==>
                if storeOk then
                  && reply == Text(SuccessfullyUpdated)
                  && projects == old(projects)[project := UpdateMatching(old(projects)[project], body, now)]
                else
                  reply == Text(UpdateSaveFailed) && projects == old(projects)
    {
      var id := IdOf(body.id);
      if body.IsEmpty() {
        return Text(NoUpdatedFieldSent);
      }
      if project !in projects {
        return Text(CouldNotUpdate(id));
      }
      var issues := UpdateMatching(projects[project], body, now);
      UpdateKeepsWellFormed(projects[project], body, now);
      if Saves(issues, storeOk) {
        projects := projects[project := issues];
        reply := Text(SuccessfullyUpdated);
      } else {
        reply := Text(UpdateSaveFailed);
      }
    }

    /**
     * DELETE: without an id, reply at once; otherwise, when the project holds
     * an issue with that id, filter it out and save. The one issue with that
     * id is cut out of the list and the rest keep their order.
     */
    method Delete(project: string, idField: Option<string>, storeOk: bool) returns (reply: Reply)
      requires Valid()
      modifies this
      ensures Valid()
      ensures IdOf(idField) == "" ==> reply == Text(IdError) && projects == old(projects)
      ensures var id := IdOf(idField);
        id != "" && !HasId(IssuesOf(old(projects), project), id) ==>
          reply == Text(CouldNotDelete(id)) && projects == old(projects)
      ensures var id := IdOf(idField);
        id != "" && HasId(IssuesOf(old(projects), project), id) ==>
          if storeOk then
            && reply == Text(Deleted(id))
            && projects == old(projects)[project := Without(old(projects)[project], id)]
            && exists k :: 0 <= k < |old(projects)[project]| && old(projects)[project][k].id == id
                 && projects[project] == old(projects)[project][..k] + old(projects)[project][k + 1..]
          else
            reply == Text(CouldNotDelete(id)) && projects == old(projects)
    {
      var id := IdOf(idField);
      if id == "" {
        return Text(IdError);
      }
      if project !in projects {
        return Text(CouldNotDelete(id));
      }
      var stored := projects[project];
      if HasId(stored, id) {
        var k :| 0 <= k < |stored| && stored[k].id == id;
        var issues := Without(stored, id);
        WithoutRemovesOne(stored, id, k);
        WithoutKeepsWellFormed(stored, id);
        if Saves(issues, storeOk) {
          projects := projects[project := issues];
          reply := Text(Deleted(id));
        } else {
          reply := Text(CouldNotDelete(id));
        }
      } else {
        reply := Text(CouldNotDelete(id));
      }
    }
  }

  /**
   * Deleting the same id twice: whatever the first request did, the second
   * one finds no issue with that id, or fails to save again, and reports
   * that it could not delete it.
   */
  method DeleteTwice(store: IssueStore, project: string, idField: Option<string>, storeOk: bool)
    returns (first: Reply, second: Reply)
    requires store.Valid()
    requires IdOf(idField) != ""
    modifies store
    ensures store.Valid()
    ensures second == Text(CouldNotDelete(IdOf(idField)))
  {
    first := store.Delete(project, idField, storeOk);
    second := store.Delete(project, idField, storeOk);
  }

  /**
   * A created issue shows up last when the project is then listed without
   * filters, after every issue stored before it.
   */
  method PostThenList(store: IssueStore, project: string, form: NewIssueForm, id: string, now: int)
    returns (created: Reply, listed: Reply)
    requires store.Valid()
    requires id != "" && !HasId(IssuesOf(store.projects, project), id)
    requires Present(form.issueTitle) && Present(form.issueText) && Present(form.createdBy)
    modifies store
    ensures created == IssueJson(NewIssue(form, id, now))
    ensures listed == IssueList(IssuesOf(old(store.projects), project) + [created.issue])
  {
    created := store.Post(project, form, id, now, true);
    listed := store.List(project, NoFilters);
  }
}
