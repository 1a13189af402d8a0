/** The public project queries and mutations, on behalf of a caller whose
    organization is `organizationId`. The projects functions file carries its
    own copy of `getProjectHelper`, identical to the shared helper, so both
    are `ProjectHelpers.GetProjectHelper`; reading one project is that helper. */
module ProjectFunctions {
  import opened Wrappers
  import opened Seqs
  import opened Schema
  import opened Database
  import opened ProjectHelpers

  /** The document `createProject` inserts: the arguments plus the caller's
      organization. */
  function NewProject(id: Id, f: ProjectFields, organizationId: string): Project {
    Project(id, f.category, f.name, f.objective, organizationId, f.situation, f.targetAudience)
  }

  /** `createProject`: inserts the project and returns its id. */
  method CreateProject(db: Db, organizationId: string, f: ProjectFields) returns (id: Id)
    requires db.Valid()
    modifies db
    ensures db.Valid()
    ensures id == old(db.tables.nextId)
    ensures db.tables == old(db.tables).(projects := old(db.tables.projects) + [NewProject(id, f, organizationId)],
                                         nextId := id + 1)
  {
    id := db.InsertProject(NewProject(0, f, organizationId));
  }

  /** The caller reads a project it has just created back, unchanged. */
  lemma CreatedProjectReadable(t: Tables, organizationId: string, f: ProjectFields)
    requires t.Valid()
    ensures var p := NewProject(t.nextId, f, organizationId);
            GetProjectHelper(t.(projects := t.projects + [p], nextId := t.nextId + 1), organizationId, t.nextId) == Ok(p)
  {
    GetAppendFresh(t.projects, ProjectKey, NewProject(t.nextId, f, organizationId));
  }

  /** The search condition of `listProjects`: the name contains the search,
      ignoring case. The category and the other fields are not searched. */
  function ProjectMatches(search: string): Project -> bool {
    (p: Project) => ContainsIgnoringCase(p.name, search)
  }

  /** `listProjects`: the organization's projects in the requested order,
      those whose name matches the search. */
  function ListProjects(t: Tables, organizationId: string, search: string, sorting: Order): (r: seq<Project>)
    ensures forall p | p in r ::
              p in t.projects && p.organizationId == organizationId && ContainsIgnoringCase(p.name, search)
    ensures forall p | p in t.projects && p.organizationId == organizationId ::
              ContainsIgnoringCase(p.name, search) ==> p in r
    ensures Subseq(r, InOrder(t.ProjectsByOrganization(organizationId), sorting))
  {
    Filter(InOrder(t.ProjectsByOrganization(organizationId), sorting), ProjectMatches(search))
  }

  /** The empty search lists every project of the organization. */
  lemma ListProjectsEmptySearch(t: Tables, organizationId: string, sorting: Order)
    ensures ListProjects(t, organizationId, "", sorting) == InOrder(t.ProjectsByOrganization(organizationId), sorting)
  {
    var s := InOrder(t.ProjectsByOrganization(organizationId), sorting);
    forall i | 0 <= i < |s| ensures ProjectMatches("")(s[i]) {
      ContainsEmpty(s[i].name);
    }
    FilterKeepsAll(s, ProjectMatches(""));
  }

  /** Listing newest first gives the oldest-first list reversed. */
  lemma ListProjectsDescending(t: Tables, organizationId: string, search: string)
    ensures ListProjects(t, organizationId, search, Desc) == Reverse(ListProjects(t, organizationId, search, Asc))
  {
    FilterReverse(t.ProjectsByOrganization(organizationId), ProjectMatches(search));
  }

  /** The search ignores case: a lowered search lists the same projects. */
  lemma ListProjectsIgnoresCase(t: Tables, organizationId: string, search: string, sorting: Order)
    ensures ListProjects(t, organizationId, Lower(search), sorting) == ListProjects(t, organizationId, search, sorting)
  {
    var s := InOrder(t.ProjectsByOrganization(organizationId), sorting);
    forall i | 0 <= i < |s| ensures ProjectMatches(Lower(search))(s[i]) == ProjectMatches(search)(s[i]) {
      ContainsLowered(s[i].name, search);
    }
    FilterSame(s, ProjectMatches(Lower(search)), ProjectMatches(search));
  }

  /** `editProject`: the tenant check, then `db.patch` of the editable fields. */
  function EditProjectRun(t: Tables, organizationId: string, id: Id, f: ProjectFields): (r: Run)
    ensures r.outcome == Pass <==> GetProjectHelper(t, organizationId, id).Ok?
    ensures r.outcome.Fail? ==> r == Run(Fail(GetProjectHelper(t, organizationId, id).error), t)
    ensures r.outcome == Pass ==> r.tables == t.(projects := PatchProject(t.projects, id, f))
  {
    match GetProjectHelper(t, organizationId, id)
    case Err(e) => Run(Fail(e), t)
    case Ok(_) => Run(Pass, t.(projects := PatchProject(t.projects, id, f)))
  }

  method EditProject(db: Db, organizationId: string, id: Id, f: ProjectFields) returns (r: Outcome<Error>)
    requires db.Valid()
    modifies db
    ensures db.Valid()
    ensures var run := EditProjectRun(old(db.tables), organizationId, id, f);
            r == run.outcome && db.tables == run.tables
  {
    var check := GetProjectHelper(db.tables, organizationId, id);
    if check.Err? {
      return Fail(check.error);
    }
    var _ := db.PatchProjectFields(id, f);
    r := Pass;
  }

  /** After an edit the caller reads back the project with the new fields, its
      id and organization unchanged; every other project reads as before. */
  lemma EditedProjectKeepsOrganization(t: Tables, organizationId: string, id: Id, f: ProjectFields,
                                       other: string, j: Id)
    requires EditProjectRun(t, organizationId, id, f).outcome == Pass
    ensures var before := GetProjectHelper(t, organizationId, id).value;
            var after := EditProjectRun(t, organizationId, id, f).tables;
            && GetProjectHelper(after, organizationId, id) == Ok(NewProject(id, f, organizationId))
            && NewProject(id, f, organizationId) == WithProjectFields(before, f)
            && (j != id ==> GetProjectHelper(after, other, j) == GetProjectHelper(t, other, j))
  {
    GetPatchProject(t.projects, id, f, id);
    GetPatchProject(t.projects, id, f, j);
  }

  /** `deleteProject`: the tenant check, then `db.delete`. */
  function DeleteProjectRun(t: Tables, organizationId: string, id: Id): (r: Run)
    ensures r.outcome == Pass <==> GetProjectHelper(t, organizationId, id).Ok?
    ensures r.outcome.Fail? ==> r == Run(Fail(GetProjectHelper(t, organizationId, id).error), t)
    ensures r.outcome == Pass ==> r.tables == t.(projects := Remove(t.projects, ProjectKey, id))
  {
    match GetProjectHelper(t, organizationId, id)
    case Err(e) => Run(Fail(e), t)
    case Ok(_) => Run(Pass, t.(projects := Remove(t.projects, ProjectKey, id)))
  }

  method DeleteProject(db: Db, organizationId: string, id: Id) returns (r: Outcome<Error>)
    requires db.Valid()
    modifies db
    ensures db.Valid()
    ensures var run := DeleteProjectRun(old(db.tables), organizationId, id);
            r == run.outcome && db.tables == run.tables
  {
    var check := GetProjectHelper(db.tables, organizationId, id);
    if check.Err? {
      return Fail(check.error);
    }
    var _ := db.DeleteProject(id);
    r := Pass;
  }

  /** After a delete no organization finds the project, every other project
      reads as before, and the project's experiments stay in the store. */
  lemma DeletedProjectGone(t: Tables, organizationId: string, id: Id, other: string, j: Id)
    requires DeleteProjectRun(t, organizationId, id).outcome == Pass
    ensures var after := DeleteProjectRun(t, organizationId, id).tables;
            && GetProjectHelper(after, other, j) ==
                 (if j == id then Err(NotFound(ProjectDoc)) else GetProjectHelper(t, other, j))
            && after.ExperimentsByProject(id) == t.ExperimentsByProject(id)
  {
    GetRemove(t.projects, ProjectKey, id, j);
  }
}
