/** The public persona queries and mutations, on behalf of a caller whose
    organization is `organizationId`. Reading one persona is
    `PersonaHelpers.GetPersonaHelper` itself. */
module PersonaFunctions {
  import opened Wrappers
  import opened Seqs
  import opened Schema
  import opened Database
  import opened PersonaHelpers
  import ExperimentHelpers
  import ExperimentFunctions

  /** The document `createPersona` inserts: the arguments plus the caller's
      organization. */
  function NewPersona(id: Id, f: PersonaFields, organizationId: string): Persona {
    Persona(id, f.background, f.demographicProfile, f.name, f.nickname, organizationId, f.quote)
  }

  /** `createPersona`: inserts the persona and returns its id. */
  method CreatePersona(db: Db, organizationId: string, f: PersonaFields) returns (id: Id)
    requires db.Valid()
    modifies db
    ensures db.Valid()
    ensures id == old(db.tables.nextId)
    ensures db.tables == old(db.tables).(personas := old(db.tables.personas) + [NewPersona(id, f, organizationId)],
                                         nextId := id + 1)
  {
    id := db.InsertPersona(NewPersona(0, f, organizationId));
  }

  /** The caller reads a persona it has just created back, unchanged. */
  lemma CreatedPersonaReadable(t: Tables, organizationId: string, f: PersonaFields)
    requires t.Valid()
    ensures var p := NewPersona(t.nextId, f, organizationId);
            GetPersonaHelper(t.(personas := t.personas + [p], nextId := t.nextId + 1), organizationId, t.nextId) == Ok(p)
  {
    GetAppendFresh(t.personas, PersonaKey, NewPersona(t.nextId, f, organizationId));
  }

  /** The search condition of `listPersonas`: the name or the nickname
      contains the search, ignoring case. */
  function PersonaMatches(search: string): Persona -> bool {
    (p: Persona) => ContainsIgnoringCase(p.name, search) || ContainsIgnoringCase(p.nickname, search)
  }

  /** `listPersonas`: the organization's personas in the requested order,
      those matching the search. */
  function ListPersonas(t: Tables, organizationId: string, search: string, sorting: Order): (r: seq<Persona>)
    ensures forall p | p in r ::
              && p in t.personas && p.organizationId == organizationId
              && (ContainsIgnoringCase(p.name, search) || ContainsIgnoringCase(p.nickname, search))
    ensures forall p | p in t.personas && p.organizationId == organizationId ::
              ContainsIgnoringCase(p.name, search) || ContainsIgnoringCase(p.nickname, search) ==> p in r
    ensures Subseq(r, InOrder(t.PersonasByOrganization(organizationId), sorting))
  {
    Filter(InOrder(t.PersonasByOrganization(organizationId), sorting), PersonaMatches(search))
  }

  /** The empty search lists every persona of the organization. */
  lemma ListPersonasEmptySearch(t: Tables, organizationId: string, sorting: Order)
    ensures ListPersonas(t, organizationId, "", sorting) == InOrder(t.PersonasByOrganization(organizationId), sorting)
  {
    var s := InOrder(t.PersonasByOrganization(organizationId), sorting);
    forall i | 0 <= i < |s| ensures PersonaMatches("")(s[i]) {
      ContainsEmpty(s[i].name);
    }
    FilterKeepsAll(s, PersonaMatches(""));
  }

  /** Listing newest first gives the oldest-first list reversed. */
  lemma ListPersonasDescending(t: Tables, organizationId: string, search: string)
    ensures ListPersonas(t, organizationId, search, Desc) == Reverse(ListPersonas(t, organizationId, search, Asc))
  {
    FilterReverse(t.PersonasByOrganization(organizationId), PersonaMatches(search));
  }

  /** The search ignores case: a lowered search lists the same personas. */
  lemma ListPersonasIgnoresCase(t: Tables, organizationId: string, search: string, sorting: Order)
    ensures ListPersonas(t, organizationId, Lower(search), sorting) == ListPersonas(t, organizationId, search, sorting)
  {
    var s := InOrder(t.PersonasByOrganization(organizationId), sorting);
    forall i | 0 <= i < |s| ensures PersonaMatches(Lower(search))(s[i]) == PersonaMatches(search)(s[i]) {
      ContainsLowered(s[i].name, search);
      ContainsLowered(s[i].nickname, search);
    }
    FilterSame(s, PersonaMatches(Lower(search)), PersonaMatches(search));
  }

  /** `editPersona`: the tenant check, then `db.patch` of the editable fields. */
  function EditPersonaRun(t: Tables, organizationId: string, id: Id, f: PersonaFields): (r: Run)
    ensures r.outcome == Pass <==> GetPersonaHelper(t, organizationId, id).Ok?
    ensures r.outcome.Fail? ==> r == Run(Fail(GetPersonaHelper(t, organizationId, id).error), t)
    ensures r.outcome == Pass ==> r.tables == t.(personas := PatchPersona(t.personas, id, f))
  {
    match GetPersonaHelper(t, organizationId, id)
    case Err(e) => Run(Fail(e), t)
    case Ok(_) => Run(Pass, t.(personas := PatchPersona(t.personas, id, f)))
  }

  method EditPersona(db: Db, organizationId: string, id: Id, f: PersonaFields) returns (r: Outcome<Error>)
    requires db.Valid()
    modifies db
    ensures db.Valid()
    ensures var run := EditPersonaRun(old(db.tables), organizationId, id, f);
            r == run.outcome && db.tables == run.tables
  {
    var check := GetPersonaHelper(db.tables, organizationId, id);
    if check.Err? {
      return Fail(check.error);
    }
    var _ := db.PatchPersonaFields(id, f);
    r := Pass;
  }

  /** After an edit the caller reads back the persona with the new fields, its
      id and organization unchanged; every other persona reads as before. */
  lemma EditedPersonaKeepsOrganization(t: Tables, organizationId: string, id: Id, f: PersonaFields,
                                       other: string, j: Id)
    requires EditPersonaRun(t, organizationId, id, f).outcome == Pass
    ensures var before := GetPersonaHelper(t, organizationId, id).value;
            var after := EditPersonaRun(t, organizationId, id, f).tables;
            && GetPersonaHelper(after, organizationId, id) == Ok(NewPersona(id, f, organizationId))
            && NewPersona(id, f, organizationId) == WithPersonaFields(before, f)
            && (j != id ==> GetPersonaHelper(after, other, j) == GetPersonaHelper(t, other, j))
  {
    GetPatchPersona(t.personas, id, f, id);
    GetPatchPersona(t.personas, id, f, j);
  }

  /** `deletePersona`: the tenant check, then `db.delete`. */
  function DeletePersonaRun(t: Tables, organizationId: string, id: Id): (r: Run)
    ensures r.outcome == Pass <==> GetPersonaHelper(t, organizationId, id).Ok?
    ensures r.outcome.Fail? ==> r == Run(Fail(GetPersonaHelper(t, organizationId, id).error), t)
    ensures r.outcome == Pass ==> r.tables == t.(personas := Remove(t.personas, PersonaKey, id))
  {
    match GetPersonaHelper(t, organizationId, id)
    case Err(e) => Run(Fail(e), t)
    case Ok(_) => Run(Pass, t.(personas := Remove(t.personas, PersonaKey, id)))
  }

  method DeletePersona(db: Db, organizationId: string, id: Id) returns (r: Outcome<Error>)
    requires db.Valid()
    modifies db
    ensures db.Valid()
    ensures var run := DeletePersonaRun(old(db.tables), organizationId, id);
            r == run.outcome && db.tables == run.tables
  {
    var check := GetPersonaHelper(db.tables, organizationId, id);
    if check.Err? {
      return Fail(check.error);
    }
    var _ := db.DeletePersona(id);
    r := Pass;
  }

  /** After a delete no organization finds the persona, and every other
      persona reads as before. */
  lemma DeletedPersonaGone(t: Tables, organizationId: string, id: Id, other: string, j: Id)
    requires DeletePersonaRun(t, organizationId, id).outcome == Pass
    ensures var after := DeletePersonaRun(t, organizationId, id).tables;
            GetPersonaHelper(after, other, j) ==
              if j == id then Err(NotFound(PersonaDoc)) else GetPersonaHelper(t, other, j)
  {
    GetRemove(t.personas, PersonaKey, id, j);
  }

  /** Deleting a persona leaves the experiments that name it in place, and
      reading such an experiment then fails on the missing persona. */
  lemma DeletedPersonaBreaksExperiments(t: Tables, organizationId: string, id: Id, experimentId: Id)
    requires DeletePersonaRun(t, organizationId, id).outcome == Pass
    requires ExperimentHelpers.GetExperimentHelper(t, organizationId, experimentId).Ok?
    requires id in ExperimentHelpers.GetExperimentHelper(t, organizationId, experimentId).value.personaIds
    ensures var after := DeletePersonaRun(t, organizationId, id).tables;
            ExperimentFunctions.GetExperiment(after, organizationId, experimentId) == Err(MissingDocument)
  {
    var after := DeletePersonaRun(t, organizationId, id).tables;
    assert after.experiments == t.experiments;
    GetRemove(t.personas, PersonaKey, id, id);
  }
}
