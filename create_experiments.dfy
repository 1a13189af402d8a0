/** The create-experiment workflow: check the personas and the project against
    the caller's organization, insert the experiment, create one inference
    assistant per persona and store one assistant row per created assistant. */
module CreateExperiments {
  import opened Wrappers
  import opened Seqs
  import opened Schema
  import opened Database
  import opened PublicContext
  import opened ExperimentHelpers
  import opened ProjectHelpers
  import AssistantTemplates

  // ---------------------------------------------------------------- checks

  /** Every persona belongs to the organization (`personas.every`). */
  predicate AllInOrganization(personas: seq<Persona>, organizationId: string) {
    forall i | 0 <= i < |personas| :: personas[i].organizationId == organizationId
  }

  /** `getPersonas` of this workflow: every id must exist, then every persona
      must belong to the caller's organization. */
  function GetPersonas(t: Tables, ids: seq<Id>, user: User): (r: Result<seq<Persona>, Error>)
    ensures r.Ok? ==> |r.value| == |ids|
    ensures r.Ok? ==> forall i | 0 <= i < |ids| ::
              Get(t.personas, PersonaKey, ids[i]) == Some(r.value[i]) &&
              r.value[i].organizationId == user.organizationId
    ensures r == Err(MissingDocument) <==> exists i | 0 <= i < |ids| :: Get(t.personas, PersonaKey, ids[i]).None?
    ensures r == Err(NotAuthorizedPersonas) <==>
              && (forall i | 0 <= i < |ids| :: Get(t.personas, PersonaKey, ids[i]).Some?)
              && exists i | 0 <= i < |ids| :: Get(t.personas, PersonaKey, ids[i]).value.organizationId != user.organizationId
    ensures r.Ok? || r == Err(MissingDocument) || r == Err(NotAuthorizedPersonas)
  {
    var personas :- GetAll(t.personas, PersonaKey, ids);
    if AllInOrganization(personas, user.organizationId) then Ok(personas) else Err(NotAuthorizedPersonas)
  }

  // ---------------------------------------------------------------- writes

  /** The experiment `_createExperiment` inserts: the arguments, the caller's
      organization and the caller's email as owner. */
  function NewExperiment(id: Id, name: string, personaIds: seq<Id>, projectId: Id, user: User): Experiment {
    Experiment(id, name, user.organizationId, user.email, personaIds, projectId)
  }

  /** `_createExperiment`: inserts the experiment and returns its id. */
  method CreateExperiment(db: Db, name: string, personaIds: seq<Id>, projectId: Id, user: User) returns (id: Id)
    requires db.Valid()
    modifies db
    ensures db.Valid()
    ensures id == old(db.tables.nextId)
    ensures db.tables == old(db.tables).(experiments := old(db.tables.experiments) + [NewExperiment(id, name, personaIds, projectId, user)],
                                         nextId := id + 1)
  {
    id := db.InsertExperiment(NewExperiment(0, name, personaIds, projectId, user));
  }

  /** What the assistant-creation call is given. */
  datatype AssistantRequest = AssistantRequest(description: string, instructions: string, model: string, name: string)

  /** The request for one persona: the three templates and the model. */
  function AssistantRequestFor(persona: Persona, project: Project, experimentName: string): AssistantRequest {
    AssistantRequest(
      AssistantTemplates.TemplateAssistantDescription(persona, project, experimentName),
      AssistantTemplates.TemplateAssistantInstructions(persona, project, experimentName),
      AssistantTemplates.Model,
      AssistantTemplates.TemplateAssistantName(persona, project, experimentName))
  }

  /** The pair `createOpenaiAssistants` returns per persona. */
  datatype AssistantIds = AssistantIds(assistantId: string, personaId: Id)

  /** `createOpenaiAssistants`: one assistant per persona, in persona order;
      `create` stands for the assistant-creation call and returns its id. */
  function CreateOpenaiAssistants(experimentName: string, personas: seq<Persona>, project: Project,
                                  create: AssistantRequest -> string): (r: seq<AssistantIds>)
    ensures |r| == |personas|
    ensures forall k | 0 <= k < |r| :: r[k].personaId == personas[k].id
  {
    seq(|personas|, k requires 0 <= k < |personas| =>
      AssistantIds(create(AssistantRequestFor(personas[k], project, experimentName)), personas[k].id))
  }

  /** Each persona's assistant is created from that persona's templates: the
      description, the instructions and the name, with the shared model. */
  lemma AssistantsFromTemplates(experimentName: string, personas: seq<Persona>, project: Project,
                                create: AssistantRequest -> string, k: nat)
    requires k < |personas|
    ensures var r := CreateOpenaiAssistants(experimentName, personas, project, create);
            var request := AssistantRequestFor(personas[k], project, experimentName);
            && r[k].assistantId == create(request)
            && request.description == AssistantTemplates.TemplateAssistantDescription(personas[k], project, experimentName)
            && request.instructions == AssistantTemplates.TemplateAssistantInstructions(personas[k], project, experimentName)
            && request.name == AssistantTemplates.TemplateAssistantName(personas[k], project, experimentName)
            && request.model == AssistantTemplates.Model
  {
  }

  /** The rows `createAssistants` inserts, the k-th under id `firstId + k`. */
  function AssistantRows(assistantIds: seq<AssistantIds>, experimentId: Id, projectId: Id, firstId: Id): seq<Assistant> {
    seq(|assistantIds|, k requires 0 <= k < |assistantIds| =>
      Assistant(firstId + k, experimentId, assistantIds[k].assistantId, assistantIds[k].personaId, projectId))
  }

  /** Every row carries the given experiment and project, one row per pair,
      in order. */
  lemma AssistantRowsFields(assistantIds: seq<AssistantIds>, experimentId: Id, projectId: Id, firstId: Id)
    ensures var rows := AssistantRows(assistantIds, experimentId, projectId, firstId);
            && |rows| == |assistantIds|
            && forall k | 0 <= k < |rows| ::
                 && rows[k].experimentId == experimentId && rows[k].projectId == projectId
                 && rows[k].personaId == assistantIds[k].personaId
                 && rows[k].openaiAssistantId == assistantIds[k].assistantId
  {
  }

  /** `createAssistants`: inserts one row per pair, in order, and returns
      their ids. */
  method CreateAssistants(db: Db, assistantIds: seq<AssistantIds>, experimentId: Id, projectId: Id)
    returns (ids: seq<Id>)
    requires db.Valid()
    modifies db
    ensures db.Valid()
    ensures |ids| == |assistantIds|
    ensures forall k | 0 <= k < |ids| :: ids[k] == old(db.tables.nextId) + k
    ensures db.tables == old(db.tables).(
              assistants := old(db.tables.assistants) + AssistantRows(assistantIds, experimentId, projectId, old(db.tables.nextId)),
              nextId := old(db.tables.nextId) + |assistantIds|)
  {
    ids := [];
    var i := 0;
    while i < |assistantIds|
      invariant 0 <= i <= |assistantIds|
      invariant db.Valid()
      invariant |ids| == i
      invariant forall k | 0 <= k < i :: ids[k] == old(db.tables.nextId) + k
      invariant db.tables == old(db.tables).(
                  assistants := old(db.tables.assistants) + AssistantRows(assistantIds[..i], experimentId, projectId, old(db.tables.nextId)),
                  nextId := old(db.tables.nextId) + i)
    {
      var pair := assistantIds[i];
      var id := db.InsertAssistant(Assistant(0, experimentId, pair.assistantId, pair.personaId, projectId));
      assert AssistantRows(assistantIds[..i + 1], experimentId, projectId, old(db.tables.nextId))
          == AssistantRows(assistantIds[..i], experimentId, projectId, old(db.tables.nextId))
             + [Assistant(id, experimentId, pair.assistantId, pair.personaId, projectId)];
      ids := ids + [id];
      i := i + 1;
    }
    assert assistantIds[..i] == assistantIds;
  }

  // ---------------------------------------------------------------- workflow

  /** The store after a successful run: the experiment under the next id,
      then one assistant row per pair under the ids that follow. */
  function Created(t: Tables, name: string, personaIds: seq<Id>, projectId: Id, user: User,
                   pairs: seq<AssistantIds>): Tables
  {
    t.(experiments := t.experiments + [NewExperiment(t.nextId, name, personaIds, projectId, user)],
       assistants := t.assistants + AssistantRows(pairs, t.nextId, projectId, t.nextId + 1),
       nextId := t.nextId + 1 + |pairs|)
  }

  /** What the inserts leave: the experiment appended, one row per persona in
      persona order under the following ids, the other tables unchanged. */
  lemma CreatedFields(t: Tables, name: string, personaIds: seq<Id>, projectId: Id, user: User,
                      pairs: seq<AssistantIds>)
    requires |pairs| == |personaIds|
    requires forall k | 0 <= k < |pairs| :: pairs[k].personaId == personaIds[k]
    ensures var r := Created(t, name, personaIds, projectId, user, pairs);
            && r.experiments == t.experiments + [NewExperiment(t.nextId, name, personaIds, projectId, user)]
            && r.messages == t.messages && r.personas == t.personas && r.projects == t.projects
            && r.nextId == t.nextId + 1 + |personaIds|
            && |r.assistants| == |t.assistants| + |personaIds|
            && r.assistants[..|t.assistants|] == t.assistants
            && forall k | 0 <= k < |personaIds| ::
                 var row := r.assistants[|t.assistants| + k];
                 && row.id == t.nextId + 1 + k
                 && row.experimentId == t.nextId && row.projectId == projectId
                 && row.personaId == personaIds[k]
                 && row.openaiAssistantId == pairs[k].assistantId
  {
    var rows := AssistantRows(pairs, t.nextId, projectId, t.nextId + 1);
    AssistantRowsFields(pairs, t.nextId, projectId, t.nextId + 1);
    assert (t.assistants + rows)[..|t.assistants|] == t.assistants;
  }

  /** `createExperimentWorkflow`: the persona check, the project check, the
      experiment insert, the assistants, the assistant rows. A failed check
      leaves the store untouched. */
  function CreateExperimentRun(t: Tables, name: string, personaIds: seq<Id>, projectId: Id, user: User,
                               create: AssistantRequest -> string): (r: Run)
    ensures r.outcome.Fail? <==>
              GetPersonas(t, personaIds, user).Err? || GetProjectHelper(t, user.organizationId, projectId).Err?
    ensures GetPersonas(t, personaIds, user).Err? ==>
              r == Run(Fail(GetPersonas(t, personaIds, user).error), t)
    ensures GetPersonas(t, personaIds, user).Ok? && GetProjectHelper(t, user.organizationId, projectId).Err? ==>
              r == Run(Fail(GetProjectHelper(t, user.organizationId, projectId).error), t)
  {
    match GetPersonas(t, personaIds, user)
    case Err(e) => Run(Fail(e), t)
    case Ok(personas) =>
      match GetProjectHelper(t, user.organizationId, projectId)
      case Err(e) => Run(Fail(e), t)
      case Ok(project) =>
        var pairs := CreateOpenaiAssistants(name, personas, project, create);
        Run(Pass, Created(t, name, personaIds, projectId, user, pairs))
  }

  /** A successful run leaves `Created` of the pairs the assistant service
      returned, one per persona in persona order. */
  lemma RunIsCreated(t: Tables, name: string, personaIds: seq<Id>, projectId: Id, user: User,
                     create: AssistantRequest -> string)
    returns (pairs: seq<AssistantIds>)
    requires CreateExperimentRun(t, name, personaIds, projectId, user, create).outcome == Pass
    ensures |pairs| == |personaIds|
    ensures forall k | 0 <= k < |pairs| :: pairs[k].personaId == personaIds[k]
    ensures CreateExperimentRun(t, name, personaIds, projectId, user, create).tables
            == Created(t, name, personaIds, projectId, user, pairs)
  {
    var personas := GetPersonas(t, personaIds, user).value;
    var project := GetProjectHelper(t, user.organizationId, projectId).value;
    pairs := CreateOpenaiAssistants(name, personas, project, create);
  }

  /** A successful run appends the experiment under the next id and one
      assistant row per persona, in persona order, under the ids that follow;
      the other tables are unchanged. */
  lemma SuccessfulRun(t: Tables, name: string, personaIds: seq<Id>, projectId: Id, user: User,
                      create: AssistantRequest -> string)
    requires CreateExperimentRun(t, name, personaIds, projectId, user, create).outcome == Pass
    ensures var r := CreateExperimentRun(t, name, personaIds, projectId, user, create).tables;
            && r.experiments == t.experiments + [NewExperiment(t.nextId, name, personaIds, projectId, user)]
            && r.messages == t.messages && r.personas == t.personas && r.projects == t.projects
            && r.nextId == t.nextId + 1 + |personaIds|
            && |r.assistants| == |t.assistants| + |personaIds|
            && r.assistants[..|t.assistants|] == t.assistants
            && forall k | 0 <= k < |personaIds| ::
                 var row := r.assistants[|t.assistants| + k];
                 && row.id == t.nextId + 1 + k
                 && row.experimentId == t.nextId && row.projectId == projectId
                 && row.personaId == personaIds[k]
                 && row.openaiAssistantId == create(AssistantRequestFor(GetPersonas(t, personaIds, user).value[k],
                                                                        GetProjectHelper(t, user.organizationId, projectId).value,
                                                                        name))
  {
    var personas := GetPersonas(t, personaIds, user).value;
    var project := GetProjectHelper(t, user.organizationId, projectId).value;
    var pairs := CreateOpenaiAssistants(name, personas, project, create);
    assert CreateExperimentRun(t, name, personaIds, projectId, user, create).tables
        == Created(t, name, personaIds, projectId, user, pairs);
    CreatedFields(t, name, personaIds, projectId, user, pairs);
    forall k | 0 <= k < |personaIds|
      ensures pairs[k].assistantId == create(AssistantRequestFor(personas[k], project, name))
    {
      AssistantsFromTemplates(name, personas, project, create, k);
    }
  }

  /** The experiment insert followed by the assistant rows. */
  method InsertCreation(db: Db, name: string, personaIds: seq<Id>, projectId: Id, user: User,
                        pairs: seq<AssistantIds>)
    requires db.Valid()
    modifies db
    ensures db.Valid()
    ensures db.tables == Created(old(db.tables), name, personaIds, projectId, user, pairs)
  {
    var experimentId := CreateExperiment(db, name, personaIds, projectId, user);
    var _ := CreateAssistants(db, pairs, experimentId, projectId);
  }

  /** The workflow as a sequence of steps on the store. */
  method CreateExperimentWorkflow(db: Db, name: string, personaIds: seq<Id>, projectId: Id, user: User,
                                  create: AssistantRequest -> string)
    returns (r: Outcome<Error>)
    requires db.Valid()
    modifies db
    ensures db.Valid()
    ensures var run := CreateExperimentRun(old(db.tables), name, personaIds, projectId, user, create);
            r == run.outcome && db.tables == run.tables
  {
    var personas := GetPersonas(db.tables, personaIds, user);
    if personas.Err? {
      return Fail(personas.error);
    }
    var project := GetProjectHelper(db.tables, user.organizationId, projectId);
    if project.Err? {
      return Fail(project.error);
    }
    var pairs := CreateOpenaiAssistants(name, personas.value, project.value, create);
    InsertCreation(db, name, personaIds, projectId, user, pairs);
    r := Pass;
  }

  /** After a successful run the caller's organization reads the new
      experiment back, unchanged. */
  lemma CreatedExperimentReadable(t: Tables, name: string, personaIds: seq<Id>, projectId: Id, user: User,
                                  create: AssistantRequest -> string)
    requires t.Valid()
    requires CreateExperimentRun(t, name, personaIds, projectId, user, create).outcome == Pass
    ensures var after := CreateExperimentRun(t, name, personaIds, projectId, user, create).tables;
            GetExperimentHelper(after, user.organizationId, t.nextId)
              == Ok(NewExperiment(t.nextId, name, personaIds, projectId, user))
  {
    var pairs := RunIsCreated(t, name, personaIds, projectId, user, create);
    CreatedFields(t, name, personaIds, projectId, user, pairs);
    GetAppendFresh(t.experiments, ExperimentKey, NewExperiment(t.nextId, name, personaIds, projectId, user));
  }

  /** After a successful run the assistants of the new experiment are the
      ones it had before followed by exactly one per persona, in persona
      order. */
  lemma {:induction false} AssistantsOfCreatedExperiment(t: Tables, name: string, personaIds: seq<Id>, projectId: Id,
                                                         user: User, create: AssistantRequest -> string)
    requires CreateExperimentRun(t, name, personaIds, projectId, user, create).outcome == Pass
    ensures var after := CreateExperimentRun(t, name, personaIds, projectId, user, create).tables;
            var added := after.assistants[|t.assistants|..];
            && after.AssistantsByExperiment(t.nextId) == t.AssistantsByExperiment(t.nextId) + added
            && |added| == |personaIds|
            && forall k | 0 <= k < |added| :: added[k].personaId == personaIds[k]
  {
    var pairs := RunIsCreated(t, name, personaIds, projectId, user, create);
    CreatedFields(t, name, personaIds, projectId, user, pairs);
    var after := CreateExperimentRun(t, name, personaIds, projectId, user, create).tables;
    var added := after.assistants[|t.assistants|..];
    assert after.assistants == t.assistants + added;
    FilterAppend(t.assistants, added, ForExperiment(t.nextId));
    forall k | 0 <= k < |added| ensures ForExperiment(t.nextId)(added[k]) {
      assert added[k] == after.assistants[|t.assistants| + k];
    }
    FilterKeepsAll(added, ForExperiment(t.nextId));
  }
}
