/** The public experiment queries and mutations. Each runs on behalf of a
    caller whose organization is `organizationId` (`ctx.identity.organization.id`). */
module ExperimentFunctions {
  import opened Wrappers
  import opened Schema
  import opened Database
  import opened ExperimentHelpers
  import opened ProjectHelpers

  // ---------------------------------------------------------------- queries

  /** An experiment extended with its assistants and its personas. */
  datatype ExperimentWithRelations = ExperimentWithRelations(
    experiment: Experiment,
    assistants: seq<Assistant>,
    personas: seq<Persona>)

  /** The per-experiment step of `listProjectExperiments`: resolve the
      personas (`getAllOrThrow`) and collect the experiment's assistants. */
  function WithRelations(t: Tables, e: Experiment): (r: Result<ExperimentWithRelations, Error>)
    ensures r.Ok? <==> forall i | 0 <= i < |e.personaIds| :: Get(t.personas, PersonaKey, e.personaIds[i]).Some?
    ensures r.Err? ==> r.error == MissingDocument
    ensures r.Ok? ==> r.value.experiment == e
    ensures r.Ok? ==> forall a | a in r.value.assistants :: a in t.assistants && a.experimentId == e.id
    ensures r.Ok? ==> forall a | a in t.assistants && a.experimentId == e.id :: a in r.value.assistants
    ensures r.Ok? ==> |r.value.personas| == |e.personaIds|
    ensures r.Ok? ==> forall i | 0 <= i < |e.personaIds| ::
              Get(t.personas, PersonaKey, e.personaIds[i]) == Some(r.value.personas[i])
  {
    var personas :- GetAll(t.personas, PersonaKey, e.personaIds);
    Ok(ExperimentWithRelations(e, t.AssistantsByExperiment(e.id), personas))
  }

  /** `Promise.all` over the experiments: every one extended, or an error. */
  function AllWithRelations(t: Tables, es: seq<Experiment>): (r: Result<seq<ExperimentWithRelations>, Error>)
    ensures r.Ok? <==> forall i | 0 <= i < |es| :: WithRelations(t, es[i]).Ok?
    ensures r.Ok? ==> |r.value| == |es|
    ensures r.Ok? ==> forall i | 0 <= i < |es| :: WithRelations(t, es[i]) == Ok(r.value[i])
    ensures r.Err? ==> r.error == MissingDocument
  {
    if es == [] then Ok([])
    else
      var first :- WithRelations(t, es[0]);
      var rest :- AllWithRelations(t, es[1..]);
      Ok([first] + rest)
  }

  /** The experiments of a list of extended experiments. */
  function ExperimentsOf(xs: seq<ExperimentWithRelations>): seq<Experiment> {
    seq(|xs|, i requires 0 <= i < |xs| => xs[i].experiment)
  }

  /** `listProjectExperiments`: the project check, then every experiment of
      the project, in index order, with its assistants and personas. */
  function ListProjectExperiments(t: Tables, organizationId: string, projectId: Id)
    : (r: Result<seq<ExperimentWithRelations>, Error>)
    ensures GetProjectHelper(t, organizationId, projectId).Err? ==>
              r == Err(GetProjectHelper(t, organizationId, projectId).error)
    ensures r.Ok? <==>
              && GetProjectHelper(t, organizationId, projectId).Ok?
              && forall e | e in t.ExperimentsByProject(projectId) :: WithRelations(t, e).Ok?
    ensures r.Ok? ==> ExperimentsOf(r.value) == t.ExperimentsByProject(projectId)
    ensures r.Ok? ==> forall x | x in r.value ::
              && x.experiment in t.experiments && x.experiment.projectId == projectId
              && WithRelations(t, x.experiment) == Ok(x)
  {
    var _ :- GetProjectHelper(t, organizationId, projectId);
    var es := t.ExperimentsByProject(projectId);
    var all :- AllWithRelations(t, es);
    assert ExperimentsOf(all) == es;
    Ok(all)
  }

  /** An experiment extended with its personas. */
  datatype ExperimentWithPersonas = ExperimentWithPersonas(experiment: Experiment, personas: seq<Persona>)

  /** `getExperiment`: the tenant check, then the personas in `personaIds` order. */
  function GetExperiment(t: Tables, organizationId: string, id: Id): (r: Result<ExperimentWithPersonas, Error>)
    ensures GetExperimentHelper(t, organizationId, id).Err? ==>
              r == Err(GetExperimentHelper(t, organizationId, id).error)
    ensures r.Ok? <==>
              && GetExperimentHelper(t, organizationId, id).Ok?
              && forall k | k in GetExperimentHelper(t, organizationId, id).value.personaIds ::
                   Get(t.personas, PersonaKey, k).Some?
    ensures GetExperimentHelper(t, organizationId, id).Ok? && r.Err? ==> r.error == MissingDocument
    ensures r.Ok? ==> r.value.experiment == GetExperimentHelper(t, organizationId, id).value
    ensures r.Ok? ==> |r.value.personas| == |r.value.experiment.personaIds|
    ensures r.Ok? ==> forall i | 0 <= i < |r.value.personas| ::
              r.value.personas[i] in t.personas && r.value.personas[i].id == r.value.experiment.personaIds[i]
  {
    var experiment :- GetExperimentHelper(t, organizationId, id);
    var personas :- GetAll(t.personas, PersonaKey, experiment.personaIds);
    Ok(ExperimentWithPersonas(experiment, personas))
  }

  // ---------------------------------------------------------------- mutations

  /** `deleteExperiment`: the tenant check, then `db.delete`. A failed check
      leaves the store untouched. */
  function DeleteExperimentRun(t: Tables, organizationId: string, id: Id): (r: Run)
    ensures r.outcome == Pass <==> GetExperimentHelper(t, organizationId, id).Ok?
    ensures r.outcome.Fail? ==> r == Run(Fail(GetExperimentHelper(t, organizationId, id).error), t)
    ensures r.outcome == Pass ==> r.tables == t.(experiments := Remove(t.experiments, ExperimentKey, id))
  {
    match GetExperimentHelper(t, organizationId, id)
    case Err(e) => Run(Fail(e), t)
    case Ok(_) => Run(Pass, t.(experiments := Remove(t.experiments, ExperimentKey, id)))
  }

  method DeleteExperiment(db: Db, organizationId: string, id: Id) returns (r: Outcome<Error>)
    requires db.Valid()
    modifies db
    ensures db.Valid()
    ensures var run := DeleteExperimentRun(old(db.tables), organizationId, id);
            r == run.outcome && db.tables == run.tables
  {
    var check := GetExperimentHelper(db.tables, organizationId, id);
    if check.Err? {
      return Fail(check.error);
    }
    var _ := db.DeleteExperiment(id);
    r := Pass;
  }

  /** After a delete, no organization finds the experiment any more, and
      every other experiment reads as before. */
  lemma DeletedExperimentGone(t: Tables, organizationId: string, id: Id, other: string, j: Id)
    requires DeleteExperimentRun(t, organizationId, id).outcome == Pass
    ensures var after := DeleteExperimentRun(t, organizationId, id).tables;
            GetExperimentHelper(after, other, j) ==
              if j == id then Err(NotFound(ExperimentDoc)) else GetExperimentHelper(t, other, j)
  {
    GetRemove(t.experiments, ExperimentKey, id, j);
  }

  /** `editExperiment`: the tenant check, then `db.patch` of the name and the
      persona ids. */
  function EditExperimentRun(t: Tables, organizationId: string, id: Id, name: string, personaIds: seq<Id>)
    : (r: Run)
    ensures r.outcome == Pass <==> GetExperimentHelper(t, organizationId, id).Ok?
    ensures r.outcome.Fail? ==> r == Run(Fail(GetExperimentHelper(t, organizationId, id).error), t)
    ensures r.outcome == Pass ==>
              r.tables == t.(experiments := PatchExperiment(t.experiments, id, name, personaIds))
  {
    match GetExperimentHelper(t, organizationId, id)
    case Err(e) => Run(Fail(e), t)
    case Ok(_) => Run(Pass, t.(experiments := PatchExperiment(t.experiments, id, name, personaIds)))
  }

  method EditExperiment(db: Db, organizationId: string, id: Id, name: string, personaIds: seq<Id>)
    returns (r: Outcome<Error>)
    requires db.Valid()
    modifies db
    ensures db.Valid()
    ensures var run := EditExperimentRun(old(db.tables), organizationId, id, name, personaIds);
            r == run.outcome && db.tables == run.tables
  {
    var check := GetExperimentHelper(db.tables, organizationId, id);
    if check.Err? {
      return Fail(check.error);
    }
    var _ := db.PatchExperimentFields(id, name, personaIds);
    r := Pass;
  }

  /** After an edit the caller reads back the experiment with the new name and
      persona ids and with its organization, owner and project unchanged;
      every other experiment reads as before. */
  lemma EditedExperimentKeepsOwnership(t: Tables, organizationId: string, id: Id, name: string,
                                       personaIds: seq<Id>, other: string, j: Id)
    requires EditExperimentRun(t, organizationId, id, name, personaIds).outcome == Pass
    ensures var before := GetExperimentHelper(t, organizationId, id).value;
            var after := EditExperimentRun(t, organizationId, id, name, personaIds).tables;
            && GetExperimentHelper(after, organizationId, id) == Ok(before.(name := name, personaIds := personaIds))
            && (j != id ==> GetExperimentHelper(after, other, j) == GetExperimentHelper(t, other, j))
  {
    GetPatchExperiment(t.experiments, id, name, personaIds, id);
    GetPatchExperiment(t.experiments, id, name, personaIds, j);
  }
}
