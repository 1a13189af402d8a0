/** The tenant-checked lookups: read a document by id, fail "not found" when
    it is absent, fail "not authorized" when it belongs to another
    organization, otherwise return it. Nothing is written. */
module Tenancy {
  import opened Wrappers
  import opened Schema
  import opened Database

  function TenantGet<T>(s: seq<T>, key: T -> Id, org: T -> string,
                        organizationId: string, id: Id, kind: Kind): (r: Result<T, Error>)
    ensures r.Ok? ==> Get(s, key, id) == Some(r.value) && org(r.value) == organizationId
    ensures r == Err(NotFound(kind)) <==> forall i | 0 <= i < |s| :: key(s[i]) != id
    ensures r == Err(NotAuthorized(kind)) <==>
              Get(s, key, id).Some? && org(Get(s, key, id).value) != organizationId
    ensures r.Ok? || r == Err(NotFound(kind)) || r == Err(NotAuthorized(kind))
  {
    match Get(s, key, id)
    case None => Err(NotFound(kind))
    case Some(x) => if org(x) != organizationId then Err(NotAuthorized(kind)) else Ok(x)
  }

  function ExperimentOrg(e: Experiment): string { e.organizationId }
  function PersonaOrg(p: Persona): string { p.organizationId }
  function ProjectOrg(p: Project): string { p.organizationId }
}

module ExperimentHelpers {
  import opened Wrappers
  import opened Schema
  import opened Database
  import opened Tenancy

  /** `getExperimentHelper`, with `organizationId` the caller's organization. */
  function GetExperimentHelper(t: Tables, organizationId: string, id: Id): (r: Result<Experiment, Error>)
    ensures r == Err(NotFound(ExperimentDoc)) <==> forall e | e in t.experiments :: e.id != id
    ensures r == Err(NotAuthorized(ExperimentDoc)) <==>
              (exists e | e in t.experiments :: e.id == id) &&
              Get(t.experiments, ExperimentKey, id).value.organizationId != organizationId
    ensures r.Ok? ==> Get(t.experiments, ExperimentKey, id) == Some(r.value)
    ensures r.Ok? ==> r.value.id == id && r.value.organizationId == organizationId
    ensures r.Ok? || r == Err(NotFound(ExperimentDoc)) || r == Err(NotAuthorized(ExperimentDoc))
  {
    TenantGet(t.experiments, ExperimentKey, ExperimentOrg, organizationId, id, ExperimentDoc)
  }
}

module PersonaHelpers {
  import opened Wrappers
  import opened Schema
  import opened Database
  import opened Tenancy

  /** `getPersonaHelper`, with `organizationId` the caller's organization. */
  function GetPersonaHelper(t: Tables, organizationId: string, id: Id): (r: Result<Persona, Error>)
    ensures r == Err(NotFound(PersonaDoc)) <==> forall p | p in t.personas :: p.id != id
    ensures r == Err(NotAuthorized(PersonaDoc)) <==>
              (exists p | p in t.personas :: p.id == id) &&
              Get(t.personas, PersonaKey, id).value.organizationId != organizationId
    ensures r.Ok? ==> Get(t.personas, PersonaKey, id) == Some(r.value)
    ensures r.Ok? ==> r.value.id == id && r.value.organizationId == organizationId
    ensures r.Ok? || r == Err(NotFound(PersonaDoc)) || r == Err(NotAuthorized(PersonaDoc))
  {
    TenantGet(t.personas, PersonaKey, PersonaOrg, organizationId, id, PersonaDoc)
  }
}

module ProjectHelpers {
  import opened Wrappers
  import opened Schema
  import opened Database
  import opened Tenancy

  /** `getProjectHelper`, with `organizationId` the caller's organization.
      The copy local to the projects functions file behaves identically and is
      modelled by this function too. */
  function GetProjectHelper(t: Tables, organizationId: string, id: Id): (r: Result<Project, Error>)
    ensures r == Err(NotFound(ProjectDoc)) <==> forall p | p in t.projects :: p.id != id
    ensures r == Err(NotAuthorized(ProjectDoc)) <==>
              (exists p | p in t.projects :: p.id == id) &&
              Get(t.projects, ProjectKey, id).value.organizationId != organizationId
    ensures r.Ok? ==> Get(t.projects, ProjectKey, id) == Some(r.value)
    ensures r.Ok? ==> r.value.id == id && r.value.organizationId == organizationId
    ensures r.Ok? || r == Err(NotFound(ProjectDoc)) || r == Err(NotAuthorized(ProjectDoc))
  {
    TenantGet(t.projects, ProjectKey, ProjectOrg, organizationId, id, ProjectDoc)
  }
}
