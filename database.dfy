/** The document store: one sequence per table in creation order, the id
    lookups (`db.get`, `getAllOrThrow`), the secondary indexes the schema
    declares, and a `Db` handle whose methods are `db.insert`, `db.patch` and
    `db.delete`. */
module Database {
  import opened Wrappers
  import opened Seqs
  import opened Schema

  /** Position of the first document whose key is `k`. */
  function Find<T>(s: seq<T>, key: T -> Id, k: Id): (r: Option<nat>)
    ensures r.Some? ==> r.value < |s| && key(s[r.value]) == k
    ensures r.Some? ==> forall j | 0 <= j < r.value :: key(s[j]) != k
    ensures r.None? <==> forall i | 0 <= i < |s| :: key(s[i]) != k
  {
    if s == [] then None
    else if key(s[0]) == k then Some(0)
    else match Find(s[1..], key, k)
      case None => None
      case Some(j) => Some(j + 1)
  }

  /** `db.get(id)`: the document with this id, or null. */
  function Get<T>(s: seq<T>, key: T -> Id, k: Id): (r: Option<T>)
    ensures r.Some? ==> r.value in s && key(r.value) == k
    ensures r.None? <==> forall i | 0 <= i < |s| :: key(s[i]) != k
  {
    match Find(s, key, k)
    case None => None
    case Some(i) => Some(s[i])
  }

  /** `getAllOrThrow(db, ids)`: the documents for `ids`, in the order of `ids`,
      or an error as soon as one id is missing. */
  function GetAll<T>(s: seq<T>, key: T -> Id, ids: seq<Id>): (r: Result<seq<T>, Error>)
    ensures r.Ok? ==> |r.value| == |ids|
    ensures r.Ok? ==> forall i | 0 <= i < |ids| :: Get(s, key, ids[i]) == Some(r.value[i])
    ensures r.Err? <==> exists i | 0 <= i < |ids| :: Get(s, key, ids[i]).None?
    ensures r.Err? ==> r.error == MissingDocument
  {
    if ids == [] then Ok([])
    else match Get(s, key, ids[0])
      case None => Err(MissingDocument)
      case Some(x) =>
        match GetAll(s, key, ids[1..])
        case Err(e) => Err(e)
        case Ok(xs) => Ok([x] + xs)
  }

  ghost predicate KeysBelow<T>(s: seq<T>, key: T -> Id, bound: Id) {
    forall i | 0 <= i < |s| :: key(s[i]) < bound
  }

  /** A document appended with an id larger than every id in the table is
      what `db.get` returns for that id. */
  lemma {:induction false} GetAppendFresh<T>(s: seq<T>, key: T -> Id, x: T)
    requires KeysBelow(s, key, key(x))
    ensures Get(s + [x], key, key(x)) == Some(x)
  {
    if s == [] {
      assert [x][0] == x;
    } else {
      assert (s + [x])[1..] == s[1..] + [x];
      GetAppendFresh(s[1..], key, x);
    }
  }

  /** The documents whose key is not `k`. */
  function Except<T>(key: T -> Id, k: Id): T -> bool {
    (x: T) => key(x) != k
  }

  /** `db.delete(id)` on one table. */
  function Remove<T>(s: seq<T>, key: T -> Id, k: Id): (r: seq<T>)
    ensures forall x | x in r :: x in s && key(x) != k
    ensures forall x | x in s && key(x) != k :: x in r
    ensures Subseq(r, s)
  {
    Filter(s, Except(key, k))
  }

  /** `db.get` looks at the first document, then at the rest. */
  lemma GetCons<T>(s: seq<T>, key: T -> Id, j: Id)
    requires s != []
    ensures Get(s, key, j) == if key(s[0]) == j then Some(s[0]) else Get(s[1..], key, j)
  {
    if key(s[0]) != j {
      match Find(s[1..], key, j)
      case None =>
      case Some(i) => assert s[i + 1] == s[1..][i];
    }
  }

  /** After a `db.delete(k)`, `db.get(k)` finds nothing and every other id
      finds what it found before. */
  lemma {:induction false} GetRemove<T>(s: seq<T>, key: T -> Id, k: Id, j: Id)
    ensures Get(Remove(s, key, k), key, j) == if j == k then None else Get(s, key, j)
  {
    if s != [] {
      var rest := Remove(s[1..], key, k);
      GetRemove(s[1..], key, k, j);
      GetCons(s, key, j);
      if key(s[0]) == k {
        assert Remove(s, key, k) == rest;
      } else {
        var r := [s[0]] + rest;
        assert Remove(s, key, k) == r;
        assert r[1..] == rest;
        GetCons(r, key, j);
      }
    }
  }

  /** Two tables with the same key at every position find every id at the
      same position. */
  lemma FindSameKeys<T>(s: seq<T>, r: seq<T>, key: T -> Id, j: Id)
    requires |s| == |r|
    requires forall i | 0 <= i < |s| :: key(r[i]) == key(s[i])
    ensures Find(r, key, j) == Find(s, key, j)
  {
    match Find(s, key, j)
    case None =>
    case Some(i) =>
      assert key(r[i]) == j;
  }

  /** The order a list query reads an index in (`.order(...)`). */
  datatype Order = Asc | Desc

  /** An index read in the given order: creation order, or its reverse. */
  function InOrder<T>(s: seq<T>, order: Order): (r: seq<T>)
    ensures order == Asc ==> r == s
    ensures order == Desc ==> |r| == |s| && forall i | 0 <= i < |s| :: r[i] == s[|s| - 1 - i]
    ensures multiset(r) == multiset(s)
    ensures forall i | 0 <= i < |s| :: s[i] in r
    ensures forall i | 0 <= i < |r| :: r[i] in s
  {
    match order
    case Asc => s
    case Desc =>
      var r := Reverse(s);
      assert forall i | 0 <= i < |s| :: s[i] == r[|s| - 1 - i];
      r
  }

  /** How a handler run ended and the store it left. */
  datatype Run = Run(outcome: Outcome<Error>, tables: Tables)

  /** `db.patch(id, {replies})` on the messages table. */
  function PatchReplies(ms: seq<Message>, id: Id, replies: seq<Reply>): (r: seq<Message>)
    ensures |r| == |ms|
    ensures forall i | 0 <= i < |ms| ::
      r[i] == if ms[i].id == id then ms[i].(replies := replies) else ms[i]
  {
    seq(|ms|, i requires 0 <= i < |ms| => if ms[i].id == id then ms[i].(replies := replies) else ms[i])
  }

  /** Patching the newest message, whose id is larger than all others, changes
      only that message. */
  lemma PatchRepliesLast(ms: seq<Message>, m: Message, replies: seq<Reply>)
    requires KeysBelow(ms, MessageKey, m.id)
    ensures PatchReplies(ms + [m], m.id, replies) == ms + [m.(replies := replies)]
  {
    var r := PatchReplies(ms + [m], m.id, replies);
    forall i | 0 <= i < |ms| ensures r[i] == ms[i] {
      assert MessageKey(ms[i]) < m.id;
    }
  }

  /** After a `db.patch` of the replies, `db.get` returns the patched message. */
  lemma GetPatchReplies(ms: seq<Message>, id: Id, replies: seq<Reply>)
    requires Get(ms, MessageKey, id).Some?
    ensures Get(PatchReplies(ms, id, replies), MessageKey, id) ==
            Some(Get(ms, MessageKey, id).value.(replies := replies))
  {
    var i := Find(ms, MessageKey, id).value;
    assert Find(PatchReplies(ms, id, replies), MessageKey, id) == Some(i);
  }

  /** A second `db.patch` of the replies overwrites the first. */
  lemma PatchRepliesTwice(ms: seq<Message>, id: Id, first: seq<Reply>, second: seq<Reply>)
    ensures PatchReplies(PatchReplies(ms, id, first), id, second) == PatchReplies(ms, id, second)
  {
  }

  /** `db.patch(id, {name, personaIds})` on the experiments table. */
  function PatchExperiment(es: seq<Experiment>, id: Id, name: string, personaIds: seq<Id>): (r: seq<Experiment>)
    ensures |r| == |es|
    ensures forall i | 0 <= i < |es| ::
      r[i] == if es[i].id == id then es[i].(name := name, personaIds := personaIds) else es[i]
  {
    seq(|es|, i requires 0 <= i < |es| =>
      if es[i].id == id then es[i].(name := name, personaIds := personaIds) else es[i])
  }

  /** After editing an experiment, `db.get` returns the edited experiment for
      its id and the unchanged document for every other id. */
  lemma GetPatchExperiment(es: seq<Experiment>, id: Id, name: string, personaIds: seq<Id>, j: Id)
    ensures Get(PatchExperiment(es, id, name, personaIds), ExperimentKey, j) ==
            match Get(es, ExperimentKey, j)
            case None => None
            case Some(e) => Some(if j == id then e.(name := name, personaIds := personaIds) else e)
  {
    FindSameKeys(es, PatchExperiment(es, id, name, personaIds), ExperimentKey, j);
  }

  /** A persona with its editable fields replaced (`db.patch` with the edit's arguments). */
  function WithPersonaFields(p: Persona, f: PersonaFields): Persona {
    p.(background := f.background, demographicProfile := f.demographicProfile,
       name := f.name, nickname := f.nickname, quote := f.quote)
  }

  function PatchPersona(ps: seq<Persona>, id: Id, f: PersonaFields): (r: seq<Persona>)
    ensures |r| == |ps|
    ensures forall i | 0 <= i < |ps| ::
      r[i] == if ps[i].id == id then WithPersonaFields(ps[i], f) else ps[i]
  {
    seq(|ps|, i requires 0 <= i < |ps| => if ps[i].id == id then WithPersonaFields(ps[i], f) else ps[i])
  }

  /** After editing a persona, `db.get` returns the edited persona for its id
      and the unchanged document for every other id. */
  lemma GetPatchPersona(ps: seq<Persona>, id: Id, f: PersonaFields, j: Id)
    ensures Get(PatchPersona(ps, id, f), PersonaKey, j) ==
            match Get(ps, PersonaKey, j)
            case None => None
            case Some(p) => Some(if j == id then WithPersonaFields(p, f) else p)
  {
    FindSameKeys(ps, PatchPersona(ps, id, f), PersonaKey, j);
  }

  /** A project with its editable fields replaced (`db.patch` with the edit's arguments). */
  function WithProjectFields(p: Project, f: ProjectFields): Project {
    p.(category := f.category, name := f.name, objective := f.objective,
       situation := f.situation, targetAudience := f.targetAudience)
  }

  function PatchProject(ps: seq<Project>, id: Id, f: ProjectFields): (r: seq<Project>)
    ensures |r| == |ps|
    ensures forall i | 0 <= i < |ps| ::
      r[i] == if ps[i].id == id then WithProjectFields(ps[i], f) else ps[i]
  {
    seq(|ps|, i requires 0 <= i < |ps| => if ps[i].id == id then WithProjectFields(ps[i], f) else ps[i])
  }

  /** After editing a project, `db.get` returns the edited project for its id
      and the unchanged document for every other id. */
  lemma GetPatchProject(ps: seq<Project>, id: Id, f: ProjectFields, j: Id)
    ensures Get(PatchProject(ps, id, f), ProjectKey, j) ==
            match Get(ps, ProjectKey, j)
            case None => None
            case Some(p) => Some(if j == id then WithProjectFields(p, f) else p)
  {
    FindSameKeys(ps, PatchProject(ps, id, f), ProjectKey, j);
  }

  /** The condition of the `experimentId` index on messages. */
  function OfExperiment(experimentId: Id): Message -> bool {
    (m: Message) => m.experimentId == experimentId
  }

  /** The condition of the `experimentId` lookup on assistants. */
  function ForExperiment(experimentId: Id): Assistant -> bool {
    (a: Assistant) => a.experimentId == experimentId
  }

  /** The whole store at one instant. Each table lists its documents in
      creation order, which is also the order of every index on it. */
  datatype Tables = Tables(
    experiments: seq<Experiment>,
    messages: seq<Message>,
    personas: seq<Persona>,
    projects: seq<Project>,
    assistants: seq<Assistant>,
    nextId: Id)
  {
    /** Every id handed out so far is below the counter, so a new one is fresh. */
    ghost predicate Valid() {
      && KeysBelow(experiments, ExperimentKey, nextId)
      && KeysBelow(messages, MessageKey, nextId)
      && KeysBelow(personas, PersonaKey, nextId)
      && KeysBelow(projects, ProjectKey, nextId)
      && KeysBelow(assistants, AssistantKey, nextId)
    }

    /** Index `projectId` of `experiments`. */
    function ExperimentsByProject(projectId: Id): (r: seq<Experiment>)
      ensures forall e | e in r :: e in experiments && e.projectId == projectId
      ensures forall e | e in experiments && e.projectId == projectId :: e in r
      ensures Subseq(r, experiments)
    {
      Filter(experiments, (e: Experiment) => e.projectId == projectId)
    }

    /** Index `experimentId` of `messages`, oldest first. */
    function MessagesByExperiment(experimentId: Id): (r: seq<Message>)
      ensures forall m | m in r :: m in messages && m.experimentId == experimentId
      ensures forall m | m in messages && m.experimentId == experimentId :: m in r
      ensures Subseq(r, messages)
    {
      Filter(messages, OfExperiment(experimentId))
    }

    /** Index `organizationId` of `personas`. */
    function PersonasByOrganization(organizationId: string): (r: seq<Persona>)
      ensures forall p | p in r :: p in personas && p.organizationId == organizationId
      ensures forall p | p in personas && p.organizationId == organizationId :: p in r
      ensures Subseq(r, personas)
    {
      Filter(personas, (p: Persona) => p.organizationId == organizationId)
    }

    /** Index `organizationId` of `projects`. */
    function ProjectsByOrganization(organizationId: string): (r: seq<Project>)
      ensures forall p | p in r :: p in projects && p.organizationId == organizationId
      ensures forall p | p in projects && p.organizationId == organizationId :: p in r
      ensures Subseq(r, projects)
    {
      Filter(projects, (p: Project) => p.organizationId == organizationId)
    }

    /** The `experimentId` lookup on `assistants` used by `getManyFrom`. */
    function AssistantsByExperiment(experimentId: Id): (r: seq<Assistant>)
      ensures forall a | a in r :: a in assistants && a.experimentId == experimentId
      ensures forall a | a in assistants && a.experimentId == experimentId :: a in r
      ensures Subseq(r, assistants)
    {
      Filter(assistants, ForExperiment(experimentId))
    }
  }

  /** The store handle `ctx.db`. Inserted documents get the next id and go to
      the end of their table. */
  class Db {
    var tables: Tables

    ghost predicate Valid()
      reads this
    {
      tables.Valid()
    }

    method InsertExperiment(doc: Experiment) returns (id: Id)
      requires Valid()
      modifies this
      ensures Valid()
      ensures id == old(tables.nextId)
      ensures tables == old(tables).(experiments := old(tables.experiments) + [doc.(id := id)], nextId := id + 1)
    {
      id := tables.nextId;
      tables := tables.(experiments := tables.experiments + [doc.(id := id)], nextId := id + 1);
    }

    method InsertMessage(doc: Message) returns (id: Id)
      requires Valid()
      modifies this
      ensures Valid()
      ensures id == old(tables.nextId)
      ensures tables == old(tables).(messages := old(tables.messages) + [doc.(id := id)], nextId := id + 1)
    {
      id := tables.nextId;
      tables := tables.(messages := tables.messages + [doc.(id := id)], nextId := id + 1);
    }

    method InsertPersona(doc: Persona) returns (id: Id)
      requires Valid()
      modifies this
      ensures Valid()
      ensures id == old(tables.nextId)
      ensures tables == old(tables).(personas := old(tables.personas) + [doc.(id := id)], nextId := id + 1)
    {
      id := tables.nextId;
      tables := tables.(personas := tables.personas + [doc.(id := id)], nextId := id + 1);
    }

    method InsertProject(doc: Project) returns (id: Id)
      requires Valid()
      modifies this
      ensures Valid()
      ensures id == old(tables.nextId)
      ensures tables == old(tables).(projects := old(tables.projects) + [doc.(id := id)], nextId := id + 1)
    {
      id := tables.nextId;
      tables := tables.(projects := tables.projects + [doc.(id := id)], nextId := id + 1);
    }

    method InsertAssistant(doc: Assistant) returns (id: Id)
      requires Valid()
      modifies this
      ensures Valid()
      ensures id == old(tables.nextId)
      ensures tables == old(tables).(assistants := old(tables.assistants) + [doc.(id := id)], nextId := id + 1)
    {
      id := tables.nextId;
      tables := tables.(assistants := tables.assistants + [doc.(id := id)], nextId := id + 1);
    }

    /** `db.patch(id, {replies})`; fails when the message does not exist. */
    method PatchMessageReplies(id: Id, replies: seq<Reply>) returns (found: bool)
      requires Valid()
      modifies this
      ensures Valid()
      ensures found == Get(old(tables.messages), MessageKey, id).Some?
      ensures tables == if found then old(tables).(messages := PatchReplies(old(tables.messages), id, replies))
                        else old(tables)
    {
      found := Get(tables.messages, MessageKey, id).Some?;
      if found {
        tables := tables.(messages := PatchReplies(tables.messages, id, replies));
      }
    }

    method PatchExperimentFields(id: Id, name: string, personaIds: seq<Id>) returns (found: bool)
      requires Valid()
      modifies this
      ensures Valid()
      ensures found == Get(old(tables.experiments), ExperimentKey, id).Some?
      ensures tables == if found then old(tables).(experiments := PatchExperiment(old(tables.experiments), id, name, personaIds))
                        else old(tables)
    {
      found := Get(tables.experiments, ExperimentKey, id).Some?;
      if found {
        tables := tables.(experiments := PatchExperiment(tables.experiments, id, name, personaIds));
      }
    }

    method PatchPersonaFields(id: Id, f: PersonaFields) returns (found: bool)
      requires Valid()
      modifies this
      ensures Valid()
      ensures found == Get(old(tables.personas), PersonaKey, id).Some?
      ensures tables == if found then old(tables).(personas := PatchPersona(old(tables.personas), id, f))
                        else old(tables)
    {
      found := Get(tables.personas, PersonaKey, id).Some?;
      if found {
        tables := tables.(personas := PatchPersona(tables.personas, id, f));
      }
    }

    method PatchProjectFields(id: Id, f: ProjectFields) returns (found: bool)
      requires Valid()
      modifies this
      ensures Valid()
      ensures found == Get(old(tables.projects), ProjectKey, id).Some?
      ensures tables == if found then old(tables).(projects := PatchProject(old(tables.projects), id, f))
                        else old(tables)
    {
      found := Get(tables.projects, ProjectKey, id).Some?;
      if found {
        tables := tables.(projects := PatchProject(tables.projects, id, f));
      }
    }

    method DeleteExperiment(id: Id) returns (found: bool)
      requires Valid()
      modifies this
      ensures Valid()
      ensures found == Get(old(tables.experiments), ExperimentKey, id).Some?
      ensures tables == if found then old(tables).(experiments := Remove(old(tables.experiments), ExperimentKey, id))
                        else old(tables)
    {
      found := Get(tables.experiments, ExperimentKey, id).Some?;
      if found {
        tables := tables.(experiments := Remove(tables.experiments, ExperimentKey, id));
      }
    }

    method DeletePersona(id: Id) returns (found: bool)
      requires Valid()
      modifies this
      ensures Valid()
      ensures found == Get(old(tables.personas), PersonaKey, id).Some?
      ensures tables == if found then old(tables).(personas := Remove(old(tables.personas), PersonaKey, id))
                        else old(tables)
    {
      found := Get(tables.personas, PersonaKey, id).Some?;
      if found {
        tables := tables.(personas := Remove(tables.personas, PersonaKey, id));
      }
    }

    method DeleteProject(id: Id) returns (found: bool)
      requires Valid()
      modifies this
      ensures Valid()
      ensures found == Get(old(tables.projects), ProjectKey, id).Some?
      ensures tables == if found then old(tables).(projects := Remove(old(tables.projects), ProjectKey, id))
                        else old(tables)
    {
      found := Get(tables.projects, ProjectKey, id).Some?;
      if found {
        tables := tables.(projects := Remove(tables.projects, ProjectKey, id));
      }
    }
  }
}
