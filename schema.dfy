/** The document types of the four tables the schema declares, plus the
    `assistants` rows the experiment workflow inserts, and the errors the
    handlers throw. Every document carries its own `id`. */
module Schema {

  /** A document id. Ids are table-specific in the store; here every table
      draws them from one counter (see `Database.Tables.nextId`). */
  type Id = nat

  datatype Gender = Male | Female

  datatype DemographicProfile = DemographicProfile(
    age: int,
    country: string,
    gender: Gender,
    occupation: string,
    state: string)

  datatype Persona = Persona(
    id: Id,
    background: string,
    demographicProfile: DemographicProfile,
    name: string,
    nickname: string,
    organizationId: string,
    quote: string)

  datatype Project = Project(
    id: Id,
    category: string,
    name: string,
    objective: string,
    organizationId: string,
    situation: string,
    targetAudience: string)

  datatype Experiment = Experiment(
    id: Id,
    name: string,
    organizationId: string,
    owner: string,
    personaIds: seq<Id>,
    projectId: Id)

  /** One persona's answer to a message: still pending, or finished with the
      inference response's text and id. */
  datatype Reply =
    | Pending(authorId: Id)
    | Finished(authorId: Id, content: string, finishedAt: int, openaiReplyId: string)

  datatype Message = Message(
    id: Id,
    author: string,
    content: string,
    experimentId: Id,
    replies: seq<Reply>)

  /** A row of the `assistants` table, as `createAssistants` inserts it. */
  datatype Assistant = Assistant(
    id: Id,
    experimentId: Id,
    openaiAssistantId: string,
    personaId: Id,
    projectId: Id)

  /** The editable fields of a persona (the arguments of create and edit). */
  datatype PersonaFields = PersonaFields(
    background: string,
    demographicProfile: DemographicProfile,
    name: string,
    nickname: string,
    quote: string)

  /** The editable fields of a project (the arguments of create and edit). */
  datatype ProjectFields = ProjectFields(
    category: string,
    name: string,
    objective: string,
    situation: string,
    targetAudience: string)

  /** The kind of document named in a "not found" or "not authorized" message. */
  datatype Kind = ExperimentDoc | PersonaDoc | ProjectDoc

  datatype Error =
    | NotSignedIn               // "User is not signed in"
    | NoOrganization            // destructuring the first organization entry throws
    | NoEmail                   // "User does not have an email"
    | NotFound(kind: Kind)      // "<Kind> not found"
    | NotAuthorized(kind: Kind) // "User is not authorized to view this <kind>"
    | NotAuthorizedPersonas     // "User is not authorized to view those personas."
    | MissingDocument           // thrown by getAllOrThrow, or by patch on a missing id
    | PendingReplies            // "There are pending replies in the thread"
    | Inconsistent              // "This shouldn't happen"

  function ExperimentKey(e: Experiment): Id { e.id }
  function MessageKey(m: Message): Id { m.id }
  function PersonaKey(p: Persona): Id { p.id }
  function ProjectKey(p: Project): Id { p.id }
  function AssistantKey(a: Assistant): Id { a.id }
}
