/** The send-message workflow: check the thread, store the user's message with
    one pending reply per persona, ask every persona for an answer and record
    each answer on the message. `SendMessageAsWritten` and the method
    `SendMessageWorkflow` follow the handler as it is written; the `Corrected`
    variants record every answer on the stored message and pair the personas
    with the previous turn's replies. */
module SendMessage {
  import opened Wrappers
  import opened Seqs
  import opened Schema
  import opened Database
  import opened PublicContext
  import opened ExperimentHelpers
  import opened MessageHelpers
  import Prompts
  import AssistantTemplates

  /** The two fields of an inference response the workflow keeps: its id and
      its output text. */
  datatype Response = Response(id: string, outputText: string)

  /** A request to the inference service: the user's text, the persona's
      instructions on a first turn, and the previous response on later turns. */
  datatype ResponseRequest = ResponseRequest(
    input: string,
    instructions: Option<string>,
    model: string,
    previousResponseId: Option<string>)

  /** `sendOpenaiInitialMessage`: the request of a persona's first turn. */
  function InitialRequest(content: string, experiment: Experiment, persona: Persona, project: Project): ResponseRequest {
    ResponseRequest(content, Some(Prompts.TemplateInstructionPrompt(experiment, persona, project)), Prompts.Model, None)
  }

  /** `sendOpenaiMessage`: the request of a later turn, chained to the
      persona's previous response. */
  function FollowUpRequest(content: string, previousResponseId: string): ResponseRequest {
    ResponseRequest(content, None, Prompts.Model, Some(previousResponseId))
  }

  // ---------------------------------------------------------------- reads

  /** `getProject` of this workflow: by id, with no organization check. */
  function GetProject(t: Tables, projectId: Id): (r: Result<Project, Error>)
    ensures r.Ok? <==> exists p | p in t.projects :: p.id == projectId
    ensures r.Ok? ==> Get(t.projects, ProjectKey, projectId) == Some(r.value) && r.value.id == projectId
    ensures r.Err? ==> r.error == NotFound(ProjectDoc)
  {
    match Get(t.projects, ProjectKey, projectId)
    case None => Err(NotFound(ProjectDoc))
    case Some(p) => Ok(p)
  }

  /** `getLastMessage`: the first message of the experiment's index read in
      descending order, that is, the newest message of the experiment. */
  function GetLastMessage(t: Tables, experimentId: Id): (r: Option<Message>)
    ensures r.None? <==> forall m | m in t.messages :: m.experimentId != experimentId
    ensures r.Some? ==> exists i | 0 <= i < |t.messages| ::
              && t.messages[i] == r.value
              && r.value.experimentId == experimentId
              && forall j | i < j < |t.messages| :: t.messages[j].experimentId != experimentId
  {
    var desc := Reverse(t.MessagesByExperiment(experimentId));
    if desc == [] then None
    else
      FilterLast(t.messages, OfExperiment(experimentId));
      Some(desc[0])
  }

  /** What the workflow has read before it writes anything. */
  datatype Turn = Turn(experiment: Experiment, project: Project, lastMessage: Option<Message>, personas: seq<Persona>)

  /** The reads of the workflow succeed: the experiment is the caller's, its
      project exists, and so does every one of its personas. */
  predicate ReadsSucceed(t: Tables, experimentId: Id, user: User) {
    var e := GetExperimentHelper(t, user.organizationId, experimentId);
    && e.Ok?
    && GetProject(t, e.value.projectId).Ok?
    && GetAll(t.personas, PersonaKey, e.value.personaIds).Ok?
  }

  /** The handler up to the pending-replies guard: read the experiment, its
      project, its newest message and its personas, and refuse to go on while
      the newest message still waits for a reply. */
  function PrepareTurn(t: Tables, experimentId: Id, user: User): (r: Result<Turn, Error>)
    ensures GetExperimentHelper(t, user.organizationId, experimentId).Err? ==>
              r == Err(GetExperimentHelper(t, user.organizationId, experimentId).error)
    ensures !ReadsSucceed(t, experimentId, user) ==> r.Err? && r.error != PendingReplies
    ensures r == Err(PendingReplies) <==>
              && ReadsSucceed(t, experimentId, user)
              && GetLastMessage(t, experimentId).Some?
              && HasPendingReplies(GetLastMessage(t, experimentId).value)
    ensures r.Ok? <==>
              && ReadsSucceed(t, experimentId, user)
              && !(GetLastMessage(t, experimentId).Some? && HasPendingReplies(GetLastMessage(t, experimentId).value))
    ensures r.Ok? ==> && Get(t.experiments, ExperimentKey, experimentId) == Some(r.value.experiment)
                      && r.value.experiment.id == experimentId
                      && r.value.experiment.organizationId == user.organizationId
    ensures r.Ok? ==> Get(t.projects, ProjectKey, r.value.experiment.projectId) == Some(r.value.project)
    ensures r.Ok? ==> PersonasOfExperiment(r.value)
    ensures r.Ok? ==> && r.value.lastMessage == GetLastMessage(t, experimentId)
                      && (r.value.lastMessage.Some? ==> !HasPendingReplies(r.value.lastMessage.value))
  {
    var experiment :- GetExperimentHelper(t, user.organizationId, experimentId);
    var project :- GetProject(t, experiment.projectId);
    var personas :- GetAll(t.personas, PersonaKey, experiment.personaIds);
    var lastMessage := GetLastMessage(t, experiment.id);
    if lastMessage.Some? && HasPendingReplies(lastMessage.value) then Err(PendingReplies)
    else Ok(Turn(experiment, project, lastMessage, personas))
  }

  // ---------------------------------------------------------------- writes

  /** The message `createMessage` inserts: the user's text and one pending
      reply per persona of the experiment, in the experiment's order. */
  function NewMessage(id: Id, content: string, experiment: Experiment, user: User): (m: Message)
    ensures m.id == id && m.author == user.email && m.content == content && m.experimentId == experiment.id
    ensures |m.replies| == |experiment.personaIds|
    ensures forall i | 0 <= i < |m.replies| :: m.replies[i] == Pending(experiment.personaIds[i])
    ensures HasPendingReplies(m) <==> experiment.personaIds != []
  {
    var replies := seq(|experiment.personaIds|, i requires 0 <= i < |experiment.personaIds| =>
                         Pending(experiment.personaIds[i]));
    assert experiment.personaIds != [] ==> replies[0].Pending?;
    Message(id, user.email, content, experiment.id, replies)
  }

  /** `createMessage`: inserts the new message and returns the stored document. */
  method CreateMessage(db: Db, content: string, experiment: Experiment, user: User) returns (message: Message)
    requires db.Valid()
    modifies db
    ensures db.Valid()
    ensures message == NewMessage(old(db.tables.nextId), content, experiment, user)
    ensures db.tables == old(db.tables).(messages := old(db.tables.messages) + [message], nextId := message.id + 1)
  {
    var id := db.InsertMessage(NewMessage(0, content, experiment, user));
    GetAppendFresh(old(db.tables.messages), MessageKey, NewMessage(id, content, experiment, user));
    var created := Get(db.tables.messages, MessageKey, id);
    message := created.value;
  }

  /** The replies `updateReplyStatus` writes: the persona's replies finished
      with the response's text and id, every other reply as given. A finished
      reply never goes back to pending and no reply changes author. */
  function FinishReplies(replies: seq<Reply>, personaId: Id, response: Response, finishedAt: int): (r: seq<Reply>)
    ensures |r| == |replies|
    ensures forall i | 0 <= i < |replies| :: r[i].authorId == replies[i].authorId
    ensures forall i | 0 <= i < |replies| && replies[i].authorId == personaId ::
              r[i] == Finished(personaId, response.outputText, finishedAt, response.id)
    ensures forall i | 0 <= i < |replies| && replies[i].authorId != personaId :: r[i] == replies[i]
    ensures forall i | 0 <= i < |replies| && replies[i].Finished? :: r[i].Finished?
  {
    seq(|replies|, i requires 0 <= i < |replies| =>
      if replies[i].authorId != personaId then replies[i]
      else Finished(replies[i].authorId, response.outputText, finishedAt, response.id))
  }

  /** `updateReplyStatus` as written: patches the message's replies with the
      given copy of the message finished for one persona, then reads the
      message back. `now` is the clock reading. */
  method UpdateReplyStatus(db: Db, message: Message, personaId: Id, response: Response, now: int)
    returns (r: Result<Message, Error>)
    requires db.Valid()
    modifies db
    ensures db.Valid()
    ensures Get(old(db.tables.messages), MessageKey, message.id).None? ==>
              r == Err(MissingDocument) && db.tables == old(db.tables)
    ensures Get(old(db.tables.messages), MessageKey, message.id).Some? ==>
              var replies := FinishReplies(message.replies, personaId, response, now);
              && db.tables == old(db.tables).(messages := PatchReplies(old(db.tables.messages), message.id, replies))
              && r == Ok(Get(old(db.tables.messages), MessageKey, message.id).value.(replies := replies))
  {
    var replies := FinishReplies(message.replies, personaId, response, now);
    var found := db.PatchMessageReplies(message.id, replies);
    if !found {
      return Err(MissingDocument);
    }
    GetPatchReplies(old(db.tables.messages), message.id, replies);
    var updated := Get(db.tables.messages, MessageKey, message.id);
    r := Ok(updated.value);
  }

  /** `updateReplyStatus` corrected: finishes the persona's reply on the
      message as currently stored. */
  method UpdateReplyStatusCorrected(db: Db, messageId: Id, personaId: Id, response: Response, now: int)
    returns (r: Result<Message, Error>)
    requires db.Valid()
    modifies db
    ensures db.Valid()
    ensures Get(old(db.tables.messages), MessageKey, messageId).None? ==>
              r == Err(MissingDocument) && db.tables == old(db.tables)
    ensures Get(old(db.tables.messages), MessageKey, messageId).Some? ==>
              var stored := Get(old(db.tables.messages), MessageKey, messageId).value;
              var replies := FinishReplies(stored.replies, personaId, response, now);
              && db.tables == old(db.tables).(messages := PatchReplies(old(db.tables.messages), messageId, replies))
              && r == Ok(stored.(replies := replies))
  {
    var current := Get(db.tables.messages, MessageKey, messageId);
    if current.None? {
      return Err(MissingDocument);
    }
    var replies := FinishReplies(current.value.replies, personaId, response, now);
    var found := db.PatchMessageReplies(messageId, replies);
    GetPatchReplies(old(db.tables.messages), messageId, replies);
    var updated := Get(db.tables.messages, MessageKey, messageId);
    r := Ok(updated.value);
  }

  // ---------------------------------------------------------------- fan-out

  /** One persona's answer, ready to be recorded: who answered, the response
      and the clock reading when it is recorded. */
  datatype ReplyUpdate = ReplyUpdate(personaId: Id, response: Response, finishedAt: int)

  /** The answers of a first turn, one per persona in persona order; the
      `clock` gives the time of the k-th recording. */
  function InitialUpdates(content: string, turn: Turn, respond: ResponseRequest -> Response, clock: nat -> int)
    : (r: seq<ReplyUpdate>)
    ensures |r| == |turn.personas|
    ensures forall k | 0 <= k < |r| :: r[k].personaId == turn.personas[k].id
  {
    seq(|turn.personas|, k requires 0 <= k < |turn.personas| =>
      ReplyUpdate(turn.personas[k].id,
                  respond(InitialRequest(content, turn.experiment, turn.personas[k], turn.project)),
                  clock(k)))
  }

  /** On a first turn the k-th answer responds to the k-th persona's
      instructions, and is recorded at the k-th clock reading. */
  lemma InitialUpdatesRequests(content: string, turn: Turn, respond: ResponseRequest -> Response,
                               clock: nat -> int, k: nat)
    requires k < |turn.personas|
    ensures var u := InitialUpdates(content, turn, respond, clock)[k];
            && u.response == respond(InitialRequest(content, turn.experiment, turn.personas[k], turn.project))
            && u.finishedAt == clock(k)
  {
  }

  /** The answers of a later turn, one per pairing, each chained to the
      persona's previous response. */
  function FollowUpUpdates(content: string, pairs: seq<Pairing>, respond: ResponseRequest -> Response, clock: nat -> int)
    : (r: seq<ReplyUpdate>)
    requires forall k | 0 <= k < |pairs| :: pairs[k].reply.Finished?
    ensures |r| == |pairs|
    ensures forall k | 0 <= k < |r| :: r[k].personaId == pairs[k].persona.id
    ensures forall k | 0 <= k < |r| ::
              && r[k].response == respond(FollowUpRequest(content, pairs[k].reply.openaiReplyId))
              && r[k].finishedAt == clock(k)
  {
    seq(|pairs|, k requires 0 <= k < |pairs| =>
      ReplyUpdate(pairs[k].persona.id,
                  respond(FollowUpRequest(content, pairs[k].reply.openaiReplyId)),
                  clock(k)))
  }

  /** As written: every recording patches the replies of the copy of the
      message `createMessage` returned, so each one overwrites the previous
      and only the last answer to land survives. */
  function FromSnapshot(snapshot: seq<Reply>, updates: seq<ReplyUpdate>): (r: seq<Reply>)
    ensures |r| == |snapshot|
    ensures forall i | 0 <= i < |snapshot| :: r[i].authorId == snapshot[i].authorId
    ensures updates != [] ==>
              forall i | 0 <= i < |snapshot| && snapshot[i].authorId != updates[|updates| - 1].personaId ::
                r[i] == snapshot[i]
    ensures updates != [] ==>
              var u := updates[|updates| - 1];
              forall i | 0 <= i < |snapshot| && snapshot[i].authorId == u.personaId ::
                r[i] == Finished(u.personaId, u.response.outputText, u.finishedAt, u.response.id)
  {
    if updates == [] then snapshot
    else
      var u := updates[|updates| - 1];
      FinishReplies(snapshot, u.personaId, u.response, u.finishedAt)
  }

  /** Corrected: every recording applies to the replies as they are stored,
      so the answers accumulate. No reply changes author. */
  function Accumulated(replies: seq<Reply>, updates: seq<ReplyUpdate>): (r: seq<Reply>)
    ensures |r| == |replies|
    ensures forall i | 0 <= i < |replies| :: r[i].authorId == replies[i].authorId
    decreases |updates|
  {
    if updates == [] then replies
    else
      var u := updates[|updates| - 1];
      FinishReplies(Accumulated(replies, updates[..|updates| - 1]), u.personaId, u.response, u.finishedAt)
  }

  /** After accumulating, a reply is still pending only if it was pending and
      no answer came from its persona. */
  lemma {:induction false} AccumulatedPending(replies: seq<Reply>, updates: seq<ReplyUpdate>, i: nat)
    requires i < |replies| && Accumulated(replies, updates)[i].Pending?
    ensures replies[i].Pending?
    ensures forall k | 0 <= k < |updates| :: updates[k].personaId != replies[i].authorId
    decreases |updates|
  {
    if updates != [] {
      var front := updates[..|updates| - 1];
      AccumulatedPending(replies, front, i);
      assert forall k | 0 <= k < |updates| - 1 :: front[k] == updates[k];
    }
  }

  /** A reply no update names is kept as it was. */
  lemma {:induction false} AccumulatedUntouched(replies: seq<Reply>, updates: seq<ReplyUpdate>, i: nat)
    requires i < |replies|
    requires forall k | 0 <= k < |updates| :: updates[k].personaId != replies[i].authorId
    ensures Accumulated(replies, updates)[i] == replies[i]
    decreases |updates|
  {
    if updates != [] {
      var front := updates[..|updates| - 1];
      assert forall k | 0 <= k < |front| :: front[k] == updates[k];
      AccumulatedUntouched(replies, front, i);
    }
  }

  /** A reply some update names holds the last such update's answer: its
      text, its response id and its recording time. */
  lemma {:induction false} AccumulatedLastUpdate(replies: seq<Reply>, updates: seq<ReplyUpdate>, i: nat, k: nat)
    requires i < |replies| && k < |updates|
    requires updates[k].personaId == replies[i].authorId
    requires forall j | k < j < |updates| :: updates[j].personaId != replies[i].authorId
    ensures Accumulated(replies, updates)[i]
            == Finished(replies[i].authorId, updates[k].response.outputText, updates[k].finishedAt, updates[k].response.id)
    decreases |updates|
  {
    var front := updates[..|updates| - 1];
    if k < |updates| - 1 {
      assert forall j | 0 <= j < |front| :: front[j] == updates[j];
      AccumulatedLastUpdate(replies, front, i, k);
    }
  }

  /** The messages table after recording `updates` as written. */
  function SnapshotTable(ms: seq<Message>, message: Message, updates: seq<ReplyUpdate>): seq<Message> {
    match Get(ms, MessageKey, message.id)
    case None => ms
    case Some(_) => if updates == [] then ms else PatchReplies(ms, message.id, FromSnapshot(message.replies, updates))
  }

  /** One more recording as written: the message is still there, and the
      table is the one for the longer list. */
  lemma SnapshotStep(ms: seq<Message>, message: Message, updates: seq<ReplyUpdate>, u: ReplyUpdate)
    requires Get(ms, MessageKey, message.id).Some?
    ensures Get(SnapshotTable(ms, message, updates), MessageKey, message.id).Some?
    ensures PatchReplies(SnapshotTable(ms, message, updates), message.id,
                         FinishReplies(message.replies, u.personaId, u.response, u.finishedAt))
         == SnapshotTable(ms, message, updates + [u])
  {
    if updates != [] {
      GetPatchReplies(ms, message.id, FromSnapshot(message.replies, updates));
      PatchRepliesTwice(ms, message.id, FromSnapshot(message.replies, updates),
                        FinishReplies(message.replies, u.personaId, u.response, u.finishedAt));
    }
    assert (updates + [u])[|updates + [u]| - 1] == u;
  }

  /** One recording of the fan-out as written. */
  method RecordOneFromSnapshot(db: Db, message: Message, ghost base: Tables, ghost ms: seq<Message>,
                  updates: seq<ReplyUpdate>, i: nat)
    returns (r: Result<Message, Error>)
    requires db.Valid()
    requires Get(ms, MessageKey, message.id).Some?
    requires i < |updates|
    requires db.tables == base.(messages := SnapshotTable(ms, message, updates[..i]))
    modifies db
    ensures db.Valid()
    ensures r.Ok?
    ensures db.tables == base.(messages := SnapshotTable(ms, message, updates[..i + 1]))
  {
    var u := updates[i];
    assert updates[..i + 1] == updates[..i] + [u];
    SnapshotStep(ms, message, updates[..i], u);
    r := UpdateReplyStatus(db, message, u.personaId, u.response, u.finishedAt);
  }

  /** The fan-out as written (`Promise.all` over the personas, run in order):
      each answer is recorded through `UpdateReplyStatus` with the same copy
      of the message. */
  method RecordFromSnapshot(db: Db, message: Message, updates: seq<ReplyUpdate>) returns (r: Outcome<Error>)
    requires db.Valid()
    modifies db
    ensures db.Valid()
    ensures db.tables == old(db.tables).(messages := SnapshotTable(old(db.tables.messages), message, updates))
    ensures r == Pass <==> updates == [] || Get(old(db.tables.messages), MessageKey, message.id).Some?
    ensures r.Fail? ==> r.error == MissingDocument
  {
    if updates == [] {
      return Pass;
    }
    if Get(db.tables.messages, MessageKey, message.id).None? {
      var recorded := UpdateReplyStatus(db, message, updates[0].personaId, updates[0].response, updates[0].finishedAt);
      return Fail(recorded.error);
    }
    RecordEachSnapshot(db, message, updates);
    r := Pass;
  }

  /** The loop of `RecordFromSnapshot` once the message is known to be stored: one
      recording per answer, in order. */
  method RecordEachSnapshot(db: Db, message: Message, updates: seq<ReplyUpdate>)
    requires db.Valid()
    requires Get(db.tables.messages, MessageKey, message.id).Some?
    modifies db
    ensures db.Valid()
    ensures db.tables == old(db.tables).(messages := SnapshotTable(old(db.tables.messages), message, updates))
  {
    ghost var base := db.tables;
    ghost var ms := db.tables.messages;
    var i := 0;
    while i < |updates|
      invariant 0 <= i <= |updates|
      invariant db.Valid()
      invariant db.tables == base.(messages := SnapshotTable(ms, message, updates[..i]))
    {
      var _ := RecordOneFromSnapshot(db, message, base, ms, updates, i);
      i := i + 1;
    }
    assert updates[..i] == updates;
  }

  /** The messages table after recording `updates` on the stored message. */
  function AccumulatedTable(ms: seq<Message>, messageId: Id, updates: seq<ReplyUpdate>): seq<Message> {
    match Get(ms, MessageKey, messageId)
    case None => ms
    case Some(stored) => if updates == [] then ms else PatchReplies(ms, messageId, Accumulated(stored.replies, updates))
  }

  /** One more recording on the stored message. */
  lemma AccumulatedStep(ms: seq<Message>, messageId: Id, updates: seq<ReplyUpdate>, u: ReplyUpdate)
    requires Get(ms, MessageKey, messageId).Some?
    ensures var stored := Get(AccumulatedTable(ms, messageId, updates), MessageKey, messageId);
            && stored.Some?
            && PatchReplies(AccumulatedTable(ms, messageId, updates), messageId,
                            FinishReplies(stored.value.replies, u.personaId, u.response, u.finishedAt))
               == AccumulatedTable(ms, messageId, updates + [u])
  {
    var replies := Get(ms, MessageKey, messageId).value.replies;
    var longer := updates + [u];
    assert longer[|longer| - 1] == u && longer[..|longer| - 1] == updates;
    var next := FinishReplies(Accumulated(replies, updates), u.personaId, u.response, u.finishedAt);
    assert Accumulated(replies, longer) == next;
    if updates != [] {
      GetPatchReplies(ms, messageId, Accumulated(replies, updates));
      PatchRepliesTwice(ms, messageId, Accumulated(replies, updates), next);
    }
  }

  /** One recording of the corrected fan-out. */
  method RecordOneAccumulated(db: Db, messageId: Id, ghost base: Tables, ghost ms: seq<Message>,
                  updates: seq<ReplyUpdate>, i: nat)
    returns (r: Result<Message, Error>)
    requires db.Valid()
    requires Get(ms, MessageKey, messageId).Some?
    requires i < |updates|
    requires db.tables == base.(messages := AccumulatedTable(ms, messageId, updates[..i]))
    modifies db
    ensures db.Valid()
    ensures r.Ok?
    ensures db.tables == base.(messages := AccumulatedTable(ms, messageId, updates[..i + 1]))
  {
    var u := updates[i];
    assert updates[..i + 1] == updates[..i] + [u];
    AccumulatedStep(ms, messageId, updates[..i], u);
    r := UpdateReplyStatusCorrected(db, messageId, u.personaId, u.response, u.finishedAt);
  }

  /** The corrected fan-out: each answer is recorded on the message as
      currently stored. */
  method RecordAccumulated(db: Db, messageId: Id, updates: seq<ReplyUpdate>) returns (r: Outcome<Error>)
    requires db.Valid()
    modifies db
    ensures db.Valid()
    ensures db.tables == old(db.tables).(messages := AccumulatedTable(old(db.tables.messages), messageId, updates))
    ensures r == Pass <==> updates == [] || Get(old(db.tables.messages), MessageKey, messageId).Some?
    ensures r.Fail? ==> r.error == MissingDocument
  {
    if updates == [] {
      return Pass;
    }
    if Get(db.tables.messages, MessageKey, messageId).None? {
      var recorded := UpdateReplyStatusCorrected(db, messageId, updates[0].personaId, updates[0].response, updates[0].finishedAt);
      return Fail(recorded.error);
    }
    RecordEachAccumulated(db, messageId, updates);
    r := Pass;
  }

  /** The loop of `RecordAccumulated` once the message is known to be stored: one
      recording per answer, in order. */
  method RecordEachAccumulated(db: Db, messageId: Id, updates: seq<ReplyUpdate>)
    requires db.Valid()
    requires Get(db.tables.messages, MessageKey, messageId).Some?
    modifies db
    ensures db.Valid()
    ensures db.tables == old(db.tables).(messages := AccumulatedTable(old(db.tables.messages), messageId, updates))
  {
    ghost var base := db.tables;
    ghost var ms := db.tables.messages;
    var i := 0;
    while i < |updates|
      invariant 0 <= i <= |updates|
      invariant db.Valid()
      invariant db.tables == base.(messages := AccumulatedTable(ms, messageId, updates[..i]))
    {
      var _ := RecordOneAccumulated(db, messageId, base, ms, updates, i);
      i := i + 1;
    }
    assert updates[..i] == updates;
  }

  // ---------------------------------------------------------------- workflow

  /** The store after `createMessage` inserted `m` under the next id. */
  function WithMessage(t: Tables, m: Message): Tables {
    t.(messages := t.messages + [m], nextId := t.nextId + 1)
  }

  /** The answers as written: a first turn asks every persona with its
      instructions; a later turn pairs the personas with the replies of
      `message`, the message just created. */
  function AsWrittenUpdates(content: string, turn: Turn, message: Message,
                            respond: ResponseRequest -> Response, clock: nat -> int)
    : (r: Result<seq<ReplyUpdate>, Error>)
    ensures r.Ok? ==> |r.value| == |turn.personas|
    ensures r.Ok? ==> forall k | 0 <= k < |r.value| :: r.value[k].personaId == turn.personas[k].id
    ensures r.Err? <==> turn.lastMessage.Some? && MatchPersonasWithMessageReplies(message, turn.personas).Err?
    ensures r.Err? ==> r.error == Inconsistent
  {
    if turn.lastMessage.None? then Ok(InitialUpdates(content, turn, respond, clock))
    else
      var pairs :- MatchPersonasWithMessageReplies(message, turn.personas);
      Ok(FollowUpUpdates(content, pairs, respond, clock))
  }

  /** Corrected: a later turn pairs the personas with the replies of the
      previous message, whose finished replies carry the response ids. */
  function CorrectedUpdates(content: string, turn: Turn,
                            respond: ResponseRequest -> Response, clock: nat -> int)
    : (r: Result<seq<ReplyUpdate>, Error>)
    ensures r.Ok? ==> |r.value| == |turn.personas|
    ensures r.Ok? ==> forall k | 0 <= k < |r.value| :: r.value[k].personaId == turn.personas[k].id
    ensures r.Err? <==>
              && turn.lastMessage.Some?
              && exists i | 0 <= i < |turn.personas| :: !AnsweredBy(turn.lastMessage.value.replies, turn.personas[i].id)
    ensures r.Err? ==> r.error == Inconsistent
  {
    if turn.lastMessage.None? then Ok(InitialUpdates(content, turn, respond, clock))
    else
      var pairs :- MatchPersonasWithMessageReplies(turn.lastMessage.value, turn.personas);
      Ok(FollowUpUpdates(content, pairs, respond, clock))
  }

  /** The request the corrected turn sends for the k-th persona: on a first
      turn its instructions, on a later turn a continuation of the persona's
      finished reply on the previous message. */
  function TurnRequest(content: string, turn: Turn, k: nat): ResponseRequest
    requires k < |turn.personas|
    requires turn.lastMessage.Some? ==> AnsweredBy(turn.lastMessage.value.replies, turn.personas[k].id)
  {
    match turn.lastMessage
    case None => InitialRequest(content, turn.experiment, turn.personas[k], turn.project)
    case Some(last) => FollowUpRequest(content, FindReply(last.replies, turn.personas[k].id).value.openaiReplyId)
  }

  /** Corrected, the k-th answer responds to the k-th persona's request: a
      later turn continues from the id of the persona's reply on the previous
      message. */
  lemma CorrectedRequests(content: string, turn: Turn, respond: ResponseRequest -> Response,
                          clock: nat -> int, k: nat)
    requires CorrectedUpdates(content, turn, respond, clock).Ok?
    requires k < |turn.personas|
    ensures turn.lastMessage.Some? ==> AnsweredBy(turn.lastMessage.value.replies, turn.personas[k].id)
    ensures var u := CorrectedUpdates(content, turn, respond, clock).value[k];
            && u.response == respond(TurnRequest(content, turn, k))
            && u.finishedAt == clock(k)
    ensures turn.lastMessage.Some? ==>
              CorrectedUpdates(content, turn, respond, clock).value[k].response
              == respond(FollowUpRequest(content, FindReply(turn.lastMessage.value.replies, turn.personas[k].id).value.openaiReplyId))
  {
    if turn.lastMessage.None? {
      InitialUpdatesRequests(content, turn, respond, clock, k);
    }
  }

  /** A freshly created message pairs with no persona: every reply of it is
      pending, so the pairing succeeds exactly when there is no persona. */
  lemma {:induction false} MatchOnFreshMessage(id: Id, content: string, experiment: Experiment, user: User, personas: seq<Persona>)
    requires |personas| == |experiment.personaIds|
    requires forall i | 0 <= i < |personas| :: personas[i].id == experiment.personaIds[i]
    ensures MatchPersonasWithMessageReplies(NewMessage(id, content, experiment, user), personas).Ok?
            <==> personas == []
  {
    var m := NewMessage(id, content, experiment, user);
    if personas != [] {
      assert m.replies[0].authorId == personas[0].id;
      var found := FindReply(m.replies, personas[0].id);
      assert found.Some? && found.value.Pending?;
      assert !AnsweredBy(m.replies, personas[0].id);
    }
  }

  /** The store a run leaves once the message is in: the tables before the
      run plus the message, with the given replies. */
  predicate AppendsMessage(t: Tables, run: Run, content: string, experimentId: Id, user: User, personaIds: seq<Id>) {
    && |run.tables.messages| == |t.messages| + 1
    && run.tables == t.(messages := run.tables.messages, nextId := t.nextId + 1)
    && run.tables.messages[..|t.messages|] == t.messages
    && var last := run.tables.messages[|t.messages|];
       && last.id == t.nextId && last.author == user.email && last.content == content
       && last.experimentId == experimentId
       && |last.replies| == |personaIds|
       && forall i | 0 <= i < |personaIds| :: last.replies[i].authorId == personaIds[i]
  }

  /** The personas of a turn are those the experiment lists, in its order. */
  predicate PersonasOfExperiment(turn: Turn) {
    && |turn.personas| == |turn.experiment.personaIds|
    && forall i | 0 <= i < |turn.personas| :: turn.personas[i].id == turn.experiment.personaIds[i]
  }

  /** Storing a fresh message whose replies were rewritten without changing
      their authors. */
  lemma StoredAppends(t: Tables, content: string, experiment: Experiment, user: User,
                      replies: seq<Reply>, outcome: Outcome<Error>)
    requires |replies| == |experiment.personaIds|
    requires forall i | 0 <= i < |replies| :: replies[i].authorId == experiment.personaIds[i]
    ensures var m := NewMessage(t.nextId, content, experiment, user).(replies := replies);
            AppendsMessage(t, Run(outcome, WithMessage(t, m)), content, experiment.id, user, experiment.personaIds)
  {
    var m := NewMessage(t.nextId, content, experiment, user).(replies := replies);
    assert (t.messages + [m])[..|t.messages|] == t.messages;
  }

  /** As written, a later turn gets its answers only when there is no persona
      to ask. */
  lemma AsWrittenPairsOnlyWithoutPersonas(id: Id, content: string, turn: Turn, user: User,
                                          respond: ResponseRequest -> Response, clock: nat -> int)
    requires PersonasOfExperiment(turn)
    ensures AsWrittenUpdates(content, turn, NewMessage(id, content, turn.experiment, user), respond, clock).Ok?
            <==> turn.lastMessage.None? || turn.experiment.personaIds == []
  {
    MatchOnFreshMessage(id, content, turn.experiment, user, turn.personas);
  }

  /** The turn as written once the reads succeeded. */
  function AsWrittenTurn(t: Tables, turn: Turn, content: string, user: User,
                         respond: ResponseRequest -> Response, clock: nat -> int): (run: Run)
    requires PersonasOfExperiment(turn)
    ensures AppendsMessage(t, run, content, turn.experiment.id, user, turn.experiment.personaIds)
  {
    var m := NewMessage(t.nextId, content, turn.experiment, user);
    match AsWrittenUpdates(content, turn, m, respond, clock)
    case Err(e) =>
      StoredAppends(t, content, turn.experiment, user, m.replies, Fail(e));
      Run(Fail(e), WithMessage(t, m))
    case Ok(updates) =>
      var replies := FromSnapshot(m.replies, updates);
      StoredAppends(t, content, turn.experiment, user, replies, Pass);
      Run(Pass, WithMessage(t, m.(replies := replies)))
  }

  /** As written, the turn passes exactly when it is the first one or there
      is no persona; otherwise it fails on the pairing. */
  lemma AsWrittenTurnOutcome(t: Tables, turn: Turn, content: string, user: User,
                             respond: ResponseRequest -> Response, clock: nat -> int)
    requires PersonasOfExperiment(turn)
    ensures var run := AsWrittenTurn(t, turn, content, user, respond, clock);
            && (run.outcome == Pass <==> turn.lastMessage.None? || turn.experiment.personaIds == [])
            && (run.outcome.Fail? ==> run.outcome.error == Inconsistent)
  {
    AsWrittenPairsOnlyWithoutPersonas(t.nextId, content, turn, user, respond, clock);
  }

  /** The turn, corrected, once the reads succeeded. */
  function CorrectedTurn(t: Tables, turn: Turn, content: string, user: User,
                         respond: ResponseRequest -> Response, clock: nat -> int): (run: Run)
    requires PersonasOfExperiment(turn)
    ensures AppendsMessage(t, run, content, turn.experiment.id, user, turn.experiment.personaIds)
  {
    var m := NewMessage(t.nextId, content, turn.experiment, user);
    match CorrectedUpdates(content, turn, respond, clock)
    case Err(e) =>
      StoredAppends(t, content, turn.experiment, user, m.replies, Fail(e));
      Run(Fail(e), WithMessage(t, m))
    case Ok(updates) =>
      var replies := Accumulated(m.replies, updates);
      StoredAppends(t, content, turn.experiment, user, replies, Pass);
      Run(Pass, WithMessage(t, m.(replies := replies)))
  }

  /** Corrected, the turn passes exactly when it is the first one or every
      persona answered the previous message, and then every reply of the new
      message is finished. */
  lemma CorrectedTurnOutcome(t: Tables, turn: Turn, content: string, user: User,
                             respond: ResponseRequest -> Response, clock: nat -> int)
    requires PersonasOfExperiment(turn)
    ensures var run := CorrectedTurn(t, turn, content, user, respond, clock);
            && (run.outcome == Pass <==>
                  || turn.lastMessage.None?
                  || forall i | 0 <= i < |turn.personas| :: AnsweredBy(turn.lastMessage.value.replies, turn.personas[i].id))
            && (run.outcome.Fail? ==> run.outcome.error == Inconsistent)
            && (run.outcome == Pass ==> !HasPendingReplies(run.tables.messages[|t.messages|]))
  {
    var m := NewMessage(t.nextId, content, turn.experiment, user);
    var updates := CorrectedUpdates(content, turn, respond, clock);
    if updates.Ok? {
      var replies := Accumulated(m.replies, updates.value);
      forall i | 0 <= i < |replies| ensures replies[i].Finished? {
        assert updates.value[i].personaId == m.replies[i].authorId;
        if replies[i].Pending? {
          AccumulatedPending(m.replies, updates.value, i);
        }
      }
      assert (t.messages + [m.(replies := replies)])[|t.messages|] == m.(replies := replies);
    }
  }

  /** Corrected, after a passing turn the i-th reply of the stored message
      holds the answer to the request of the last persona position `k` with
      the same id (`k == i` when the persona ids differ). */
  lemma CorrectedTurnAnswers(t: Tables, turn: Turn, content: string, user: User,
                             respond: ResponseRequest -> Response, clock: nat -> int, i: nat, k: nat)
    requires PersonasOfExperiment(turn)
    requires CorrectedTurn(t, turn, content, user, respond, clock).outcome == Pass
    requires i < |turn.personas| && k < |turn.personas|
    requires turn.personas[k].id == turn.personas[i].id
    requires forall j | k < j < |turn.personas| :: turn.personas[j].id != turn.personas[i].id
    ensures turn.lastMessage.Some? ==> AnsweredBy(turn.lastMessage.value.replies, turn.personas[k].id)
    ensures var response := respond(TurnRequest(content, turn, k));
            CorrectedTurn(t, turn, content, user, respond, clock).tables.messages[|t.messages|].replies[i]
            == Finished(turn.personas[i].id, response.outputText, clock(k), response.id)
  {
    var m := NewMessage(t.nextId, content, turn.experiment, user);
    var updates := CorrectedUpdates(content, turn, respond, clock).value;
    CorrectedRequests(content, turn, respond, clock, k);
    AccumulatedLastUpdate(m.replies, updates, i, k);
    var replies := Accumulated(m.replies, updates);
    assert (t.messages + [m.(replies := replies)])[|t.messages|] == m.(replies := replies);
  }

  /** `sendMessageWorkflow` as written, with the answers recorded in persona
      order. A failed read ends the run with the store untouched; otherwise
      the message is stored, and the run passes exactly on a first turn or
      when the experiment has no persona: on a later turn the pairing with the
      fresh message throws. */
  function SendMessageAsWritten(t: Tables, content: string, experimentId: Id, user: User,
                                respond: ResponseRequest -> Response, clock: nat -> int): (run: Run)
    ensures PrepareTurn(t, experimentId, user).Err? ==> run == Run(Fail(PrepareTurn(t, experimentId, user).error), t)
    ensures PrepareTurn(t, experimentId, user).Ok? ==>
              var turn := PrepareTurn(t, experimentId, user).value;
              && AppendsMessage(t, run, content, experimentId, user, turn.experiment.personaIds)
              && (run.outcome == Pass <==> turn.lastMessage.None? || turn.experiment.personaIds == [])
              && (run.outcome.Fail? ==> run.outcome.error == Inconsistent)
  {
    match PrepareTurn(t, experimentId, user)
    case Err(e) => Run(Fail(e), t)
    case Ok(turn) =>
      AsWrittenTurnOutcome(t, turn, content, user, respond, clock);
      AsWrittenTurn(t, turn, content, user, respond, clock)
  }

  /** The corrected workflow: later turns pair with the previous message and
      every answer is recorded on the stored message. The run passes exactly
      on a first turn or when every persona answered the previous message,
      and then no reply of the new message is left pending. */
  function SendMessageCorrected(t: Tables, content: string, experimentId: Id, user: User,
                                respond: ResponseRequest -> Response, clock: nat -> int): (run: Run)
    ensures PrepareTurn(t, experimentId, user).Err? ==> run == Run(Fail(PrepareTurn(t, experimentId, user).error), t)
    ensures PrepareTurn(t, experimentId, user).Ok? ==>
              var turn := PrepareTurn(t, experimentId, user).value;
              && AppendsMessage(t, run, content, experimentId, user, turn.experiment.personaIds)
              && (run.outcome == Pass <==>
                    || turn.lastMessage.None?
                    || forall i | 0 <= i < |turn.personas| :: AnsweredBy(turn.lastMessage.value.replies, turn.personas[i].id))
              && (run.outcome.Fail? ==> run.outcome.error == Inconsistent)
              && (run.outcome == Pass ==> !HasPendingReplies(run.tables.messages[|t.messages|]))
  {
    match PrepareTurn(t, experimentId, user)
    case Err(e) => Run(Fail(e), t)
    case Ok(turn) =>
      CorrectedTurnOutcome(t, turn, content, user, respond, clock);
      CorrectedTurn(t, turn, content, user, respond, clock)
  }

  /** The turn as written once the reads succeeded: `createMessage`, then
      one inference call and one `updateReplyStatus` per persona, each given
      the message `createMessage` returned. */
  method RunTurnAsWritten(db: Db, turn: Turn, content: string, user: User,
                          respond: ResponseRequest -> Response, clock: nat -> int)
    returns (r: Outcome<Error>)
    requires db.Valid()
    requires PersonasOfExperiment(turn)
    modifies db
    ensures db.Valid()
    ensures var run := AsWrittenTurn(old(db.tables), turn, content, user, respond, clock);
            r == run.outcome && db.tables == run.tables
  {
    var message := CreateMessage(db, content, turn.experiment, user);
    var updates := AsWrittenUpdates(content, turn, message, respond, clock);
    if updates.Err? {
      return Fail(updates.error);
    }
    GetAppendFresh(old(db.tables.messages), MessageKey, message);
    PatchRepliesLast(old(db.tables.messages), message, FromSnapshot(message.replies, updates.value));
    assert message.(replies := FromSnapshot(message.replies, [])) == message;
    r := RecordFromSnapshot(db, message, updates.value);
  }

  /** `sendMessageWorkflow` as written. */
  method SendMessageWorkflow(db: Db, content: string, experimentId: Id, user: User,
                             respond: ResponseRequest -> Response, clock: nat -> int)
    returns (r: Outcome<Error>)
    requires db.Valid()
    modifies db
    ensures db.Valid()
    ensures var run := SendMessageAsWritten(old(db.tables), content, experimentId, user, respond, clock);
            r == run.outcome && db.tables == run.tables
  {
    var prepared := PrepareTurn(db.tables, experimentId, user);
    if prepared.Err? {
      return Fail(prepared.error);
    }
    r := RunTurnAsWritten(db, prepared.value, content, user, respond, clock);
  }

  /** The turn, corrected, once the reads succeeded: later turns chain to the
      previous message's replies, and every answer is recorded on the stored
      message. */
  method RunTurnCorrected(db: Db, turn: Turn, content: string, user: User,
                          respond: ResponseRequest -> Response, clock: nat -> int)
    returns (r: Outcome<Error>)
    requires db.Valid()
    requires PersonasOfExperiment(turn)
    modifies db
    ensures db.Valid()
    ensures var run := CorrectedTurn(old(db.tables), turn, content, user, respond, clock);
            r == run.outcome && db.tables == run.tables
  {
    var message := CreateMessage(db, content, turn.experiment, user);
    var updates := CorrectedUpdates(content, turn, respond, clock);
    if updates.Err? {
      return Fail(updates.error);
    }
    GetAppendFresh(old(db.tables.messages), MessageKey, message);
    PatchRepliesLast(old(db.tables.messages), message, Accumulated(message.replies, updates.value));
    assert message.(replies := Accumulated(message.replies, [])) == message;
    r := RecordAccumulated(db, message.id, updates.value);
  }

  /** The corrected workflow. */
  method SendMessageWorkflowCorrected(db: Db, content: string, experimentId: Id, user: User,
                                      respond: ResponseRequest -> Response, clock: nat -> int)
    returns (r: Outcome<Error>)
    requires db.Valid()
    modifies db
    ensures db.Valid()
    ensures var run := SendMessageCorrected(old(db.tables), content, experimentId, user, respond, clock);
            r == run.outcome && db.tables == run.tables
  {
    var prepared := PrepareTurn(db.tables, experimentId, user);
    if prepared.Err? {
      return Fail(prepared.error);
    }
    r := RunTurnCorrected(db, prepared.value, content, user, respond, clock);
  }

  // ---------------------------------------------------------------- the next turn

  /** After a run that stored a message, the next run reads the same
      experiment, project and personas, and its newest message is the one
      just stored. */
  lemma NextTurnSees(t: Tables, run: Run, content: string, experimentId: Id, user: User, personaIds: seq<Id>)
    requires AppendsMessage(t, run, content, experimentId, user, personaIds)
    ensures ReadsSucceed(run.tables, experimentId, user) == ReadsSucceed(t, experimentId, user)
    ensures GetLastMessage(run.tables, experimentId) == Some(run.tables.messages[|t.messages|])
  {
    var ms := run.tables.messages;
    var n := |t.messages|;
    var last := GetLastMessage(run.tables, experimentId);
    assert ms[n] in ms;
    var i :| 0 <= i < |ms| && ms[i] == last.value && last.value.experimentId == experimentId
             && forall j | i < j < |ms| :: ms[j].experimentId != experimentId;
    assert i == n;
  }

  /** As written, a first turn with two different personas never completes:
      only the answer recorded last survives, another persona's reply stays
      pending, and every later message is refused. */
  lemma {:induction false} AsWrittenFirstTurnBlocks(t: Tables, content: string, experimentId: Id, user: User,
                                                     respond: ResponseRequest -> Response, clock: nat -> int, k: nat)
    requires PrepareTurn(t, experimentId, user).Ok?
    requires PrepareTurn(t, experimentId, user).value.lastMessage.None?
    requires var ids := PrepareTurn(t, experimentId, user).value.experiment.personaIds;
             k < |ids| && ids[k] != ids[|ids| - 1]
    ensures var run := SendMessageAsWritten(t, content, experimentId, user, respond, clock);
            && run.outcome == Pass
            && HasPendingReplies(run.tables.messages[|t.messages|])
            && PrepareTurn(run.tables, experimentId, user) == Err(PendingReplies)
  {
    var turn := PrepareTurn(t, experimentId, user).value;
    var ids := turn.experiment.personaIds;
    var run := SendMessageAsWritten(t, content, experimentId, user, respond, clock);
    var m := NewMessage(t.nextId, content, turn.experiment, user);
    var updates := InitialUpdates(content, turn, respond, clock);
    assert run == AsWrittenTurn(t, turn, content, user, respond, clock);
    assert run.tables.messages == t.messages + [m.(replies := FromSnapshot(m.replies, updates))];
    var stored := run.tables.messages[|t.messages|];
    assert stored.replies == FromSnapshot(m.replies, updates);
    assert updates[|updates| - 1].personaId == ids[|ids| - 1];
    assert stored.replies[k] == Pending(ids[k]);
    NextTurnSees(t, run, content, experimentId, user, ids);
  }

  /** As written, any later turn of an experiment with personas fails after
      storing the new message, whose replies all stay pending, so every later
      message is refused. */
  lemma {:induction false} AsWrittenLaterTurnBlocks(t: Tables, content: string, experimentId: Id, user: User,
                                                    respond: ResponseRequest -> Response, clock: nat -> int)
    requires PrepareTurn(t, experimentId, user).Ok?
    requires PrepareTurn(t, experimentId, user).value.lastMessage.Some?
    requires PrepareTurn(t, experimentId, user).value.experiment.personaIds != []
    ensures var run := SendMessageAsWritten(t, content, experimentId, user, respond, clock);
            && run.outcome == Fail(Inconsistent)
            && HasPendingReplies(run.tables.messages[|t.messages|])
            && PrepareTurn(run.tables, experimentId, user) == Err(PendingReplies)
  {
    var turn := PrepareTurn(t, experimentId, user).value;
    var run := SendMessageAsWritten(t, content, experimentId, user, respond, clock);
    var m := NewMessage(t.nextId, content, turn.experiment, user);
    assert run == AsWrittenTurn(t, turn, content, user, respond, clock);
    AsWrittenPairsOnlyWithoutPersonas(t.nextId, content, turn, user, respond, clock);
    assert run.tables.messages == t.messages + [m];
    NextTurnSees(t, run, content, experimentId, user, turn.experiment.personaIds);
  }

  /** Corrected, a turn whose personas all answered the previous message
      completes: the new message has no pending reply and the next message is
      accepted as far as the thread is concerned. */
  lemma {:induction false} CorrectedTurnCompletes(t: Tables, content: string, experimentId: Id, user: User,
                                                  respond: ResponseRequest -> Response, clock: nat -> int)
    requires PrepareTurn(t, experimentId, user).Ok?
    requires var turn := PrepareTurn(t, experimentId, user).value;
             || turn.lastMessage.None?
             || forall i | 0 <= i < |turn.personas| :: AnsweredBy(turn.lastMessage.value.replies, turn.personas[i].id)
    ensures var run := SendMessageCorrected(t, content, experimentId, user, respond, clock);
            && run.outcome == Pass
            && !HasPendingReplies(run.tables.messages[|t.messages|])
            && PrepareTurn(run.tables, experimentId, user).Ok?
  {
    var turn := PrepareTurn(t, experimentId, user).value;
    var run := SendMessageCorrected(t, content, experimentId, user, respond, clock);
    NextTurnSees(t, run, content, experimentId, user, turn.experiment.personaIds);
  }
}
