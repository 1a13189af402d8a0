/** The reply predicates: is a turn still open, and which reply answers which
    persona. */
module MessageHelpers {
  import opened Wrappers
  import opened Schema
  import opened Database

  /** `replies.some((reply) => reply.status === "pending")`. */
  function AnyPending(replies: seq<Reply>): (r: bool)
    ensures r <==> exists i | 0 <= i < |replies| :: replies[i].Pending?
  {
    if replies == [] then false else replies[0].Pending? || AnyPending(replies[1..])
  }

  /** `hasPendingReplies`: some persona has not answered this message yet. */
  function HasPendingReplies(m: Message): (r: bool)
    ensures r <==> exists i | 0 <= i < |m.replies| :: m.replies[i].Pending?
    ensures m.replies == [] ==> !r
  {
    AnyPending(m.replies)
  }

  function ReplyAuthor(reply: Reply): Id { reply.authorId }

  /** `replies.find((r) => r.authorId === personaId)`: the first reply by that persona. */
  function FindReply(replies: seq<Reply>, personaId: Id): (r: Option<Reply>)
    ensures r.Some? ==> r.value in replies && r.value.authorId == personaId
    ensures r.Some? ==> exists i | 0 <= i < |replies| ::
              replies[i] == r.value && forall j | 0 <= j < i :: replies[j].authorId != personaId
    ensures r.None? <==> forall i | 0 <= i < |replies| :: replies[i].authorId != personaId
  {
    var found := Find(replies, ReplyAuthor, personaId);
    if found.Some? then
      assert forall j | 0 <= j < found.value :: ReplyAuthor(replies[j]) != personaId;
      Get(replies, ReplyAuthor, personaId)
    else Get(replies, ReplyAuthor, personaId)
  }

  /** The persona's first reply exists and is finished. */
  predicate AnsweredBy(replies: seq<Reply>, personaId: Id) {
    var found := FindReply(replies, personaId);
    found.Some? && found.value.Finished?
  }

  datatype Pairing = Pairing(persona: Persona, reply: Reply)

  /** `matchPersonasWithMessageReplies`: one pairing per persona, in persona
      order, with that persona's first reply, which must be finished. */
  function MatchPersonasWithMessageReplies(message: Message, personas: seq<Persona>)
    : (r: Result<seq<Pairing>, Error>)
    ensures r.Ok? ==> |r.value| == |personas|
    ensures r.Ok? ==> forall i | 0 <= i < |personas| ::
              && r.value[i].persona == personas[i]
              && FindReply(message.replies, personas[i].id) == Some(r.value[i].reply)
              && r.value[i].reply.Finished?
    ensures r.Err? <==> exists i | 0 <= i < |personas| :: !AnsweredBy(message.replies, personas[i].id)
    ensures r.Err? ==> r.error == Inconsistent
  {
    if personas == [] then Ok([])
    else
      var found := FindReply(message.replies, personas[0].id);
      if found.Some? && found.value.Finished? then
        match MatchPersonasWithMessageReplies(message, personas[1..])
        case Err(e) => Err(e)
        case Ok(rest) => Ok([Pairing(personas[0], found.value)] + rest)
      else Err(Inconsistent)
  }
}
