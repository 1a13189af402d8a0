/** `listMessages`: one page of an experiment's thread, newest first, every
    reply joined with the persona that wrote it. */
module MessageFunctions {
  import opened Wrappers
  import opened Seqs
  import opened Schema
  import opened Database
  import opened ExperimentHelpers
  import ExperimentFunctions
  import SendMessage

  /** What the caller asks of the paginated read: where to start and how many
      messages to read. The cursor is a position in the index. */
  datatype PageRequest = PageRequest(cursor: nat, numItems: nat)

  /** A page of results with the fields the store returns beside it. */
  datatype Page<T> = Page(page: seq<T>, isDone: bool, continueCursor: nat)

  function Min(a: nat, b: nat): nat {
    if a <= b then a else b
  }

  /** `.paginate(opts)` over an index read: at most `numItems` entries from the
      cursor on, whether the read reached the end, and where the next page
      starts. */
  function Paginate<T>(s: seq<T>, req: PageRequest): (r: Page<T>)
    ensures |r.page| <= req.numItems
    ensures forall i | 0 <= i < |r.page| :: req.cursor + i < |s| && r.page[i] == s[req.cursor + i]
    ensures r.isDone <==> r.continueCursor == |s|
    ensures !r.isDone ==> |r.page| == req.numItems
    ensures req.cursor <= |s| ==> r.continueCursor == req.cursor + |r.page|
  {
    var start := Min(req.cursor, |s|);
    var end := Min(req.cursor + req.numItems, |s|);
    Page(s[start..end], end == |s|, end)
  }

  /** Reading a page and then the page its cursor points to reads the same
      entries as one page of both sizes. */
  lemma NextPageContinues<T>(s: seq<T>, cursor: nat, n: nat, m: nat)
    requires cursor <= |s|
    ensures var first := Paginate(s, PageRequest(cursor, n));
            first.page + Paginate(s, PageRequest(first.continueCursor, m)).page
              == Paginate(s, PageRequest(cursor, n + m)).page
  {
    var first := Paginate(s, PageRequest(cursor, n));
    var end := first.continueCursor;
    var second := Min(end + m, |s|);
    assert s[cursor..end] + s[end..second] == s[cursor..second];
  }

  /** The experiment's messages as the `experimentId` index reads them in
      descending order: newest first. */
  function NewestFirst(t: Tables, experimentId: Id): (r: seq<Message>)
    ensures |r| == |t.MessagesByExperiment(experimentId)|
    ensures forall i | 0 <= i < |r| :: r[i] == t.MessagesByExperiment(experimentId)[|r| - 1 - i]
    ensures forall m | m in r :: m in t.messages && m.experimentId == experimentId
    ensures forall m | m in t.messages && m.experimentId == experimentId :: m in r
  {
    var index := t.MessagesByExperiment(experimentId);
    ReverseMembers(index);
    Reverse(index)
  }

  /** A reply with the persona whose id is its author id, if the personas
      include one. */
  datatype ReplyWithAuthor = ReplyWithAuthor(reply: Reply, author: Option<Persona>)

  /** A message whose replies carry their authors. */
  datatype MessageWithAuthors = MessageWithAuthors(message: Message, replies: seq<ReplyWithAuthor>)

  /** The per-message step: every reply, in order, with the first persona
      whose id is the reply's author id (`personas.find`). */
  function WithAuthors(m: Message, personas: seq<Persona>): (r: MessageWithAuthors)
    ensures r.message == m
    ensures |r.replies| == |m.replies|
    ensures forall i | 0 <= i < |m.replies| :: r.replies[i].reply == m.replies[i]
    ensures forall i | 0 <= i < |m.replies| :: r.replies[i].author.Some? ==>
              r.replies[i].author.value in personas && r.replies[i].author.value.id == m.replies[i].authorId
    ensures forall i | 0 <= i < |m.replies| ::
              r.replies[i].author.None? <==> forall p | p in personas :: p.id != m.replies[i].authorId
  {
    MessageWithAuthors(m, seq(|m.replies|, i requires 0 <= i < |m.replies| =>
      ReplyWithAuthor(m.replies[i], Get(personas, PersonaKey, m.replies[i].authorId))))
  }

  /** `listMessages`: the experiment's tenant check and its personas (as
      `getExperiment` reads them), then one page of the thread, newest first,
      with the replies' authors; the other page fields pass through. */
  function ListMessages(t: Tables, organizationId: string, experimentId: Id, req: PageRequest)
    : (r: Result<Page<MessageWithAuthors>, Error>)
    ensures r.Ok? <==> ExperimentFunctions.GetExperiment(t, organizationId, experimentId).Ok?
    ensures r.Err? ==> r.error == ExperimentFunctions.GetExperiment(t, organizationId, experimentId).error
    ensures r.Ok? ==>
              var base := Paginate(NewestFirst(t, experimentId), req);
              && |r.value.page| == |base.page|
              && r.value.isDone == base.isDone && r.value.continueCursor == base.continueCursor
              && forall i | 0 <= i < |base.page| :: r.value.page[i].message == base.page[i]
    ensures r.Ok? ==> forall v | v in r.value.page ::
              && v.message in t.messages && v.message.experimentId == experimentId
              && v == WithAuthors(v.message, ExperimentFunctions.GetExperiment(t, organizationId, experimentId).value.personas)
  {
    var experiment :- ExperimentFunctions.GetExperiment(t, organizationId, experimentId);
    var base := Paginate(NewestFirst(t, experimentId), req);
    var page := seq(|base.page|, i requires 0 <= i < |base.page| => WithAuthors(base.page[i], experiment.personas));
    assert forall i | 0 <= i < |base.page| :: base.page[i] in NewestFirst(t, experimentId);
    Ok(Page(page, base.isDone, base.continueCursor))
  }

  /** The first page starts with the message the send-message workflow reads
      as the thread's last one, and is empty only for an empty thread. */
  lemma FirstPageStartsWithLastMessage(t: Tables, organizationId: string, experimentId: Id, numItems: nat)
    requires ListMessages(t, organizationId, experimentId, PageRequest(0, numItems)).Ok?
    requires numItems > 0
    ensures var page := ListMessages(t, organizationId, experimentId, PageRequest(0, numItems)).value.page;
            && (page == [] <==> SendMessage.GetLastMessage(t, experimentId).None?)
            && (page != [] ==> page[0].message == SendMessage.GetLastMessage(t, experimentId).value)
  {
    var s := NewestFirst(t, experimentId);
    if s != [] {
      assert s[0] in s;
    }
  }

  /** A listed reply has an author exactly when its author id is one of the
      experiment's persona ids; the author is then the stored persona with
      that id. A reply by a persona an edit has since removed from the
      experiment has none. */
  lemma ListedReplyAuthors(t: Tables, organizationId: string, experimentId: Id, req: PageRequest, i: nat, j: nat)
    requires ListMessages(t, organizationId, experimentId, req).Ok?
    requires i < |ListMessages(t, organizationId, experimentId, req).value.page|
    requires j < |ListMessages(t, organizationId, experimentId, req).value.page[i].message.replies|
    ensures var v := ListMessages(t, organizationId, experimentId, req).value.page[i];
            var personaIds := GetExperimentHelper(t, organizationId, experimentId).value.personaIds;
            && (v.replies[j].author.Some? <==> v.message.replies[j].authorId in personaIds)
            && (v.replies[j].author.Some? ==>
                  v.replies[j].author.value in t.personas && v.replies[j].author.value.id == v.message.replies[j].authorId)
  {
    var v := ListMessages(t, organizationId, experimentId, req).value.page[i];
    var e := ExperimentFunctions.GetExperiment(t, organizationId, experimentId).value;
    assert v in ListMessages(t, organizationId, experimentId, req).value.page;
    var authorId := v.message.replies[j].authorId;
    if authorId in e.experiment.personaIds {
      var k :| 0 <= k < |e.experiment.personaIds| && e.experiment.personaIds[k] == authorId;
      assert e.personas[k] in e.personas;
    }
  }
}
