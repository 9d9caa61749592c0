/**
 * The monolith's message handlers: reading one conversation's messages, and
 * posting a message, which goes to the first conversation between sender and
 * recipient about the same product (or about no product), or to a new one.
 *
 * The caller id comes from the verified token.
 */
module MessageController {
  import opened Common
  import opened Tables
  import opened LegacyStore

  /** The request body of `postMessage`; an absent product is "". */
  datatype PostInput = PostInput(sender: Id, recipient: Id, message: string, product: Id)

  /**
   * The product part of the conversation query: the given product, or, when
   * none is given, "no product field" (`$exists: false`).
   */
  function ProductOf(product: Id): (p: Option<Id>)
    ensures p.Some? <==> product != ""
    ensures p.Some? ==> p.value == product
  {
    if product != "" then Some(product) else None
  }

  /** The response code, the collections afterwards and the conversation posted to. */
  datatype PostOutcome = PostOutcome(code: int, docs: Docs, conversationId: Id)

  /**
   * `postMessage`. The two saves are taken to succeed; the validation the
   * Message model applies is not modelled.
   */
  function PostMessageResult(d: Docs, input: PostInput, f: Generated): (o: PostOutcome)
    requires Valid(d) && FreshIn(d, f)
    ensures Valid(o.docs) && o.code == 201
    ensures o.docs.requirements == d.requirements && o.docs.products == d.products
    ensures o.docs.messages == d.messages[f.messageId := Message(o.conversationId, input.sender, input.recipient, input.message, f.now)]
    ensures |d.conversations| <= |o.docs.conversations| <= |d.conversations| + 1
    ensures exists j ::
      && 0 <= j < |o.docs.conversations| && o.docs.conversations[j].id == o.conversationId
      && Between(o.docs.conversations[j], input.sender, input.recipient, ProductOf(input.product))
    ensures forall j :: 0 <= j < |o.docs.conversations| ==>
      multiset(o.docs.conversations[j].messages)[f.messageId] == if o.docs.conversations[j].id == o.conversationId then 1 else 0
    ensures forall j :: 0 <= j < |d.conversations| && d.conversations[j].id != o.conversationId ==>
      o.docs.conversations[j] == d.conversations[j]
  {
    var p := PostInto(d.conversations, input.sender, input.recipient, ProductOf(input.product), f.conversationId, f.messageId);
    var m := Message(p.conversationId, input.sender, input.recipient, input.message, f.now);
    PostIntoKeepsValid(d, input.sender, input.recipient, ProductOf(input.product), f, m);
    PostOutcome(201, d.(conversations := p.conversations, messages := d.messages[f.messageId := m]), p.conversationId)
  }

  method PostMessage(db: MongoDb, input: PostInput, f: Generated) returns (code: int, conversationId: Id)
    requires Valid(db.State()) && FreshIn(db.State(), f)
    modifies db`conversations, db`messages
    ensures PostOutcome(code, db.State(), conversationId) == PostMessageResult(old(db.State()), input, f)
  {
    var product := ProductOf(input.product);
    var at := FirstWhere(db.conversations, (c: Conversation) => Between(c, input.sender, input.recipient, product));
    var conversation: Conversation;
    if at.Some? {
      conversation := db.conversations[at.value];
    } else {
      conversation := Conversation(f.conversationId, [input.sender, input.recipient], product, []);
    }
    var newMessage := Message(conversation.id, input.sender, input.recipient, input.message, f.now);
    conversation := conversation.(messages := conversation.messages + [f.messageId]);
    assert at.None? ==> conversation.messages == [f.messageId];
    db.messages := db.messages[f.messageId := newMessage];
    if at.Some? {
      db.conversations := db.conversations[at.value := conversation];
    } else {
      db.conversations := db.conversations + [conversation];
    }
    return 201, conversation.id;
  }

  /**
   * Without a product only conversations without one are reused, and with a
   * product only conversations about it: a post never crosses between the two.
   */
  lemma PostStaysWithinProduct(d: Docs, input: PostInput, f: Generated, j: nat)
    requires Valid(d) && FreshIn(d, f)
    requires j < |d.conversations| && d.conversations[j].id == PostMessageResult(d, input, f).conversationId
    ensures d.conversations[j].product == ProductOf(input.product)
    ensures input.sender in d.conversations[j].participants && input.recipient in d.conversations[j].participants
  {
    var o := PostMessageResult(d, input, f);
    var k :| 0 <= k < |o.docs.conversations| && o.docs.conversations[k].id == o.conversationId
      && Between(o.docs.conversations[k], input.sender, input.recipient, ProductOf(input.product));
    assert k == j;
    assert o.docs.conversations[j] == d.conversations[j].(messages := o.docs.conversations[j].messages);
  }

  /** Two posts between the same users about the same product share one conversation. */
  lemma RepeatedPostsShareConversation(d: Docs, a: PostInput, fa: Generated, b: PostInput, fb: Generated)
    requires Valid(d) && FreshIn(d, fa)
    requires b.sender == a.sender && b.recipient == a.recipient && b.product == a.product
    requires FreshIn(PostMessageResult(d, a, fa).docs, fb)
    ensures var o1 := PostMessageResult(d, a, fa);
      var o2 := PostMessageResult(o1.docs, b, fb);
      o2.conversationId == o1.conversationId && |o2.docs.conversations| == |o1.docs.conversations|
  {
    PostAgainReuses(d.conversations, a.sender, a.recipient, ProductOf(a.product), fa.conversationId, fa.messageId, fb.conversationId, fb.messageId);
  }

  /** A read: 200 with message ids in response order, or an error code and nothing. */
  datatype Listing = Listing(code: int, ids: seq<Id>)

  predicate SentEarlier(a: Message, b: Message) {
    a.createdAt <= b.createdAt
  }

  lemma SentEarlierIsPreorder()
    ensures TotalPreorder(SentEarlier)
  {
  }

  /**
   * `getConversationDetail`: 404 for an unknown conversation, 403 when the
   * caller is not a participant, else its messages, oldest first.
   */
  ghost function GetConversationDetail(d: Docs, convoId: Id, callerId: Id): (r: Listing)
    ensures var at := FirstWhere(d.conversations, (c: Conversation) => c.id == convoId);
      && (r.code == 404 <==> at.None?)
      && (r.code == 403 <==> at.Some? && callerId !in d.conversations[at.value].participants)
      && (r.code != 404 && r.code != 403 ==> r.code == 200)
      && (forall id :: id in r.ids <==> r.code == 200 && id in d.conversations[at.value].messages && id in d.messages)
    ensures forall i, j :: 0 <= i < j < |r.ids| ==>
      r.ids[i] != r.ids[j] && d.messages[r.ids[i]].createdAt <= d.messages[r.ids[j]].createdAt
  {
    match FirstWhere(d.conversations, (c: Conversation) => c.id == convoId)
    case None => Listing(404, [])
    case Some(k) =>
      var conv := d.conversations[k];
      if callerId !in conv.participants then Listing(403, [])
      else
        SentEarlierIsPreorder();
        var thread := map m | m in conv.messages && m in d.messages :: d.messages[m];
        var ids := OrderBy(thread, SentEarlier);
        assert forall i :: 0 <= i < |ids| ==> thread[ids[i]] == d.messages[ids[i]];
        Listing(200, ids)
  }

  /** A message of a conversation shows in its thread for each participant. */
  lemma InThread(d: Docs, k: nat, reader: Id, m: Id)
    requires Valid(d) && k < |d.conversations|
    requires reader in d.conversations[k].participants && m in d.conversations[k].messages
    ensures m in GetConversationDetail(d, d.conversations[k].id, reader).ids
  {
    var at := FirstWhere(d.conversations, (c: Conversation) => c.id == d.conversations[k].id);
    assert at.value == k;
  }

  /** A posted message shows in its conversation's thread for both sender and recipient. */
  lemma PostedMessageVisible(d: Docs, input: PostInput, f: Generated, reader: Id)
    requires Valid(d) && FreshIn(d, f)
    requires reader == input.sender || reader == input.recipient
    ensures var o := PostMessageResult(d, input, f);
      f.messageId in GetConversationDetail(o.docs, o.conversationId, reader).ids
  {
    var o := PostMessageResult(d, input, f);
    var cs := o.docs.conversations;
    var k :| 0 <= k < |cs| && cs[k].id == o.conversationId
      && Between(cs[k], input.sender, input.recipient, ProductOf(input.product));
    assert multiset(cs[k].messages)[f.messageId] == 1;
    InThread(o.docs, k, reader, f.messageId);
  }
}
