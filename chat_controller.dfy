/**
 * The chat service: conversations between the seller and the buyer of one
 * requirement, and the messages posted to them. A conversation is found by id,
 * or by its (requirement, seller, buyer) triple, or created on the first
 * message; the unique index on that triple allows at most one per triple.
 *
 * The statements run one by one on the connection, with no transaction, so a
 * conversation created by a call whose message insert then fails stays.
 * Timestamps are the clock reading `now` given to each call.
 */
module ChatController {
  import opened Common
  import opened Text
  import opened Tables

  datatype Conversation = Conversation(
    requirementId: Id,
    requirementName: string,
    sellerId: Id,
    buyerId: Id,
    sellerName: string,
    updatedAt: int)

  datatype Message = Message(conversationId: Id, senderId: Id, recipientId: Id, text: string, createdAt: int)

  datatype Chats = Chats(conversations: map<Id, Conversation>, messages: map<Id, Message>)

  /** The unique index on `conversations (requirement_id, seller_id, buyer_id)`. */
  predicate UniqueTriples(convs: map<Id, Conversation>) {
    forall a, b :: a in convs && b in convs && a != b ==>
      || convs[a].requirementId != convs[b].requirementId
      || convs[a].sellerId != convs[b].sellerId
      || convs[a].buyerId != convs[b].buyerId
  }

  /** The unique index, and the foreign key `messages.conversation_id`. */
  predicate Valid(c: Chats) {
    && UniqueTriples(c.conversations)
    && forall m :: m in c.messages ==> c.messages[m].conversationId in c.conversations
  }

  class ChatDb {
    var conversations: map<Id, Conversation>
    var messages: map<Id, Message>

    function State(): Chats
      reads this
    {
      Chats(conversations, messages)
    }

    constructor ()
      ensures State() == Chats(map[], map[]) && Valid(State())
    {
      conversations, messages := map[], map[];
    }
  }

  /* ---------------------------------------------------------------------
     getConversations, getConversationDetail
     --------------------------------------------------------------------- */

  /** A read: 200 with ids in response order, or an error code and nothing. */
  datatype Listing = Listing(code: int, ids: seq<Id>)

  predicate Participant(c: Conversation, userId: Id) {
    c.buyerId == userId || c.sellerId == userId
  }

  predicate UpdatedLater(a: Conversation, b: Conversation) {
    a.updatedAt >= b.updatedAt
  }

  predicate CreatedEarlier(a: Message, b: Message) {
    a.createdAt <= b.createdAt
  }

  lemma OrdersArePreorders()
    ensures TotalPreorder(UpdatedLater) && TotalPreorder(CreatedEarlier)
  {
  }

  /**
   * `getConversations`: 401 without the header, 400 without the path id, 403
   * when they differ; otherwise the conversations where the caller is buyer or
   * seller, the most recently updated first.
   */
  ghost function GetConversations(convs: map<Id, Conversation>, headerUserId: Id, paramUserId: Id): (r: Listing)
    ensures r.code == 401 <==> headerUserId == ""
    ensures r.code == 400 <==> headerUserId != "" && paramUserId == ""
    ensures r.code == 403 <==> headerUserId != "" && paramUserId != "" && headerUserId != paramUserId
    ensures r.code != 200 ==> r.ids == []
    ensures forall id :: id in r.ids <==> r.code == 200 && id in convs && Participant(convs[id], headerUserId)
    ensures forall i, j :: 0 <= i < j < |r.ids| ==>
      r.ids[i] != r.ids[j] && convs[r.ids[i]].updatedAt >= convs[r.ids[j]].updatedAt
  {
    if headerUserId == "" then Listing(401, [])
    else if paramUserId == "" then Listing(400, [])
    else if headerUserId != paramUserId then Listing(403, [])
    else
      OrdersArePreorders();
      var mine := Where(convs, (c: Conversation) => Participant(c, headerUserId));
      var ids := OrderBy(mine, UpdatedLater);
      assert forall i :: 0 <= i < |ids| ==> mine[ids[i]] == convs[ids[i]];
      Listing(200, ids)
  }

  /**
   * `getConversationDetail`: 401 without the header, 400 without the id, 403
   * unless the caller is buyer or seller of that conversation (an unknown id
   * included); otherwise its messages, oldest first.
   */
  ghost function GetConversationDetail(c: Chats, userId: Id, convoId: Id): (r: Listing)
    ensures r.code == 401 <==> userId == ""
    ensures r.code == 400 <==> userId != "" && convoId == ""
    ensures r.code == 403 <==>
      userId != "" && convoId != "" && !(convoId in c.conversations && Participant(c.conversations[convoId], userId))
    ensures r.code != 200 ==> r.ids == []
    ensures forall id :: id in r.ids <==> r.code == 200 && id in c.messages && c.messages[id].conversationId == convoId
    ensures forall i, j :: 0 <= i < j < |r.ids| ==>
      r.ids[i] != r.ids[j] && c.messages[r.ids[i]].createdAt <= c.messages[r.ids[j]].createdAt
  {
    if userId == "" then Listing(401, [])
    else if convoId == "" then Listing(400, [])
    else if !(convoId in c.conversations && Participant(c.conversations[convoId], userId)) then Listing(403, [])
    else
      OrdersArePreorders();
      var thread := Where(c.messages, (m: Message) => m.conversationId == convoId);
      var ids := OrderBy(thread, CreatedEarlier);
      assert forall i :: 0 <= i < |ids| ==> thread[ids[i]] == c.messages[ids[i]];
      Listing(200, ids)
  }

  /* ---------------------------------------------------------------------
     postMessage
     --------------------------------------------------------------------- */

  /** The request body; a missing field is "". */
  datatype PostInput = PostInput(
    conversationId: Id,
    sender: Id,
    recipient: Id,
    message: string,
    requirementId: Id,
    requirementName: string,
    sellerName: string)

  /** The response code, the chat tables after the call and, on 201, the conversation used. */
  datatype PostOutcome = PostOutcome(code: int, chats: Chats, conversationId: Option<Id>)

  /** The conversations of one (requirement, seller, buyer) triple. */
  function WithTriple(convs: map<Id, Conversation>, requirementId: Id, sellerId: Id, buyerId: Id): (ks: set<Id>)
    ensures forall k :: k in ks <==>
      k in convs && convs[k].requirementId == requirementId && convs[k].sellerId == sellerId && convs[k].buyerId == buyerId
  {
    set k | k in convs && convs[k].requirementId == requirementId && convs[k].sellerId == sellerId && convs[k].buyerId == buyerId
  }

  lemma AtMostOnePerTriple(convs: map<Id, Conversation>, requirementId: Id, sellerId: Id, buyerId: Id, k: Id)
    requires UniqueTriples(convs) && k in WithTriple(convs, requirementId, sellerId, buyerId)
    ensures WithTriple(convs, requirementId, sellerId, buyerId) == {k}
  {
  }

  /** The conversation a new chat creates; the seller's name defaults to 'Seller'. */
  function NewConversation(input: PostInput, now: int): (c: Conversation)
    ensures c.requirementId == input.requirementId && c.sellerId == input.sender && c.buyerId == input.recipient
    ensures c.sellerName == if input.sellerName != "" then input.sellerName else "Seller"
    ensures c.updatedAt == now
  {
    Conversation(input.requirementId, input.requirementName, input.sender, input.recipient,
                 if input.sellerName != "" then input.sellerName else "Seller", now)
  }

  /** The message insert and the `updated_at` touch on conversation cid; a taken message id fails with 500. */
  function Deliver(c: Chats, cid: Id, input: PostInput, newMessageId: Id, now: int): (o: PostOutcome)
    requires Valid(c) && cid in c.conversations
    ensures Valid(o.chats)
    ensures o.code == 500 <==> newMessageId in c.messages
    ensures o.code == 500 ==> o.chats == c && o.conversationId == None
    ensures o.code != 500 ==> (
      && o.code == 201 && o.conversationId == Some(cid)
      && o.chats.messages == c.messages[newMessageId := Message(cid, input.sender, input.recipient, input.message, now)]
      && o.chats.conversations == c.conversations[cid := c.conversations[cid].(updatedAt := now)])
  {
    if newMessageId in c.messages then PostOutcome(500, c, None)
    else
      var convs := c.conversations[cid := c.conversations[cid].(updatedAt := now)];
      assert forall k :: k in WithTriple(convs, convs[cid].requirementId, convs[cid].sellerId, convs[cid].buyerId) ==> k == cid;
      PostOutcome(201, Chats(convs, c.messages[newMessageId := Message(cid, input.sender, input.recipient, input.message, now)]), Some(cid))
  }

  /** The conversation a post goes to, or the code of the step that refused it. */
  datatype Located = Target(chats: Chats, cid: Id) | Refused(code: int, chats: Chats)

  /** A new conversation for a triple that has none keeps the unique index. */
  lemma NewTripleKeepsValid(c: Chats, id: Id, conv: Conversation)
    requires Valid(c) && id !in c.conversations
    requires WithTriple(c.conversations, conv.requirementId, conv.sellerId, conv.buyerId) == {}
    ensures Valid(c.(conversations := c.conversations[id := conv]))
  {
    var convs := c.conversations[id := conv];
    forall a, b | a in convs && b in convs && a != b
      ensures || convs[a].requirementId != convs[b].requirementId
              || convs[a].sellerId != convs[b].sellerId
              || convs[a].buyerId != convs[b].buyerId
    {
      if a == id {
        assert b !in WithTriple(c.conversations, conv.requirementId, conv.sellerId, conv.buyerId);
      } else if b == id {
        assert a !in WithTriple(c.conversations, conv.requirementId, conv.sellerId, conv.buyerId);
      }
    }
  }

  /**
   * The lookup half of `postMessage`, once sender, recipient and text are
   * present: the named conversation (404 if unknown), or else, given a
   * requirement id and name (400 otherwise), the triple's conversation or a
   * newly inserted one (500 if its id is taken).
   */
  ghost function Locate(c: Chats, input: PostInput, newConversationId: Id, now: int): (t: Located)
    requires Valid(c)
    ensures Valid(t.chats) && t.chats.messages == c.messages
    ensures t.Refused? ==> t.code in {400, 404, 500} && t.chats == c
    ensures t.Refused? && t.code == 404 <==> input.conversationId != "" && input.conversationId !in c.conversations
    ensures t.Refused? && t.code == 400 <==>
      input.conversationId == "" && (input.requirementId == "" || input.requirementName == "")
    ensures t.Refused? && t.code == 500 <==> (
      && input.conversationId == "" && input.requirementId != "" && input.requirementName != ""
      && WithTriple(c.conversations, input.requirementId, input.sender, input.recipient) == {}
      && newConversationId in c.conversations)
    ensures t.Target? ==> t.cid in t.chats.conversations
    ensures t.Target? && input.conversationId != "" ==> t.cid == input.conversationId && t.chats == c
    ensures t.Target? && input.conversationId == "" ==> (
      && t.chats.conversations[t.cid].requirementId == input.requirementId
      && t.chats.conversations[t.cid].sellerId == input.sender
      && t.chats.conversations[t.cid].buyerId == input.recipient)
    ensures forall k :: k in c.conversations ==> k in t.chats.conversations && t.chats.conversations[k] == c.conversations[k]
    ensures forall k :: k in t.chats.conversations ==> k in c.conversations || k == newConversationId
    ensures forall k :: k in t.chats.conversations && k !in c.conversations ==>
      t.Target? && k == t.cid && t.chats.conversations[k] == NewConversation(input, now)
  {
    if input.conversationId != "" then
      if input.conversationId !in c.conversations then Refused(404, c) else Target(c, input.conversationId)
    else if input.requirementId == "" || input.requirementName == "" then Refused(400, c)
    else
      var found := WithTriple(c.conversations, input.requirementId, input.sender, input.recipient);
      if found != {} then
        var cid :| cid in found;
        Target(c, cid)
      else if newConversationId in c.conversations then Refused(500, c)
      else
        NewTripleKeepsValid(c, newConversationId, NewConversation(input, now));
        Target(c.(conversations := c.conversations[newConversationId := NewConversation(input, now)]), newConversationId)
  }

  /**
   * `postMessage`. newConversationId and newMessageId are the generated uuids,
   * now the clock reading.
   */
  ghost function PostMessageResult(c: Chats, input: PostInput, newConversationId: Id, newMessageId: Id, now: int): (o: PostOutcome)
    requires Valid(c)
    ensures Valid(o.chats)
    ensures o.code in {201, 400, 404, 500}
    ensures input.sender == "" || input.recipient == "" || IsBlank(input.message) ==> o.code == 400 && o.chats == c
    ensures o.code == 404 <==> (
      && !(input.sender == "" || input.recipient == "" || IsBlank(input.message))
      && input.conversationId != "" && input.conversationId !in c.conversations)
    ensures o.code == 400 <==>
      || input.sender == "" || input.recipient == "" || IsBlank(input.message)
      || (input.conversationId == "" && (input.requirementId == "" || input.requirementName == ""))
    ensures o.code == 500 <==> (
      && !(input.sender == "" || input.recipient == "" || IsBlank(input.message))
      && !(input.conversationId != "" && input.conversationId !in c.conversations)
      && !(input.conversationId == "" && (input.requirementId == "" || input.requirementName == ""))
      && (|| newMessageId in c.messages
          || (&& input.conversationId == ""
              && WithTriple(c.conversations, input.requirementId, input.sender, input.recipient) == {}
              && newConversationId in c.conversations)))
    ensures o.code == 400 || o.code == 404 ==> o.chats == c
    ensures o.code != 201 ==> o.chats.messages == c.messages && o.conversationId == None
    ensures o.code == 201 ==> (
      && o.conversationId.Some?
      && var cid := o.conversationId.value;
      && cid in o.chats.conversations
      && newMessageId !in c.messages
      && o.chats.messages == c.messages[newMessageId := Message(cid, input.sender, input.recipient, input.message, now)]
      && |o.chats.messages| == |c.messages| + 1
      && o.chats.conversations[cid].updatedAt == now
      && (input.conversationId != "" ==> cid == input.conversationId)
      && (input.conversationId == "" ==>
            && o.chats.conversations[cid].requirementId == input.requirementId
            && o.chats.conversations[cid].sellerId == input.sender
            && o.chats.conversations[cid].buyerId == input.recipient))
    ensures forall k :: k in c.conversations ==>
      k in o.chats.conversations && o.chats.conversations[k] == c.conversations[k].(updatedAt := o.chats.conversations[k].updatedAt)
    ensures forall k :: k in o.chats.conversations ==> k in c.conversations || k == newConversationId
    ensures forall k :: k in c.conversations && o.conversationId != Some(k) ==> o.chats.conversations[k] == c.conversations[k]
    ensures forall k :: k in o.chats.conversations && k !in c.conversations ==>
      o.chats.conversations[k] == NewConversation(input, now)
  {
    if input.sender == "" || input.recipient == "" || IsBlank(input.message) then PostOutcome(400, c, None)
    else
      match Locate(c, input, newConversationId, now)
      case Refused(code, c1) => PostOutcome(code, c1, None)
      case Target(c1, cid) =>
        DeliverAfterLocate(c, input, newConversationId, newMessageId, now);
        Deliver(c1, cid, input, newMessageId, now)
  }

  /** What a delivery into the located conversation leaves, in terms of the tables before the lookup. */
  lemma DeliverAfterLocate(c: Chats, input: PostInput, newConversationId: Id, newMessageId: Id, now: int)
    requires Valid(c) && Locate(c, input, newConversationId, now).Target?
    ensures var t := Locate(c, input, newConversationId, now);
      var o := Deliver(t.chats, t.cid, input, newMessageId, now);
      && (o.code == 201 ==> |o.chats.messages| == |c.messages| + 1)
      && (forall k :: k in c.conversations ==>
            k in o.chats.conversations && o.chats.conversations[k] == c.conversations[k].(updatedAt := o.chats.conversations[k].updatedAt))
      && (forall k :: k in o.chats.conversations ==> k in c.conversations || k == newConversationId)
      && (forall k :: k in c.conversations && o.conversationId != Some(k) ==> o.chats.conversations[k] == c.conversations[k])
      && (forall k :: k in o.chats.conversations && k !in c.conversations ==>
            o.chats.conversations[k] == NewConversation(input, now))
  {
    var t := Locate(c, input, newConversationId, now);
    var o := Deliver(t.chats, t.cid, input, newMessageId, now);
    forall k | k in o.chats.conversations && k !in c.conversations
      ensures o.chats.conversations[k] == NewConversation(input, now)
    {
      assert k == t.cid && t.chats.conversations[k] == NewConversation(input, now);
    }
    forall k | k in c.conversations
      ensures k in o.chats.conversations && o.chats.conversations[k] == c.conversations[k].(updatedAt := o.chats.conversations[k].updatedAt)
    {
      assert t.chats.conversations[k] == c.conversations[k];
    }
  }

  method PostMessage(db: ChatDb, input: PostInput, newConversationId: Id, newMessageId: Id, now: int)
      returns (code: int, conversationId: Option<Id>)
    requires Valid(db.State())
    modifies db
    ensures PostOutcome(code, db.State(), conversationId) == PostMessageResult(old(db.State()), input, newConversationId, newMessageId, now)
  {
    if input.sender == "" || input.recipient == "" || IsBlank(input.message) {
      return 400, None;
    }
    var cid: Id;
    if input.conversationId != "" {
      if input.conversationId !in db.conversations {
        return 404, None;
      }
      cid := input.conversationId;
    } else {
      if input.requirementId == "" || input.requirementName == "" {
        return 400, None;
      }
      var found := WithTriple(db.conversations, input.requirementId, input.sender, input.recipient);
      if found != {} {
        cid :| cid in found;
        AtMostOnePerTriple(db.conversations, input.requirementId, input.sender, input.recipient, cid);
      } else {
        if newConversationId in db.conversations {
          return 500, None;
        }
        db.conversations := db.conversations[newConversationId := NewConversation(input, now)];
        cid := newConversationId;
      }
    }
    if newMessageId in db.messages {
      return 500, None;
    }
    db.messages := db.messages[newMessageId := Message(cid, input.sender, input.recipient, input.message, now)];
    db.conversations := db.conversations[cid := db.conversations[cid].(updatedAt := now)];
    return 201, Some(cid);
  }

  /** A first message whose triple already has a conversation posts into it and creates none. */
  lemma FirstMessageReusesConversation(c: Chats, input: PostInput, newConversationId: Id, newMessageId: Id, now: int, existing: Id)
    requires Valid(c) && input.conversationId == ""
    requires existing in c.conversations
    requires c.conversations[existing].requirementId == input.requirementId
    requires c.conversations[existing].sellerId == input.sender && c.conversations[existing].buyerId == input.recipient
    requires PostMessageResult(c, input, newConversationId, newMessageId, now).code == 201
    ensures PostMessageResult(c, input, newConversationId, newMessageId, now).conversationId == Some(existing)
    ensures PostMessageResult(c, input, newConversationId, newMessageId, now).chats.conversations.Keys == c.conversations.Keys
  {
    LocateFindsTriple(c, input, newConversationId, now, existing);
    var o := Deliver(c, existing, input, newMessageId, now);
    assert o.chats.conversations.Keys == c.conversations.Keys;
  }

  /** A first message whose triple already has a conversation is located in that conversation. */
  lemma LocateFindsTriple(c: Chats, input: PostInput, newConversationId: Id, now: int, existing: Id)
    requires Valid(c) && input.conversationId == ""
    requires existing in c.conversations
    requires c.conversations[existing].requirementId == input.requirementId
    requires c.conversations[existing].sellerId == input.sender && c.conversations[existing].buyerId == input.recipient
    ensures Locate(c, input, newConversationId, now).Target? ==> Locate(c, input, newConversationId, now) == Target(c, existing)
  {
    AtMostOnePerTriple(c.conversations, input.requirementId, input.sender, input.recipient, existing);
  }

  /**
   * Two first messages of the same seller to the same buyer about the same
   * requirement land in one conversation.
   */
  lemma RepeatedFirstMessagesShareConversation(c: Chats, a: PostInput, b: PostInput, n1: Id, m1: Id, t1: int, n2: Id, m2: Id, t2: int)
    requires Valid(c) && a.conversationId == "" && b.conversationId == ""
    requires b.sender == a.sender && b.recipient == a.recipient && b.requirementId == a.requirementId
    requires PostMessageResult(c, a, n1, m1, t1).code == 201
    requires PostMessageResult(PostMessageResult(c, a, n1, m1, t1).chats, b, n2, m2, t2).code == 201
    ensures PostMessageResult(PostMessageResult(c, a, n1, m1, t1).chats, b, n2, m2, t2).conversationId
         == PostMessageResult(c, a, n1, m1, t1).conversationId
  {
    var o1 := PostMessageResult(c, a, n1, m1, t1);
    var cid := o1.conversationId.value;
    FirstMessageReusesConversation(o1.chats, b, n2, m2, t2, cid);
  }

  /**
   * A call naming an existing conversation posts into it whoever the sender and
   * recipient are: the handler checks neither against the conversation.
   */
  lemma PostByIdSkipsParticipantCheck(c: Chats, input: PostInput, newConversationId: Id, newMessageId: Id, now: int)
    requires Valid(c) && input.conversationId != "" && input.conversationId in c.conversations
    requires input.sender != "" && input.recipient != "" && !IsBlank(input.message)
    requires newMessageId !in c.messages
    ensures PostMessageResult(c, input, newConversationId, newMessageId, now).code == 201
    ensures PostMessageResult(c, input, newConversationId, newMessageId, now).conversationId == Some(input.conversationId)
  {
    var t := Locate(c, input, newConversationId, now);
    assert t == Target(c, input.conversationId);
  }

  /**
   * With no transaction around the two inserts, a first message whose own
   * insert fails still leaves its new conversation behind.
   */
  lemma NewConversationSurvivesFailedMessage(c: Chats, input: PostInput, newConversationId: Id, newMessageId: Id, now: int)
    requires Valid(c) && input.conversationId == ""
    requires input.sender != "" && input.recipient != "" && !IsBlank(input.message)
    requires input.requirementId != "" && input.requirementName != ""
    requires WithTriple(c.conversations, input.requirementId, input.sender, input.recipient) == {}
    requires newConversationId !in c.conversations && newMessageId in c.messages
    ensures PostMessageResult(c, input, newConversationId, newMessageId, now).code == 500
    ensures PostMessageResult(c, input, newConversationId, newMessageId, now).chats.conversations
         == c.conversations[newConversationId := NewConversation(input, now)]
  {
  }

  /**
   * A well-formed first message about a requirement, with fresh generated ids,
   * is delivered: the refusals and the two failing inserts are the only ways
   * to miss a 201.
   */
  lemma FreshFirstMessageDelivered(c: Chats, input: PostInput, newConversationId: Id, newMessageId: Id, now: int)
    requires Valid(c) && input.conversationId == ""
    requires input.sender != "" && input.recipient != "" && !IsBlank(input.message)
    requires input.requirementId != "" && input.requirementName != ""
    requires newConversationId !in c.conversations && newMessageId !in c.messages
    ensures PostMessageResult(c, input, newConversationId, newMessageId, now).code == 201
  {
  }

  /**
   * After a first message the conversation is listed for both parties, and the
   * message is in its thread as either of them reads it.
   */
  lemma FirstMessageVisibleToBoth(c: Chats, input: PostInput, newConversationId: Id, newMessageId: Id, now: int)
    requires Valid(c) && input.conversationId == ""
    requires newConversationId != "" && "" !in c.conversations
    requires PostMessageResult(c, input, newConversationId, newMessageId, now).code == 201
    ensures var o := PostMessageResult(c, input, newConversationId, newMessageId, now);
      var cid := o.conversationId.value;
      && cid in GetConversations(o.chats.conversations, input.sender, input.sender).ids
      && cid in GetConversations(o.chats.conversations, input.recipient, input.recipient).ids
      && newMessageId in GetConversationDetail(o.chats, input.sender, cid).ids
      && newMessageId in GetConversationDetail(o.chats, input.recipient, cid).ids
  {
    var o := PostMessageResult(c, input, newConversationId, newMessageId, now);
    var cid := o.conversationId.value;
    assert o.chats.messages[newMessageId].conversationId == cid;
    var conv := o.chats.conversations[cid];
    assert Participant(conv, input.sender) && Participant(conv, input.recipient);
    assert input.sender != "" && input.recipient != "";
    var l1 := GetConversations(o.chats.conversations, input.sender, input.sender);
    var l2 := GetConversations(o.chats.conversations, input.recipient, input.recipient);
    assert l1.code == 200 && l2.code == 200;
    var d1 := GetConversationDetail(o.chats, input.sender, cid);
    var d2 := GetConversationDetail(o.chats, input.recipient, cid);
    assert d1.code == 200 && d2.code == 200;
  }
}
