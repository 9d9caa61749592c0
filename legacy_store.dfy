/**
 * The document collections of the monolith's Mongo database that the legacy
 * lead, requirement and message handlers touch. `requirements` and `messages`
 * are only reached by id, so they are maps. `products` and `conversations` are
 * also searched with `findOne`, which returns the first match in the
 * collection's natural (insertion) order, so they are sequences of documents
 * carrying their own `_id`.
 */
module LegacyStore {
  import opened Common

  /** A requirement document; `contactedSellers` lists the sellers who bought it. */
  datatype Requirement = Requirement(
    buyerId: Id,
    productName: string,
    details: string,
    status: string,
    contactedSellers: seq<Id>,
    createdAt: int)

  /**
   * A product document. `image` is the stored upload reference, kept opaque;
   * price, unit and isFeatured are left out.
   */
  datatype Product = Product(
    id: Id,
    name: string,
    description: string,
    category: string,
    brand: string,
    sellerId: Id,
    status: string,
    stockQuantity: int,
    isLeadPlaceholder: bool,
    image: Option<string>)

  /** A conversation document: its participants, an optional product, and its message ids in order. */
  datatype Conversation = Conversation(id: Id, participants: seq<Id>, product: Option<Id>, messages: seq<Id>)

  /** A message document; `createdAt` is the timestamp Mongoose adds. */
  datatype Message = Message(conversationId: Id, sender: Id, recipient: Id, text: string, createdAt: int)

  datatype Docs = Docs(
    requirements: map<Id, Requirement>,
    products: seq<Product>,
    conversations: seq<Conversation>,
    messages: map<Id, Message>)

  predicate DistinctProductIds(ps: seq<Product>) {
    forall i, j :: 0 <= i < j < |ps| ==> ps[i].id != ps[j].id
  }

  predicate DistinctConversationIds(cs: seq<Conversation>) {
    forall i, j :: 0 <= i < j < |cs| ==> cs[i].id != cs[j].id
  }

  predicate NoRepeats(s: seq<Id>) {
    forall i, j :: 0 <= i < j < |s| ==> s[i] != s[j]
  }

  /**
   * The states the handlers keep: `_id`s are unique, no seller is listed twice
   * as having contacted a requirement, and every message id a conversation
   * lists names a stored message.
   */
  predicate Valid(d: Docs) {
    && DistinctProductIds(d.products)
    && DistinctConversationIds(d.conversations)
    && (forall r :: r in d.requirements ==> NoRepeats(d.requirements[r].contactedSellers))
    && (forall i, m :: 0 <= i < |d.conversations| && m in d.conversations[i].messages ==> m in d.messages)
  }

  /**
   * What the server generates during one call: the `_id`s `new Model()`
   * assigns, and the clock reading that stamps new documents. A fresh ObjectId
   * is used by no document and referenced by none.
   */
  datatype Generated = Generated(productId: Id, conversationId: Id, messageId: Id, now: int)

  predicate FreshIn(d: Docs, f: Generated) {
    && (forall i :: 0 <= i < |d.products| ==> d.products[i].id != f.productId)
    && (forall i :: 0 <= i < |d.conversations| ==>
          d.conversations[i].id != f.conversationId && d.conversations[i].product != Some(f.productId))
    && f.messageId !in d.messages
  }

  /** The live database. */
  class MongoDb {
    var requirements: map<Id, Requirement>
    var products: seq<Product>
    var conversations: seq<Conversation>
    var messages: map<Id, Message>

    function State(): Docs
      reads this
    {
      Docs(requirements, products, conversations, messages)
    }

    constructor ()
      ensures State() == Docs(map[], [], [], map[]) && Valid(State())
    {
      requirements, products, conversations, messages := map[], [], [], map[];
    }
  }

  /** The conversation whose participants include both ids and whose product is product. */
  predicate Between(c: Conversation, a: Id, b: Id, product: Option<Id>) {
    a in c.participants && b in c.participants && c.product == product
  }

  /** The conversations after a post, and the id of the one the message went to. */
  datatype Posted = Posted(conversations: seq<Conversation>, conversationId: Id)

  /**
   * The find-or-create-and-push of the lead and message handlers: the first
   * conversation between a and b about product, or else a new one with
   * participants [a, b], gets messageId appended and is saved.
   */
  function PostInto(cs: seq<Conversation>, a: Id, b: Id, product: Option<Id>, newId: Id, messageId: Id): (r: Posted)
    ensures var at := FirstWhere(cs, (c: Conversation) => Between(c, a, b, product));
      && (at.Some? ==>
            && r.conversationId == cs[at.value].id
            && r.conversations == cs[at.value := cs[at.value].(messages := cs[at.value].messages + [messageId])])
      && (at.None? ==>
            && r.conversationId == newId
            && r.conversations == cs + [Conversation(newId, [a, b], product, [messageId])])
  {
    match FirstWhere(cs, (c: Conversation) => Between(c, a, b, product))
    case Some(i) => Posted(cs[i := cs[i].(messages := cs[i].messages + [messageId])], cs[i].id)
    case None => Posted(cs + [Conversation(newId, [a, b], product, [messageId])], newId)
  }

  /**
   * Posting a fresh message keeps `_id`s unique and every listed message
   * stored, and lists the new message exactly once, in the conversation
   * reported, which holds both participants.
   */
  lemma PostIntoKeepsValid(d: Docs, a: Id, b: Id, product: Option<Id>, f: Generated, m: Message)
    requires Valid(d) && FreshIn(d, f)
    ensures var p := PostInto(d.conversations, a, b, product, f.conversationId, f.messageId);
      && Valid(d.(conversations := p.conversations, messages := d.messages[f.messageId := m]))
      && |d.conversations| <= |p.conversations| <= |d.conversations| + 1
      && (forall j :: 0 <= j < |p.conversations| ==>
            multiset(p.conversations[j].messages)[f.messageId] == if p.conversations[j].id == p.conversationId then 1 else 0)
      && (exists j :: 0 <= j < |p.conversations| && p.conversations[j].id == p.conversationId
            && Between(p.conversations[j], a, b, product))
  {
    var p := PostInto(d.conversations, a, b, product, f.conversationId, f.messageId);
    var cs := d.conversations;
    var at := FirstWhere(cs, (c: Conversation) => Between(c, a, b, product));
    var i := if at.Some? then at.value else |cs|;
    assert p.conversations[i].id == p.conversationId && Between(p.conversations[i], a, b, product);
    assert forall j :: 0 <= j < |cs| && j != i ==> p.conversations[j] == cs[j];
    forall j, k | 0 <= j < k < |p.conversations|
      ensures p.conversations[j].id != p.conversations[k].id
    {
      if k == |cs| {
        assert p.conversations[j] == cs[j];
      }
    }
    forall j | 0 <= j < |p.conversations|
      ensures multiset(p.conversations[j].messages)[f.messageId] == if p.conversations[j].id == p.conversationId then 1 else 0
    {
      if j < |cs| {
        assert f.messageId !in cs[j].messages;
        assert multiset(cs[j].messages)[f.messageId] == 0;
      }
    }
  }

  /** A second post between the same two users about the same product goes to the conversation of the first, and creates none. */
  lemma PostAgainReuses(cs: seq<Conversation>, a: Id, b: Id, product: Option<Id>, n1: Id, m1: Id, n2: Id, m2: Id)
    ensures var p1 := PostInto(cs, a, b, product, n1, m1);
      var p2 := PostInto(p1.conversations, a, b, product, n2, m2);
      p2.conversationId == p1.conversationId && |p2.conversations| == |p1.conversations|
  {
    var p1 := PostInto(cs, a, b, product, n1, m1);
    var isC := (c: Conversation) => Between(c, a, b, product);
    var at := FirstWhere(cs, isC);
    var i := if at.Some? then at.value else |cs|;
    FirstStaysFirst(cs, p1.conversations, isC, i);
  }
}
