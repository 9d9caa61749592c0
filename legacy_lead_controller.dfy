/**
 * The monolith's `buyLead`: a seller contacts the buyer of a requirement. The
 * handler refuses a seller already listed in `contactedSellers`, finds or
 * creates the seller's placeholder product for the requirement, finds or
 * creates the conversation between seller and buyer about that product,
 * appends the seller's message to it and records the seller as having made
 * contact. The socket notification afterwards is not modelled.
 */
module LegacyLeadController {
  import opened Common
  import opened LegacyStore

  /** The caller (id and display name from the token) and the request body. */
  datatype BuyInput = BuyInput(sellerId: Id, sellerName: string, requirementId: Id, message: string, productName: string)

  /** The response code, the collections afterwards and, on 200, the conversation used. */
  datatype BuyOutcome = BuyOutcome(code: int, docs: Docs, conversationId: Option<Id>)

  /** The name a new placeholder product is saved under. */
  function PlaceholderName(productName: string): (n: string)
    ensures |n| == |productName| + 14
    ensures n[13..|n| - 1] == productName
  {
    "Inquiry for \"" + productName + "\""
  }

  /** The placeholder name is never the product name it was made from. */
  lemma PlaceholderNameDiffers(productName: string)
    ensures PlaceholderName(productName) != productName
  {
    assert |PlaceholderName(productName)| != |productName|;
  }

  /** The placeholder product saved for a seller's first lead on a product name. */
  function Placeholder(input: BuyInput, details: string, id: Id): (p: Product)
    ensures p.id == id && p.name == PlaceholderName(input.productName)
    ensures p.description == "This is a placeholder product for a lead regarding the requirement: " + details
    ensures p.category == "Lead" && p.brand == input.sellerName && p.sellerId == input.sellerId
    ensures p.status == "draft" && p.stockQuantity == 0 && p.isLeadPlaceholder && p.image.None?
  {
    Product(id, PlaceholderName(input.productName),
            "This is a placeholder product for a lead regarding the requirement: " + details,
            "Lead", input.sellerName, input.sellerId, "draft", 0, true, None)
  }

  /** The placeholder query: name, seller and the placeholder flag. */
  predicate IsPlaceholderFor(p: Product, name: string, sellerId: Id) {
    p.name == name && p.sellerId == sellerId && p.isLeadPlaceholder
  }

  /**
   * The conversation step and the three saves: the message is appended to the
   * first conversation between seller and buyer about productId, or to a new
   * one, and the seller is recorded on the requirement.
   */
  function Contact(d: Docs, input: BuyInput, products: seq<Product>, productId: Id, f: Generated): (o: BuyOutcome)
    requires Valid(d) && FreshIn(d, f) && DistinctProductIds(products)
    requires input.requirementId in d.requirements && input.sellerId !in d.requirements[input.requirementId].contactedSellers
    ensures Valid(o.docs) && o.code == 200 && o.docs.products == products
    ensures |d.conversations| <= |o.docs.conversations| <= |d.conversations| + 1
    ensures var req := d.requirements[input.requirementId];
      var p := PostInto(d.conversations, input.sellerId, req.buyerId, Some(productId), f.conversationId, f.messageId);
      && o.conversationId == Some(p.conversationId)
      && o.docs.conversations == p.conversations
      && o.docs.requirements == d.requirements[input.requirementId := req.(contactedSellers := req.contactedSellers + [input.sellerId])]
      && o.docs.messages == d.messages[f.messageId := Message(p.conversationId, input.sellerId, req.buyerId, input.message, f.now)]
  {
    var req := d.requirements[input.requirementId];
    var p := PostInto(d.conversations, input.sellerId, req.buyerId, Some(productId), f.conversationId, f.messageId);
    var m := Message(p.conversationId, input.sellerId, req.buyerId, input.message, f.now);
    PostIntoKeepsValid(d, input.sellerId, req.buyerId, Some(productId), f, m);
    var reqs := d.requirements[input.requirementId := req.(contactedSellers := req.contactedSellers + [input.sellerId])];
    assert forall r :: r in reqs ==> NoRepeats(reqs[r].contactedSellers);
    BuyOutcome(200, Docs(reqs, products, p.conversations, d.messages[f.messageId := m]), Some(p.conversationId))
  }

  /**
   * The handler with the placeholder looked up under lookupName. A placeholder
   * without a brand (the seller has no name) fails Mongoose's `required`
   * validation on save: 500 with nothing written. The three final saves are
   * taken to succeed.
   */
  function BuyLeadWith(d: Docs, input: BuyInput, lookupName: string, f: Generated): (o: BuyOutcome)
    requires Valid(d) && FreshIn(d, f)
    ensures Valid(o.docs)
    ensures o.code in {200, 404, 409, 500}
    ensures o.code == 404 <==> input.requirementId !in d.requirements
    ensures o.code == 409 <==>
      input.requirementId in d.requirements && input.sellerId in d.requirements[input.requirementId].contactedSellers
    ensures o.code == 500 <==>
      && input.requirementId in d.requirements && input.sellerId !in d.requirements[input.requirementId].contactedSellers
      && FirstWhere(d.products, (p: Product) => IsPlaceholderFor(p, lookupName, input.sellerId)).None?
      && input.sellerName == ""
    ensures o.code != 200 ==> o.docs == d && o.conversationId == None
    ensures o.code == 200 ==> (
      && input.requirementId in d.requirements
      && var req := d.requirements[input.requirementId];
      && o.conversationId.Some?
      && o.docs.requirements == d.requirements[input.requirementId := req.(contactedSellers := req.contactedSellers + [input.sellerId])]
      && o.docs.messages == d.messages[f.messageId := Message(o.conversationId.value, input.sellerId, req.buyerId, input.message, f.now)]
      && d.products <= o.docs.products && |o.docs.products| <= |d.products| + 1
      && |d.conversations| <= |o.docs.conversations| <= |d.conversations| + 1)
    ensures o.code == 200 ==> (
      var found := FirstWhere(d.products, (p: Product) => IsPlaceholderFor(p, lookupName, input.sellerId));
      && (found.Some? ==> o.docs.products == d.products)
      && (found.None? ==> o.docs.products == d.products + [Placeholder(input, d.requirements[input.requirementId].details, f.productId)]))
  {
    if input.requirementId !in d.requirements then BuyOutcome(404, d, None)
    else
      var req := d.requirements[input.requirementId];
      if input.sellerId in req.contactedSellers then BuyOutcome(409, d, None)
      else
        var found := FirstWhere(d.products, (p: Product) => IsPlaceholderFor(p, lookupName, input.sellerId));
        if found.Some? then Contact(d, input, d.products, d.products[found.value].id, f)
        else if input.sellerName == "" then BuyOutcome(500, d, None)
        else
          var products := d.products + [Placeholder(input, req.details, f.productId)];
          AppendFreshKeepsDistinct(d.products, Placeholder(input, req.details, f.productId));
          Contact(d, input, products, f.productId, f)
  }

  /** Appending a product whose id no product has keeps the ids distinct. */
  lemma AppendFreshKeepsDistinct(ps: seq<Product>, p: Product)
    requires DistinctProductIds(ps) && forall i :: 0 <= i < |ps| ==> ps[i].id != p.id
    ensures DistinctProductIds(ps + [p])
  {
    var r := ps + [p];
    forall a, b | 0 <= a < b < |r|
      ensures r[a].id != r[b].id
    {
      assert r[a] == ps[a];
    }
  }

  /** `buyLead` as written: the placeholder is looked up under the requested product name. */
  function BuyLeadResult(d: Docs, input: BuyInput, f: Generated): (o: BuyOutcome)
    requires Valid(d) && FreshIn(d, f)
  {
    BuyLeadWith(d, input, input.productName, f)
  }

  /** `buyLead` with the placeholder looked up under the name it is saved with. */
  function IntendedBuyLeadResult(d: Docs, input: BuyInput, f: Generated): (o: BuyOutcome)
    requires Valid(d) && FreshIn(d, f)
  {
    BuyLeadWith(d, input, PlaceholderName(input.productName), f)
  }

  method BuyLead(db: MongoDb, input: BuyInput, f: Generated) returns (code: int, conversationId: Option<Id>)
    requires Valid(db.State()) && FreshIn(db.State(), f)
    modifies db
    ensures BuyOutcome(code, db.State(), conversationId) == BuyLeadResult(old(db.State()), input, f)
  {
    if input.requirementId !in db.requirements {
      return 404, None;
    }
    var requirement := db.requirements[input.requirementId];
    if input.sellerId in requirement.contactedSellers {
      return 409, None;
    }
    var buyerId := requirement.buyerId;
    var found := FirstWhere(db.products, (p: Product) => IsPlaceholderFor(p, input.productName, input.sellerId));
    var productId: Id;
    if found.Some? {
      productId := db.products[found.value].id;
    } else {
      if input.sellerName == "" {
        return 500, None;
      }
      db.products := db.products + [Placeholder(input, requirement.details, f.productId)];
      productId := f.productId;
    }
    var at := FirstWhere(db.conversations, (c: Conversation) => Between(c, input.sellerId, buyerId, Some(productId)));
    var conversation: Conversation;
    if at.Some? {
      conversation := db.conversations[at.value];
    } else {
      conversation := Conversation(f.conversationId, [input.sellerId, buyerId], Some(productId), []);
    }
    var newMessage := Message(conversation.id, input.sellerId, buyerId, input.message, f.now);
    conversation := conversation.(messages := conversation.messages + [f.messageId]);
    assert at.None? ==> conversation.messages == [f.messageId];
    requirement := requirement.(contactedSellers := requirement.contactedSellers + [input.sellerId]);
    db.messages := db.messages[f.messageId := newMessage];
    if at.Some? {
      db.conversations := db.conversations[at.value := conversation];
    } else {
      db.conversations := db.conversations + [conversation];
    }
    db.requirements := db.requirements[input.requirementId := requirement];
    return 200, Some(conversation.id);
  }

  /** After a seller's successful call, the same seller's next call on that requirement is refused and writes nothing. */
  lemma {:induction false} SecondBuyConflicts(d: Docs, input: BuyInput, f: Generated, input': BuyInput, f': Generated)
    requires Valid(d) && FreshIn(d, f)
    requires BuyLeadResult(d, input, f).code == 200
    requires input'.sellerId == input.sellerId && input'.requirementId == input.requirementId
    requires FreshIn(BuyLeadResult(d, input, f).docs, f')
    ensures var d1 := BuyLeadResult(d, input, f).docs;
      BuyLeadResult(d1, input', f') == BuyOutcome(409, d1, None)
  {
    var d1 := BuyLeadResult(d, input, f).docs;
    var req1 := d1.requirements[input.requirementId];
    assert req1.contactedSellers[|req1.contactedSellers| - 1] == input.sellerId;
  }

  /** Lemma helper: the placeholder saved under its own name never answers the as-written lookup. */
  lemma NewPlaceholderNotFound(ps: seq<Product>, input: BuyInput, details: string, id: Id)
    requires FirstWhere(ps, (p: Product) => IsPlaceholderFor(p, input.productName, input.sellerId)).None?
    ensures FirstWhere(ps + [Placeholder(input, details, id)], (p: Product) => IsPlaceholderFor(p, input.productName, input.sellerId)).None?
  {
    PlaceholderNameDiffers(input.productName);
    var ps' := ps + [Placeholder(input, details, id)];
    forall j | 0 <= j < |ps'|
      ensures !IsPlaceholderFor(ps'[j], input.productName, input.sellerId)
    {
      if j < |ps| {
        assert ps'[j] == ps[j];
      }
    }
  }

  /**
   * As written, a seller's second lead on the same product name, for another
   * requirement, saves a second placeholder instead of reusing the first, and
   * so never finds the conversation the first one started.
   */
  lemma {:induction false} RepeatBuyDuplicatesPlaceholder(d: Docs, a: BuyInput, fa: Generated, b: BuyInput, fb: Generated)
    requires Valid(d) && FreshIn(d, fa)
    requires FirstWhere(d.products, (p: Product) => IsPlaceholderFor(p, a.productName, a.sellerId)).None?
    requires BuyLeadResult(d, a, fa).code == 200
    requires b.sellerId == a.sellerId && b.productName == a.productName
    requires FreshIn(BuyLeadResult(d, a, fa).docs, fb)
    requires BuyLeadResult(BuyLeadResult(d, a, fa).docs, b, fb).code == 200
    ensures var d1 := BuyLeadResult(d, a, fa).docs;
      var d2 := BuyLeadResult(d1, b, fb).docs;
      && |d2.products| == |d.products| + 2
      && d2.products[|d.products|].name == d2.products[|d.products| + 1].name
      && BuyLeadResult(d1, b, fb).conversationId == Some(fb.conversationId)
  {
    var o1 := BuyLeadResult(d, a, fa);
    var d1 := o1.docs;
    var req := d.requirements[a.requirementId];
    assert d1.products == d.products + [Placeholder(a, req.details, fa.productId)];
    NewPlaceholderNotFound(d.products, a, req.details, fa.productId);
    var req1 := d1.requirements[b.requirementId];
    var d2 := BuyLeadResult(d1, b, fb).docs;
    assert d2.products == d1.products + [Placeholder(b, req1.details, fb.productId)];
    var at := FirstWhere(d1.conversations, (c: Conversation) => Between(c, b.sellerId, req1.buyerId, Some(fb.productId)));
    assert at.None?;
  }

  /** The product a call uses: the first placeholder the lookup finds, else the new one. */
  function ProductFor(ps: seq<Product>, lookupName: string, sellerId: Id, newId: Id): (id: Id)
    ensures FirstWhere(ps, (p: Product) => IsPlaceholderFor(p, lookupName, sellerId)).None? ==> id == newId
  {
    match FirstWhere(ps, (p: Product) => IsPlaceholderFor(p, lookupName, sellerId))
    case Some(k) => ps[k].id
    case None => newId
  }

  /** A successful call is the contact step on the product ProductFor names. */
  lemma BuyIsContact(d: Docs, input: BuyInput, lookupName: string, f: Generated)
    requires Valid(d) && FreshIn(d, f)
    requires BuyLeadWith(d, input, lookupName, f).code == 200
    ensures input.requirementId in d.requirements && input.sellerId !in d.requirements[input.requirementId].contactedSellers
    ensures DistinctProductIds(BuyLeadWith(d, input, lookupName, f).docs.products)
    ensures BuyLeadWith(d, input, lookupName, f)
         == Contact(d, input, BuyLeadWith(d, input, lookupName, f).docs.products, ProductFor(d.products, lookupName, input.sellerId, f.productId), f)
  {
  }

  /** After a successful call, the same lookup by the same seller finds the product that call used. */
  lemma {:induction false} LookupFindsUsedProduct(d: Docs, input: BuyInput, lookupName: string, f: Generated, newId: Id)
    requires Valid(d) && FreshIn(d, f)
    requires BuyLeadWith(d, input, lookupName, f).code == 200
    requires lookupName == PlaceholderName(input.productName)
    ensures FirstWhere(BuyLeadWith(d, input, lookupName, f).docs.products, (p: Product) => IsPlaceholderFor(p, lookupName, input.sellerId)).Some?
    ensures ProductFor(BuyLeadWith(d, input, lookupName, f).docs.products, lookupName, input.sellerId, newId)
         == ProductFor(d.products, lookupName, input.sellerId, f.productId)
  {
    var d1 := BuyLeadWith(d, input, lookupName, f).docs;
    var isP := (p: Product) => IsPlaceholderFor(p, lookupName, input.sellerId);
    var found := FirstWhere(d.products, isP);
    var k := if found.Some? then found.value else |d.products|;
    assert d1.products[k].id == ProductFor(d.products, lookupName, input.sellerId, f.productId) && isP(d1.products[k]);
    FirstStaysFirst(d.products, d1.products, isP, k);
  }

  /** After a contact about productId, a second contact between the same two users about it reuses the conversation. */
  lemma {:induction false} ContactReusesConversation(d: Docs, a: BuyInput, productId: Id, products: seq<Product>, fa: Generated,
                                                     b: BuyInput, fb: Generated)
    requires Valid(d) && FreshIn(d, fa) && DistinctProductIds(products)
    requires a.requirementId in d.requirements && a.sellerId !in d.requirements[a.requirementId].contactedSellers
    requires Valid(Contact(d, a, products, productId, fa).docs) && FreshIn(Contact(d, a, products, productId, fa).docs, fb)
    requires b.requirementId in d.requirements && b.sellerId == a.sellerId
    requires d.requirements[b.requirementId].buyerId == d.requirements[a.requirementId].buyerId
    requires b.sellerId !in Contact(d, a, products, productId, fa).docs.requirements[b.requirementId].contactedSellers
    ensures Contact(Contact(d, a, products, productId, fa).docs, b, products, productId, fb).conversationId
         == Contact(d, a, products, productId, fa).conversationId
  {
    var d1 := Contact(d, a, products, productId, fa).docs;
    var buyerId := d.requirements[a.requirementId].buyerId;
    assert d1.requirements[b.requirementId].buyerId == buyerId;
    PostAgainReuses(d.conversations, a.sellerId, buyerId, Some(productId), fa.conversationId, fa.messageId, fb.conversationId, fb.messageId);
  }

  /**
   * With the lookup under the saved name, a seller's second lead on the same
   * product name to the same buyer reuses the placeholder and the conversation
   * of the first.
   */
  lemma {:induction false} IntendedBuyReusesConversation(d: Docs, a: BuyInput, fa: Generated, b: BuyInput, fb: Generated)
    requires Valid(d) && FreshIn(d, fa)
    requires IntendedBuyLeadResult(d, a, fa).code == 200
    requires b.sellerId == a.sellerId && b.productName == a.productName
    requires FreshIn(IntendedBuyLeadResult(d, a, fa).docs, fb)
    requires IntendedBuyLeadResult(IntendedBuyLeadResult(d, a, fa).docs, b, fb).code == 200
    requires b.requirementId in d.requirements && d.requirements[b.requirementId].buyerId == d.requirements[a.requirementId].buyerId
    ensures var d1 := IntendedBuyLeadResult(d, a, fa).docs;
      && IntendedBuyLeadResult(d1, b, fb).docs.products == d1.products
      && IntendedBuyLeadResult(d1, b, fb).conversationId == IntendedBuyLeadResult(d, a, fa).conversationId
  {
    var name := PlaceholderName(a.productName);
    var d1 := BuyLeadWith(d, a, name, fa).docs;
    var productId := ProductFor(d.products, name, a.sellerId, fa.productId);
    BuyIsContact(d, a, name, fa);
    BuyIsContact(d1, b, name, fb);
    LookupFindsUsedProduct(d, a, name, fa, fb.productId);
    ContactReusesConversation(d, a, productId, d1.products, fa, b, fb);
  }
}
