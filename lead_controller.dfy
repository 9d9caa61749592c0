/**
 * The lead-service HTTP handlers: buyers post, edit, list, close and delete
 * requirements; sellers contact a requirement ("buy a lead") and may cancel;
 * the buyer finally selects one seller.
 *
 * Each handler appears twice: a function giving the response code and the
 * database the handler leaves behind, whose contract states what the handler
 * promises, and a method that performs the handler's steps in order on the
 * live database and is proved to end where the function says. A transaction
 * works on local copies of the tables it writes; commit assigns them back and
 * rollback drops them. `ensureUserExists` writes the live users table at once.
 *
 * The caller id is the `x-user-id` header; "" stands for a missing header.
 */
module LeadController {
  import opened Common
  import opened Text
  import opened Tables
  import opened LeadStore
  import opened ShadowUsers
  import opened LeadRepository

  /** A handler's status code and the database after it. */
  datatype Outcome = Outcome(code: int, store: Store)

  /* ---------------------------------------------------------------------
     createRequirement
     --------------------------------------------------------------------- */

  /** The body fields of a new requirement that reach its columns; absent or null is None. */
  datatype RequirementInput = RequirementInput(
    productRequirement: Option<string>,
    quantity: Option<string>,
    deliveryLocation: Option<string>)

  /** The row createRequirement inserts; details is the serialised description, kept opaque. */
  function NewRequirement(buyerId: Id, input: RequirementInput, details: string, now: int): (r: Requirement)
    requires !MissingOrBlank(input.productRequirement)
    ensures r.buyerId == buyerId && r.status == Some("Open") && r.createdAt == now
    ensures r.productName == Some(Trim(input.productRequirement.value))
    ensures r.quantity == OrNull(input.quantity)
    ensures r.locationPreference == OrNull(input.deliveryLocation) && r.city == r.locationPreference
  {
    Requirement(
      buyerId,
      Some(Trim(input.productRequirement.value)),
      Some(details),
      OrNull(input.quantity),
      OrNull(input.deliveryLocation),
      OrNull(input.deliveryLocation),
      Some("Open"),
      now)
  }

  function CreateRequirementResult(s: Store, callerId: Id, input: RequirementInput, details: string, newId: Id, now: int): (o: Outcome)
    requires Valid(s)
    ensures Valid(o.store)
    ensures o.code == 401 <==> callerId == ""
    ensures o.code == 400 <==> callerId != "" && MissingOrBlank(input.productRequirement)
    ensures o.code == 401 || o.code == 400 ==> o.store == s
    ensures o.code == 500 <==> callerId != "" && !MissingOrBlank(input.productRequirement) && newId in s.requirements
    ensures o.code == 201 || o.code == 500 ==> o.store.users == WithStub(s.users, callerId, "buyer")
    ensures o.code == 201 ==> (newId !in s.requirements
      && o.store.requirements == s.requirements[newId := NewRequirement(callerId, input, details, now)])
    ensures o.code != 201 ==> o.store.requirements == s.requirements
    ensures o.store.leads == s.leads
  {
    if callerId == "" then Outcome(401, s)
    else if MissingOrBlank(input.productRequirement) then Outcome(400, s)
    else
      var withBuyer := s.(users := WithStub(s.users, callerId, "buyer"));
      WithStubKeepsValid(s, callerId, "buyer");
      if newId in s.requirements then Outcome(500, withBuyer)
      else Outcome(201, withBuyer.(requirements := s.requirements[newId := NewRequirement(callerId, input, details, now)]))
  }

  /** `createRequirement`: newId is the generated uuid, now the clock reading. */
  method CreateRequirement(db: LeadDb, callerId: Id, input: RequirementInput, details: string, newId: Id, now: int)
    returns (code: int, created: Option<Requirement>)
    requires Valid(db.State())
    modifies db
    ensures Outcome(code, db.State()) == CreateRequirementResult(old(db.State()), callerId, input, details, newId, now)
    ensures created.Some? <==> code == 201
    ensures code == 201 ==> created == Some(db.requirements[newId])
  {
    if callerId == "" {
      return 401, None;
    }
    if MissingOrBlank(input.productRequirement) {
      return 400, None;
    }
    WithStubKeepsValid(db.State(), callerId, "buyer");
    EnsureUserExists(db, callerId, "buyer");
    var data := NewRequirement(callerId, input, details, now);
    created := LeadRepository.CreateRequirement(db, newId, data);
    if created.None? {
      return 500, None;
    }
    code := 201;
  }

  /* ---------------------------------------------------------------------
     getRequirements
     --------------------------------------------------------------------- */

  /** A listing: 200 with requirement ids in response order, or an error code and no rows. */
  datatype Listing = Listing(code: int, ids: seq<Id>)

  /** The path suffix that selects the buyer's own listing. */
  const OwnListingSuffix := "/requirements/me"

  /** `req.originalUrl.endsWith('/requirements/me')`: the test sees the query string too. */
  predicate IsOwnListingUrl(originalUrl: string) {
    |OwnListingSuffix| <= |originalUrl| && originalUrl[|originalUrl| - |OwnListingSuffix|..] == OwnListingSuffix
  }

  /**
   * `getRequirements`. On an original URL ending with `/requirements/me`,
   * the caller's own requirements of every status (any status filter
   * dropped); on any other URL, the requirements whose status matches the
   * filter, 'Open' when none is given, case-insensitively, together with any
   * buyer_id filter of the query.
   */
  ghost function GetRequirements(reqs: map<Id, Requirement>, callerId: Id, originalUrl: string, query: RequirementQuery): (r: Listing)
    ensures IsOwnListingUrl(originalUrl) && callerId == "" ==> r == Listing(401, [])
    ensures IsOwnListingUrl(originalUrl) && callerId != "" ==> (r.code == 200
      && forall id :: id in r.ids <==> id in reqs && reqs[id].buyerId == callerId)
    ensures !IsOwnListingUrl(originalUrl) ==> (r.code == 200
      && forall id :: id in r.ids <==>
           && id in reqs && reqs[id].status.Some?
           && Lower(reqs[id].status.value) == Lower(if Truthy(query.status) then query.status.value else "Open")
           && (Truthy(query.buyerId) ==> reqs[id].buyerId == query.buyerId.value))
    ensures forall i, j :: 0 <= i < j < |r.ids| ==> r.ids[i] != r.ids[j] && reqs[r.ids[i]].createdAt >= reqs[r.ids[j]].createdAt
  {
    if IsOwnListingUrl(originalUrl) then
      if callerId == "" then Listing(401, [])
      else Listing(200, FindRequirements(reqs, RequirementQuery(None, Some(callerId))))
    else
      var status := if Truthy(query.status) then query.status else Some("Open");
      Listing(200, FindRequirements(reqs, query.(status := status)))
  }

  /** Without a status filter the public listing shows exactly the requirements a case-insensitive 'open' matches. */
  lemma PublicListingDefaultsToOpen(reqs: map<Id, Requirement>, callerId: Id, buyer: Option<string>)
    ensures var r := GetRequirements(reqs, callerId, "/leads/requirements", RequirementQuery(None, buyer));
      forall id :: id in r.ids ==> Lower(reqs[id].status.value) == "open"
  {
    StatusLiterals();
  }

  /**
   * A query string after `/requirements/me` defeats the suffix test: the
   * buyer's own listing with a status filter is served as the public listing,
   * every buyer's requirements with that status.
   */
  lemma QueryStringListsPublic(reqs: map<Id, Requirement>, callerId: Id)
    ensures var r := GetRequirements(reqs, callerId, "/leads/requirements/me?status=Closed", RequirementQuery(Some("Closed"), None));
      && r.code == 200
      && forall id :: id in r.ids <==> id in reqs && reqs[id].status.Some? && Lower(reqs[id].status.value) == Lower("Closed")
  {
    var url := "/leads/requirements/me?status=Closed";
    assert url[|url| - 1] != OwnListingSuffix[|OwnListingSuffix| - 1];
  }

  /** The lower-case forms of the status literals the handlers compare against. */
  lemma StatusLiterals()
    ensures Lower("Open") == "open" && Lower("closed") == "closed"
  {
    assert Lower("Open")[0] == 'o';
  }

  /* ---------------------------------------------------------------------
     updateRequirement
     --------------------------------------------------------------------- */

  /** The columns a buyer may change, in the order the handler copies them. */
  const AllowedFields: seq<string> := ["product_name", "details", "quantity", "location_preference", "city", "status"]

  /** The whitelisted body fields that are present, with their values (None for a JSON null). */
  function UpdateDataOf(body: map<string, Option<string>>): (upd: map<string, Option<string>>)
    ensures forall k :: k in upd <==> k in body && k in AllowedFields
    ensures forall k :: k in upd ==> upd[k] == body[k]
  {
    map k | k in body && k in AllowedFields :: body[k]
  }

  /** The loop that copies each allowed field the body defines into updateData. */
  method BuildUpdateData(body: map<string, Option<string>>) returns (upd: map<string, Option<string>>)
    ensures upd == UpdateDataOf(body)
    ensures upd.Keys <= set k | k in AllowedFields
  {
    upd := map[];
    for i := 0 to |AllowedFields|
      invariant forall k :: k in upd <==> k in body && k in AllowedFields[..i]
      invariant forall k :: k in upd ==> upd[k] == body[k]
    {
      var key := AllowedFields[i];
      if key in body {
        upd := upd[key := body[key]];
      }
    }
    assert AllowedFields[..|AllowedFields|] == AllowedFields;
  }

  function UpdateRequirementResult(s: Store, callerId: Id, id: Id, body: map<string, Option<string>>): (o: Outcome)
    requires Valid(s)
    ensures Valid(o.store)
    ensures o.code == 401 <==> callerId == ""
    ensures o.code == 400 <==> callerId != "" && UpdateDataOf(body) == map[]
    ensures o.code == 404 <==> callerId != "" && UpdateDataOf(body) != map[] && !Owns(s.requirements, id, callerId)
    ensures o.code != 200 ==> o.store == s
    ensures o.code == 200 ==> (o.store.users == s.users && o.store.leads == s.leads
      && o.store.requirements.Keys == s.requirements.Keys
      && (forall k :: k in s.requirements && k != id ==> o.store.requirements[k] == s.requirements[k])
      && o.store.requirements[id] == ApplyUpdate(s.requirements[id], UpdateDataOf(body)))
  {
    if callerId == "" then Outcome(401, s)
    else
      var upd := UpdateDataOf(body);
      if upd == map[] then Outcome(400, s)
      else if !Owns(s.requirements, id, callerId) then Outcome(404, s)
      else Outcome(200, s.(requirements := s.requirements[id := ApplyUpdate(s.requirements[id], upd)]))
  }

  /** Fields the body leaves out, and the owner, keep their values. */
  lemma UpdateKeepsUnsentFields(s: Store, callerId: Id, id: Id, body: map<string, Option<string>>)
    requires Valid(s)
    requires UpdateRequirementResult(s, callerId, id, body).code == 200
    ensures var r := UpdateRequirementResult(s, callerId, id, body).store.requirements[id];
      && r.buyerId == callerId
      && ("status" !in body ==> r.status == s.requirements[id].status)
      && ("product_name" !in body ==> r.productName == s.requirements[id].productName)
      && ("status" in body ==> r.status == body["status"])
  {
  }

  /** `updateRequirement`: the updated row on success. */
  method UpdateRequirement(db: LeadDb, callerId: Id, id: Id, body: map<string, Option<string>>)
    returns (code: int, updated: Option<Requirement>)
    requires Valid(db.State())
    modifies db
    ensures Outcome(code, db.State()) == UpdateRequirementResult(old(db.State()), callerId, id, body)
    ensures updated.Some? <==> code == 200
    ensures code == 200 ==> updated == Some(db.requirements[id])
  {
    if callerId == "" {
      return 401, None;
    }
    var upd := BuildUpdateData(body);
    if upd == map[] {
      return 400, None;
    }
    updated := LeadRepository.UpdateRequirement(db, id, callerId, upd);
    if updated.None? {
      return 404, None;
    }
    code := 200;
  }

  /* ---------------------------------------------------------------------
     deleteRequirement, deleteAllRequirements
     --------------------------------------------------------------------- */

  function DeleteRequirementResult(s: Store, callerId: Id, id: Id): (o: Outcome)
    requires Valid(s)
    ensures Valid(o.store)
    ensures o.code == 401 <==> callerId == ""
    ensures o.code == 404 <==> callerId != "" && !Owns(s.requirements, id, callerId)
    ensures o.code != 204 ==> o.store == s
    ensures o.code == 204 ==> (o.store == DeleteRequirements(s, {id})
      && id !in o.store.requirements
      && (forall l :: l in o.store.leads ==> o.store.leads[l].requirementId != id))
  {
    if callerId == "" then Outcome(401, s)
    else if !Owns(s.requirements, id, callerId) then Outcome(404, s)
    else Outcome(204, DeleteRequirements(s, {id}))
  }

  /** Deleting no requirement leaves the database as it was. */
  lemma DeleteNothing(s: Store)
    ensures DeleteRequirements(s, {}) == s
  {
    var r := DeleteRequirements(s, {});
    assert r.requirements == s.requirements;
    assert r.leads == s.leads;
  }

  /** `deleteRequirement`. */
  method DeleteRequirement(db: LeadDb, callerId: Id, id: Id) returns (code: int)
    requires Valid(db.State())
    modifies db
    ensures Outcome(code, db.State()) == DeleteRequirementResult(old(db.State()), callerId, id)
  {
    if callerId == "" {
      return 401;
    }
    DeleteNothing(db.State());
    var deleted := RemoveRequirement(db, id, callerId);
    if deleted == 0 {
      return 404;
    }
    code := 204;
  }

  function DeleteAllRequirementsResult(s: Store, callerId: Id): (o: Outcome)
    requires Valid(s)
    ensures Valid(o.store)
    ensures o.code == 401 <==> callerId == ""
    ensures o.code == 404 <==> callerId != "" && OwnedBy(s.requirements, callerId) == {}
    ensures o.code != 200 ==> o.store == s
    ensures o.code == 200 ==> (o.store == DeleteRequirements(s, OwnedBy(s.requirements, callerId))
      && forall k :: k in o.store.requirements ==> o.store.requirements[k].buyerId != callerId)
  {
    if callerId == "" then Outcome(401, s)
    else
      var owned := OwnedBy(s.requirements, callerId);
      if owned == {} then Outcome(404, s)
      else Outcome(200, DeleteRequirements(s, owned))
  }

  /** `deleteAllRequirements`: the number of requirements deleted on success. */
  method DeleteAllRequirements(db: LeadDb, callerId: Id) returns (code: int, deletedCount: nat)
    requires Valid(db.State())
    modifies db
    ensures Outcome(code, db.State()) == DeleteAllRequirementsResult(old(db.State()), callerId)
    ensures code == 200 ==> deletedCount == |OwnedBy(old(db.requirements), callerId)| && deletedCount > 0
  {
    if callerId == "" {
      return 401, 0;
    }
    DeleteNothing(db.State());
    var count := RemoveAllRequirementsByBuyer(db, callerId);
    assert count.Some?;
    if count.value == 0 {
      return 404, 0;
    }
    return 200, count.value;
  }

  /* ---------------------------------------------------------------------
     buyLead
     --------------------------------------------------------------------- */

  /** The user service's answer to `GET /users/:id`; a failed call is None. */
  datatype RemoteUser = RemoteUser(name: Option<string>, role: Option<string>)

  /** `String(status)`: a NULL column prints as "null". */
  function StatusText(st: Option<string>): (t: string)
    ensures st.Some? ==> t == st.value
  {
    if st.Some? then st.value else "null"
  }

  /** The closed test of buyLead: the status text equals 'closed' ignoring ASCII case. */
  predicate ClosedForBuying(r: Requirement) {
    Lower(StatusText(r.status)) == "closed"
  }

  /** The lead buyLead inserts. */
  function NewLead(r: Requirement, requirementId: Id, sellerId: Id): (l: Lead)
    ensures l.status == "Processing" && l.buyerId == r.buyerId
    ensures l.requirementId == requirementId && l.sellerId == sellerId
  {
    Lead(requirementId, sellerId, r.buyerId, "Processing")
  }

  /** The request checks of buyLead: a seller header, a requirement id and a message that is not blank. */
  predicate WellFormedBuy(sellerId: Id, requirementId: Id, message: Option<string>) {
    sellerId != "" && requirementId != "" && !MissingOrBlank(message)
  }

  /** Every check of buyLead up to the seller's role passes; from here on the seller stub is committed. */
  predicate SellerCleared(s: Store, sellerId: Id, requirementId: Id, message: Option<string>, seller: Option<RemoteUser>) {
    && WellFormedBuy(sellerId, requirementId, message)
    && requirementId in s.requirements && !ClosedForBuying(s.requirements[requirementId])
    && seller.Some? && seller.value.role == Some("seller")
  }

  /**
   * `buyLead`. seller and buyer are the user service's answers for the caller
   * and for the requirement's buyer; chatDelivered says whether the chat
   * service accepted the first message; newLeadId is the generated uuid.
   * The refusals come in the handler's order: 400, 404 for the requirement,
   * 409 closed, 404 for the seller, 403 for the role, 404 for the buyer,
   * 409 already contacted, 500 for the insert or the chat POST.
   */
  function BuyLeadResult(
    s: Store, sellerId: Id, requirementId: Id, message: Option<string>,
    seller: Option<RemoteUser>, buyer: Option<RemoteUser>, chatDelivered: bool, newLeadId: Id): (o: Outcome)
    requires Valid(s)
    ensures Valid(o.store)
    ensures o.store.requirements == s.requirements
    ensures o.code == 400 <==> !WellFormedBuy(sellerId, requirementId, message)
    ensures o.code == 400 ==> o.store == s
    ensures WellFormedBuy(sellerId, requirementId, message) && requirementId !in s.requirements ==>
      o.code == 404 && o.store == s
    ensures (WellFormedBuy(sellerId, requirementId, message) && requirementId in s.requirements
             && ClosedForBuying(s.requirements[requirementId])) ==> o.code == 409 && o.store == s
    ensures (WellFormedBuy(sellerId, requirementId, message) && requirementId in s.requirements
             && !ClosedForBuying(s.requirements[requirementId]) && seller.None?) ==> o.code == 404 && o.store == s
    ensures o.code == 403 <==>
      && WellFormedBuy(sellerId, requirementId, message) && requirementId in s.requirements
      && !ClosedForBuying(s.requirements[requirementId]) && seller.Some? && seller.value.role != Some("seller")
    ensures o.code == 403 ==> o.store == s
    ensures SellerCleared(s, sellerId, requirementId, message, seller) && buyer.None? ==> o.code == 404
    ensures (SellerCleared(s, sellerId, requirementId, message, seller) && buyer.Some?
             && ContactsOf(s.leads, requirementId, sellerId) != {}) ==> o.code == 409
    ensures (SellerCleared(s, sellerId, requirementId, message, seller) && buyer.Some?
             && ContactsOf(s.leads, requirementId, sellerId) == {}
             && (newLeadId in s.leads || !chatDelivered)) ==> o.code == 500
    ensures (SellerCleared(s, sellerId, requirementId, message, seller) && buyer.Some?
             && ContactsOf(s.leads, requirementId, sellerId) == {}
             && newLeadId !in s.leads && chatDelivered) ==> o.code == 200
    ensures o.code == 200 ==>
      && requirementId in s.requirements && !ClosedForBuying(s.requirements[requirementId])
      && seller.Some? && seller.value.role == Some("seller") && buyer.Some? && chatDelivered
      && ContactsOf(s.leads, requirementId, sellerId) == {}
      && newLeadId !in s.leads
      && o.store.leads == s.leads[newLeadId := NewLead(s.requirements[requirementId], requirementId, sellerId)]
      && |o.store.leads| == |s.leads| + 1
    ensures o.code != 200 ==> o.store.leads == s.leads
    ensures o.store.users == s.users || o.store.users == WithStub(s.users, sellerId, "seller")
    ensures o.code == 200 || o.code == 500 ==> o.store.users == WithStub(s.users, sellerId, "seller")
    ensures SellerCleared(s, sellerId, requirementId, message, seller) ==> o.store.users == WithStub(s.users, sellerId, "seller")
  {
    if sellerId == "" || requirementId == "" || MissingOrBlank(message) then Outcome(400, s)
    else if requirementId !in s.requirements then Outcome(404, s)
    else
      var requirement := s.requirements[requirementId];
      if ClosedForBuying(requirement) then Outcome(409, s)
      else if seller.None? then Outcome(404, s)
      else if seller.value.role != Some("seller") then Outcome(403, s)
      else
        // the stub is committed at once, outside the transaction
        var kept := s.(users := WithStub(s.users, sellerId, "seller"));
        WithStubKeepsValid(s, sellerId, "seller");
        if buyer.None? then Outcome(404, kept)
        else if ContactsOf(s.leads, requirementId, sellerId) != {} then Outcome(409, kept)
        else if newLeadId in s.leads then Outcome(500, kept)
        else if !chatDelivered then Outcome(500, kept)
        else
          var lead := NewLead(requirement, requirementId, sellerId);
          InsertContactKeepsValid(kept, newLeadId, lead);
          Outcome(200, kept.(leads := s.leads[newLeadId := lead]))
  }

  /** `buyLead`: the new lead's id on success. */
  method BuyLead(
    db: LeadDb, sellerId: Id, requirementId: Id, message: Option<string>,
    sellerLookup: Option<RemoteUser>, buyerLookup: Option<RemoteUser>, chatDelivered: bool, newLeadId: Id)
    returns (code: int, leadId: Option<Id>)
    requires Valid(db.State())
    modifies db
    ensures Outcome(code, db.State())
      == BuyLeadResult(old(db.State()), sellerId, requirementId, message, sellerLookup, buyerLookup, chatDelivered, newLeadId)
    ensures leadId.Some? <==> code == 200
    ensures code == 200 ==> leadId == Some(newLeadId)
  {
    var trxLeads := db.leads;
    if sellerId == "" || requirementId == "" || MissingOrBlank(message) {
      return 400, None;
    }
    if requirementId !in db.requirements {
      return 404, None;
    }
    var requirement := db.requirements[requirementId];
    if ClosedForBuying(requirement) {
      return 409, None;
    }
    if sellerLookup.None? {
      return 404, None;
    }
    if sellerLookup.value.role != Some("seller") {
      return 403, None;
    }
    EnsureUserExists(db, sellerId, "seller");
    if buyerLookup.None? {
      return 404, None;
    }
    var contacted := ContactsOf(trxLeads, requirementId, sellerId) != {};
    if contacted {
      return 409, None;
    }
    if newLeadId in trxLeads {
      // the INSERT violates the primary key; the handler answers 500 and rolls back
      return 500, None;
    }
    trxLeads := trxLeads[newLeadId := NewLead(requirement, requirementId, sellerId)];
    if !chatDelivered {
      // the chat POST threw before the commit: rollback, 500
      return 500, None;
    }
    db.leads := trxLeads;
    return 200, Some(newLeadId);
  }

  /** Once a seller has contacted a requirement, contacting it again is refused with 409 and adds nothing. */
  lemma {:induction false} SecondBuyConflicts(
    s: Store, sellerId: Id, requirementId: Id, message: Option<string>, seller: Option<RemoteUser>,
    buyer: Option<RemoteUser>, newLeadId: Id,
    message': Option<string>, seller': Option<RemoteUser>, buyer': Option<RemoteUser>, chat': bool, newLeadId': Id)
    requires Valid(s)
    requires BuyLeadResult(s, sellerId, requirementId, message, seller, buyer, true, newLeadId).code == 200
    ensures var s1 := BuyLeadResult(s, sellerId, requirementId, message, seller, buyer, true, newLeadId).store;
      var o2 := BuyLeadResult(s1, sellerId, requirementId, message', seller', buyer', chat', newLeadId');
      && o2.code != 200
      && o2.store.leads == s1.leads
      && (!MissingOrBlank(message') && seller' == seller && buyer'.Some? ==> o2.code == 409)
  {
    var s1 := BuyLeadResult(s, sellerId, requirementId, message, seller, buyer, true, newLeadId).store;
    BoughtIsContacted(s, sellerId, requirementId, message, seller, buyer, newLeadId);
    ContactedRefusesBuying(s1, sellerId, requirementId, message', seller', buyer', chat', newLeadId');
  }

  /** After a successful call the seller has contacted the requirement, which is still open to buying. */
  lemma BoughtIsContacted(
    s: Store, sellerId: Id, requirementId: Id, message: Option<string>, seller: Option<RemoteUser>,
    buyer: Option<RemoteUser>, newLeadId: Id)
    requires Valid(s)
    requires BuyLeadResult(s, sellerId, requirementId, message, seller, buyer, true, newLeadId).code == 200
    ensures var s1 := BuyLeadResult(s, sellerId, requirementId, message, seller, buyer, true, newLeadId).store;
      && Valid(s1) && ContactsOf(s1.leads, requirementId, sellerId) != {}
      && sellerId != "" && requirementId != ""
      && requirementId in s1.requirements && !ClosedForBuying(s1.requirements[requirementId])
      && seller.Some? && seller.value.role == Some("seller")
  {
    var o := BuyLeadResult(s, sellerId, requirementId, message, seller, buyer, true, newLeadId);
    var lead := NewLead(s.requirements[requirementId], requirementId, sellerId);
    assert o.store.leads == s.leads[newLeadId := lead];
    assert newLeadId in ContactsOf(o.store.leads, requirementId, sellerId);
  }

  /** buyLead refuses a seller who already contacted the requirement: 409 once every earlier check passes. */
  lemma ContactedRefusesBuying(
    s: Store, sellerId: Id, requirementId: Id, message: Option<string>,
    seller: Option<RemoteUser>, buyer: Option<RemoteUser>, chat: bool, newLeadId: Id)
    requires Valid(s) && ContactsOf(s.leads, requirementId, sellerId) != {}
    ensures var o := BuyLeadResult(s, sellerId, requirementId, message, seller, buyer, chat, newLeadId);
      o.code != 200 && o.store.leads == s.leads
    ensures
      && sellerId != "" && requirementId != "" && !MissingOrBlank(message)
      && requirementId in s.requirements && !ClosedForBuying(s.requirements[requirementId])
      && seller.Some? && seller.value.role == Some("seller") && buyer.Some?
      ==> BuyLeadResult(s, sellerId, requirementId, message, seller, buyer, chat, newLeadId).code == 409
  {
  }

  /**
   * A seller stub inserted by buyLead stays after the handler rolls back: a
   * failed chat POST answers 500 and keeps no lead, but the seller's users row
   * remains.
   */
  lemma {:induction false} StubSurvivesRollback(
    s: Store, sellerId: Id, requirementId: Id, message: Option<string>,
    seller: Option<RemoteUser>, buyer: Option<RemoteUser>, newLeadId: Id)
    requires Valid(s)
    requires sellerId != "" && requirementId != "" && !MissingOrBlank(message)
    requires requirementId in s.requirements && !ClosedForBuying(s.requirements[requirementId])
    requires seller.Some? && seller.value.role == Some("seller")
    ensures var o := BuyLeadResult(s, sellerId, requirementId, message, seller, buyer, false, newLeadId);
      && o.code != 200
      && o.store.leads == s.leads
      && sellerId in o.store.users
      && (sellerId !in s.users ==> o.store.users[sellerId] == Stub(sellerId, "seller"))
  {
  }

  /* ---------------------------------------------------------------------
     closeRequirement
     --------------------------------------------------------------------- */

  /** `WHERE id = ? AND buyer_id = ? AND status IN ('Open', 'Processing')`, compared exactly. */
  predicate Closable(reqs: map<Id, Requirement>, id: Id, buyerId: Id) {
    Owns(reqs, id, buyerId) && reqs[id].status in {Some("Open"), Some("Processing")}
  }

  function CloseRequirementResult(s: Store, callerId: Id, id: Id): (o: Outcome)
    requires Valid(s)
    ensures Valid(o.store)
    ensures o.code == 401 <==> callerId == ""
    ensures o.code == 404 <==> callerId != "" && !Closable(s.requirements, id, callerId)
    ensures o.code != 200 ==> o.store == s
    ensures o.code == 200 ==> (o.store.users == s.users
      && o.store.requirements == s.requirements[id := s.requirements[id].(status := Some("Closed"))]
      && o.store.leads.Keys == s.leads.Keys
      && (forall l :: l in s.leads && s.leads[l].requirementId == id ==> o.store.leads[l] == s.leads[l].(status := "Closed"))
      && (forall l :: l in s.leads && s.leads[l].requirementId != id ==> o.store.leads[l] == s.leads[l]))
  {
    if callerId == "" then Outcome(401, s)
    else if !Closable(s.requirements, id, callerId) then Outcome(404, s)
    else
      var reqs := SetRequirementStatus(s.requirements, id, Some("Closed"));
      var leads := SetStatusOfLeadsOf(s.leads, id, "Closed");
      StatusChangeKeepsValid(s, reqs, leads);
      Outcome(200, Store(s.users, reqs, leads))
  }

  /** `closeRequirement`. */
  method CloseRequirement(db: LeadDb, callerId: Id, id: Id) returns (code: int)
    requires Valid(db.State())
    modifies db
    ensures Outcome(code, db.State()) == CloseRequirementResult(old(db.State()), callerId, id)
  {
    var trxRequirements, trxLeads := db.requirements, db.leads;
    if callerId == "" {
      return 401;
    }
    if !Closable(trxRequirements, id, callerId) {
      return 404;
    }
    trxRequirements := SetRequirementStatus(trxRequirements, id, Some("Closed"));
    trxLeads := SetStatusOfLeadsOf(trxLeads, id, "Closed");
    db.requirements, db.leads := trxRequirements, trxLeads;
    code := 200;
  }

  /* ---------------------------------------------------------------------
     cancelLead
     --------------------------------------------------------------------- */

  /** `WHERE id = ? AND seller_id = ? AND status = 'Processing'`, compared exactly. */
  predicate Cancellable(leads: map<Id, Lead>, id: Id, sellerId: Id) {
    id in leads && leads[id].sellerId == sellerId && leads[id].status == "Processing"
  }

  function CancelLeadResult(s: Store, callerId: Id, id: Id): (o: Outcome)
    requires Valid(s)
    ensures Valid(o.store)
    ensures o.code == 401 <==> callerId == ""
    ensures o.code == 404 <==> callerId != "" && !Cancellable(s.leads, id, callerId)
    ensures o.code != 200 ==> o.store == s
    ensures o.code == 200 ==> (o.store.users == s.users
      && o.store.leads == s.leads[id := s.leads[id].(status := "Cancelled")]
      && var reqId := s.leads[id].requirementId;
         o.store.requirements == s.requirements[reqId := s.requirements[reqId].(status := Some("Open"))])
  {
    if callerId == "" then Outcome(401, s)
    else if !Cancellable(s.leads, id, callerId) then Outcome(404, s)
    else
      var reqs := SetRequirementStatus(s.requirements, s.leads[id].requirementId, Some("Open"));
      var leads := SetLeadStatus(s.leads, id, "Cancelled");
      StatusChangeKeepsValid(s, reqs, leads);
      Outcome(200, Store(s.users, reqs, leads))
  }

  /** `cancelLead`. */
  method CancelLead(db: LeadDb, callerId: Id, id: Id) returns (code: int)
    requires Valid(db.State())
    modifies db
    ensures Outcome(code, db.State()) == CancelLeadResult(old(db.State()), callerId, id)
  {
    var trxRequirements, trxLeads := db.requirements, db.leads;
    if callerId == "" {
      return 401;
    }
    if !Cancellable(trxLeads, id, callerId) {
      return 404;
    }
    var lead := trxLeads[id];
    trxLeads := SetLeadStatus(trxLeads, id, "Cancelled");
    trxRequirements := SetRequirementStatus(trxRequirements, lead.requirementId, Some("Open"));
    db.requirements, db.leads := trxRequirements, trxLeads;
    code := 200;
  }

  /** After a close, no lead of that requirement can be cancelled. */
  lemma {:induction false} CloseThenCancelRefused(s: Store, buyerId: Id, reqId: Id, sellerId: Id, leadId: Id)
    requires Valid(s)
    requires CloseRequirementResult(s, buyerId, reqId).code == 200
    requires sellerId != "" && leadId in s.leads && s.leads[leadId].requirementId == reqId
    ensures var s1 := CloseRequirementResult(s, buyerId, reqId).store;
      CancelLeadResult(s1, sellerId, leadId) == Outcome(404, s1)
  {
    var s1 := CloseRequirementResult(s, buyerId, reqId).store;
    assert s1.leads[leadId].status == "Closed";
  }

  /**
   * Cancelling reopens the requirement, yet the cancelled lead still records the
   * contact, so the same seller cannot contact it again.
   */
  lemma {:induction false} CancelledSellerCannotRecontact(
    s: Store, sellerId: Id, leadId: Id, message: Option<string>,
    seller: Option<RemoteUser>, buyer: Option<RemoteUser>, chat: bool, newLeadId: Id)
    requires Valid(s)
    requires CancelLeadResult(s, sellerId, leadId).code == 200
    ensures var s1 := CancelLeadResult(s, sellerId, leadId).store;
      var reqId := s.leads[leadId].requirementId;
      && s1.requirements[reqId].status == Some("Open")
      && BuyLeadResult(s1, sellerId, reqId, message, seller, buyer, chat, newLeadId).code != 200
  {
    var s1 := CancelLeadResult(s, sellerId, leadId).store;
    var reqId := s.leads[leadId].requirementId;
    assert leadId in ContactsOf(s1.leads, reqId, sellerId);
  }

  /* ---------------------------------------------------------------------
     getSellerLeadsStats
     --------------------------------------------------------------------- */

  /** The figures of the seller dashboard. */
  datatype SellerStats = SellerStats(total: nat, open: nat, accepted: nat, closed: nat, cancelled: nat)

  /** The leads of sellerId. */
  function LeadsOfSeller(leads: map<Id, Lead>, sellerId: Id): (ks: set<Id>)
    ensures forall l :: l in ks <==> l in leads && leads[l].sellerId == sellerId
  {
    set l | l in leads && leads[l].sellerId == sellerId
  }

  /** Leads counted under distinct statuses are distinct leads of the seller. */
  lemma {:induction false} DisjointStatusCounts(leads: map<Id, Lead>, sellerId: Id)
    ensures |SellerLeadsIn(leads, sellerId, "Open")| + |SellerLeadsIn(leads, sellerId, "Processing")|
          + |SellerLeadsIn(leads, sellerId, "Closed")| + |SellerLeadsIn(leads, sellerId, "Cancelled")|
          <= |LeadsOfSeller(leads, sellerId)|
  {
    var a := SellerLeadsIn(leads, sellerId, "Open");
    var b := SellerLeadsIn(leads, sellerId, "Processing");
    var c := SellerLeadsIn(leads, sellerId, "Closed");
    var d := SellerLeadsIn(leads, sellerId, "Cancelled");
    assert a * b == {} && (a + b) * c == {} && (a + b + c) * d == {};
    assert |a + b| == |a| + |b|;
    assert |a + b + c| == |a + b| + |c|;
    assert |a + b + c + d| == |a + b + c| + |d|;
    SubsetCard(a + b + c + d, LeadsOfSeller(leads, sellerId));
  }

  /**
   * `getSellerLeadsStats`: None (401) without the header; otherwise the
   * seller's leads in all and by status, 'Processing' reported as accepted.
   */
  function GetSellerLeadsStats(leads: map<Id, Lead>, sellerId: Id): (r: Option<SellerStats>)
    ensures r.None? <==> sellerId == ""
    ensures r.Some? ==> r.value.total == |LeadsOfSeller(leads, sellerId)|
    ensures r.Some? ==> r.value.open + r.value.accepted + r.value.closed + r.value.cancelled <= r.value.total
    ensures r.Some? ==> r.value.open == |SellerLeadsIn(leads, sellerId, "Open")|
    ensures r.Some? ==> r.value.accepted == |SellerLeadsIn(leads, sellerId, "Processing")|
    ensures r.Some? ==> r.value.closed == |SellerLeadsIn(leads, sellerId, "Closed")|
    ensures r.Some? ==> r.value.cancelled == |SellerLeadsIn(leads, sellerId, "Cancelled")|
  {
    if sellerId == "" then None
    else
      DisjointStatusCounts(leads, sellerId);
      Some(SellerStats(
        |LeadsOfSeller(leads, sellerId)|,
        |SellerLeadsIn(leads, sellerId, "Open")|,
        |SellerLeadsIn(leads, sellerId, "Processing")|,
        |SellerLeadsIn(leads, sellerId, "Closed")|,
        |SellerLeadsIn(leads, sellerId, "Cancelled")|))
  }

  /** The dashboard's accepted figure and the repository's agree: both count the seller's 'Processing' leads. */
  lemma AcceptedAgreesWithRepository(s: Store, sellerId: Id)
    requires sellerId != ""
    ensures GetSellerLeadsStats(s.leads, sellerId).value.accepted == GetSellerLeadStats(s, sellerId).accepted
  {
  }

  /* ---------------------------------------------------------------------
     selectSellerForRequirement
     --------------------------------------------------------------------- */

  /** The leads of requirement reqId whose status is exactly st. */
  function LeadsOfRequirementIn(leads: map<Id, Lead>, reqId: Id, st: string): (ks: set<Id>)
    ensures forall l :: l in ks <==> l in leads && leads[l].requirementId == reqId && leads[l].status == st
  {
    set l | l in leads && leads[l].requirementId == reqId && leads[l].status == st
  }

  /**
   * `selectSellerForRequirement`. buyerId is `req.user.id`, "" when the
   * authenticated user carries no id: knex then refuses the undefined
   * binding of the ownership query and the handler answers 500.
   */
  function SelectSellerResult(s: Store, buyerId: Id, requirementId: Id, sellerId: Id): (o: Outcome)
    requires Valid(s)
    ensures Valid(o.store)
    ensures o.code == 400 <==> requirementId == "" || sellerId == ""
    ensures o.code == 500 <==> requirementId != "" && sellerId != "" && buyerId == ""
    ensures o.code == 403 <==>
      requirementId != "" && sellerId != "" && buyerId != "" && !Owns(s.requirements, requirementId, buyerId)
    ensures o.code == 404 <==>
      && requirementId != "" && sellerId != "" && buyerId != "" && Owns(s.requirements, requirementId, buyerId)
      && ContactsOf(s.leads, requirementId, sellerId) == {}
    ensures o.code != 200 ==> o.store == s
    ensures o.code == 200 ==>
      && o.store.users == s.users
      && o.store.requirements == s.requirements[requirementId := s.requirements[requirementId].(status := Some("closed"))]
      && o.store.leads.Keys == s.leads.Keys
      && LeadsOfRequirementIn(o.store.leads, requirementId, "accepted") == ContactsOf(s.leads, requirementId, sellerId)
      && |LeadsOfRequirementIn(o.store.leads, requirementId, "accepted")| == 1
      && (forall l :: l in ContactsOf(s.leads, requirementId, sellerId) ==> o.store.leads[l] == s.leads[l].(status := "accepted"))
      && (forall l :: l in s.leads && s.leads[l].requirementId == requirementId && s.leads[l].sellerId != sellerId ==>
            o.store.leads[l] == s.leads[l].(status := "rejected"))
      && (forall l :: l in s.leads && s.leads[l].requirementId != requirementId ==> o.store.leads[l] == s.leads[l])
  {
    if requirementId == "" || sellerId == "" then Outcome(400, s)
    else if buyerId == "" then Outcome(500, s)
    else if !Owns(s.requirements, requirementId, buyerId) then Outcome(403, s)
    else
      var rejected := SetStatusOfLeadsOf(s.leads, requirementId, "rejected");
      RejectingKeepsContacts(s.leads, requirementId, sellerId);
      if ContactsOf(rejected, requirementId, sellerId) == {} then Outcome(404, s)
      else
        var leads := SetStatusOfContact(rejected, requirementId, sellerId, "accepted");
        var reqs := SetRequirementStatus(s.requirements, requirementId, Some("closed"));
        SelectionKeepsValid(s, requirementId, sellerId);
        AcceptOnlyTheSelected(s.leads, requirementId, sellerId);
        Outcome(200, Store(s.users, reqs, leads))
  }

  /** Rejecting every lead of a requirement leaves the same (requirement, seller) contacts. */
  lemma RejectingKeepsContacts(leads: map<Id, Lead>, requirementId: Id, sellerId: Id)
    ensures ContactsOf(SetStatusOfLeadsOf(leads, requirementId, "rejected"), requirementId, sellerId)
         == ContactsOf(leads, requirementId, sellerId)
  {
    assert ContactsOf(SetStatusOfLeadsOf(leads, requirementId, "rejected"), requirementId, sellerId)
        <= ContactsOf(leads, requirementId, sellerId);
  }

  /** The two status updates of a selection only change statuses, so they keep the store valid. */
  lemma SelectionKeepsValid(s: Store, requirementId: Id, sellerId: Id)
    requires Valid(s)
    ensures Valid(Store(s.users,
      SetRequirementStatus(s.requirements, requirementId, Some("closed")),
      SetStatusOfContact(SetStatusOfLeadsOf(s.leads, requirementId, "rejected"), requirementId, sellerId, "accepted")))
  {
    var rejected := SetStatusOfLeadsOf(s.leads, requirementId, "rejected");
    var leads := SetStatusOfContact(rejected, requirementId, sellerId, "accepted");
    forall l | l in leads
      ensures leads[l] == s.leads[l].(status := leads[l].status)
    {
      assert rejected[l] == s.leads[l].(status := rejected[l].status);
    }
    StatusChangeKeepsValid(s, SetRequirementStatus(s.requirements, requirementId, Some("closed")), leads);
  }

  /**
   * Rejecting every lead of a requirement and then accepting the selected
   * seller's leaves exactly that one lead accepted, thanks to the unique
   * constraint, and touches no other requirement's leads.
   */
  lemma AcceptOnlyTheSelected(leads: map<Id, Lead>, requirementId: Id, sellerId: Id)
    requires UniqueContacts(leads)
    requires ContactsOf(leads, requirementId, sellerId) != {}
    ensures var r := SetStatusOfContact(SetStatusOfLeadsOf(leads, requirementId, "rejected"), requirementId, sellerId, "accepted");
      && LeadsOfRequirementIn(r, requirementId, "accepted") == ContactsOf(leads, requirementId, sellerId)
      && |LeadsOfRequirementIn(r, requirementId, "accepted")| == 1
      && (forall l :: l in ContactsOf(leads, requirementId, sellerId) ==> r[l] == leads[l].(status := "accepted"))
      && (forall l :: l in leads && leads[l].requirementId == requirementId && leads[l].sellerId != sellerId ==>
            r[l] == leads[l].(status := "rejected"))
      && (forall l :: l in leads && leads[l].requirementId != requirementId ==> r[l] == leads[l])
  {
    var rejected := SetStatusOfLeadsOf(leads, requirementId, "rejected");
    RejectingKeepsContacts(leads, requirementId, sellerId);
    var r := SetStatusOfContact(rejected, requirementId, sellerId, "accepted");
    assert LeadsOfRequirementIn(r, requirementId, "accepted") == ContactsOf(leads, requirementId, sellerId);
    AtMostOneContact(leads, requirementId, sellerId);
  }

  /** `selectSellerForRequirement`; buyerId is the authenticated user. */
  method SelectSellerForRequirement(db: LeadDb, buyerId: Id, requirementId: Id, sellerId: Id) returns (code: int)
    requires Valid(db.State())
    modifies db
    ensures Outcome(code, db.State()) == SelectSellerResult(old(db.State()), buyerId, requirementId, sellerId)
  {
    if requirementId == "" || sellerId == "" {
      return 400;
    }
    var trxRequirements, trxLeads := db.requirements, db.leads;
    if buyerId == "" {
      // `where({ buyer_id: undefined })` throws; the catch rolls back and answers 500
      return 500;
    }
    if !Owns(trxRequirements, requirementId, buyerId) {
      return 403;
    }
    trxLeads := SetStatusOfLeadsOf(trxLeads, requirementId, "rejected");
    var updated := |ContactsOf(trxLeads, requirementId, sellerId)|;
    trxLeads := SetStatusOfContact(trxLeads, requirementId, sellerId, "accepted");
    if updated == 0 {
      return 404;
    }
    trxRequirements := SetRequirementStatus(trxRequirements, requirementId, Some("closed"));
    db.requirements, db.leads := trxRequirements, trxLeads;
    code := 200;
  }

  /**
   * The lower-case 'closed' that selection writes is closed for buyLead, which
   * compares ignoring case, but not for closeRequirement, which compares
   * exactly: after a selection no seller can contact the requirement, and the
   * buyer can no longer close it.
   */
  lemma {:induction false} SelectionEndsTheRequirement(
    s: Store, buyerId: Id, requirementId: Id, sellerId: Id,
    otherSeller: Id, message: Option<string>, seller: Option<RemoteUser>, buyer: Option<RemoteUser>, chat: bool, newLeadId: Id)
    requires Valid(s)
    requires SelectSellerResult(s, buyerId, requirementId, sellerId).code == 200
    ensures var s1 := SelectSellerResult(s, buyerId, requirementId, sellerId).store;
      && BuyLeadResult(s1, otherSeller, requirementId, message, seller, buyer, chat, newLeadId).code != 200
      && (otherSeller != "" && !MissingOrBlank(message) ==>
            BuyLeadResult(s1, otherSeller, requirementId, message, seller, buyer, chat, newLeadId).code == 409)
      && (buyerId != "" ==> CloseRequirementResult(s1, buyerId, requirementId).code == 404)
  {
    var s1 := SelectSellerResult(s, buyerId, requirementId, sellerId).store;
    assert requirementId in s1.requirements && s1.requirements[requirementId].status == Some("closed");
    StatusLiterals();
    ClosedRefusesBuying(s1, otherSeller, requirementId, message, seller, buyer, chat, newLeadId);
    assert !Closable(s1.requirements, requirementId, buyerId);
  }

  /** buyLead refuses a requirement closed for buying: 409 once the request itself is well formed. */
  lemma ClosedRefusesBuying(
    s: Store, sellerId: Id, requirementId: Id, message: Option<string>,
    seller: Option<RemoteUser>, buyer: Option<RemoteUser>, chat: bool, newLeadId: Id)
    requires Valid(s) && requirementId in s.requirements && ClosedForBuying(s.requirements[requirementId])
    ensures BuyLeadResult(s, sellerId, requirementId, message, seller, buyer, chat, newLeadId).code != 200
    ensures sellerId != "" && requirementId != "" && !MissingOrBlank(message) ==>
      BuyLeadResult(s, sellerId, requirementId, message, seller, buyer, chat, newLeadId).code == 409
  {
  }
}
