/**
 * The lead-service repository: the queries the controllers and other callers
 * run on the module-level connection, each statement committed on its own.
 */
module LeadRepository {
  import opened Common
  import opened Text
  import opened Tables
  import opened LeadStore

  /**
   * `createRequirement(data)`: rejects data without a buyer, then inserts the
   * row. None stands for the thrown error, including an INSERT the schema
   * refuses (a taken primary key, an unknown buyer).
   */
  method CreateRequirement(db: LeadDb, id: Id, data: Requirement) returns (row: Option<Requirement>)
    requires Valid(db.State())
    modifies db`requirements
    ensures Valid(db.State())
    ensures row.Some? <==> data.buyerId != "" && id !in old(db.requirements) && data.buyerId in db.users
    ensures row.Some? ==> row.value == data && db.requirements == old(db.requirements)[id := data]
    ensures row.None? ==> db.requirements == old(db.requirements)
  {
    if data.buyerId == "" {
      return None;
    }
    if id in db.requirements || data.buyerId !in db.users {
      return None;
    }
    db.requirements := db.requirements[id := data];
    row := Some(data);
  }

  /** The filters `findRequirements` understands; a falsy filter is ignored. */
  datatype RequirementQuery = RequirementQuery(status: Option<string>, buyerId: Option<string>)

  /**
   * `LOWER(status) = lower(filter)` when a status filter is given (a NULL status
   * never matches), and `buyer_id = filter` when a buyer filter is given.
   */
  predicate MatchesQuery(r: Requirement, q: RequirementQuery) {
    && (Truthy(q.status) ==> r.status.Some? && Lower(r.status.value) == Lower(q.status.value))
    && (Truthy(q.buyerId) ==> r.buyerId == q.buyerId.value)
  }

  /** `ORDER BY created_at DESC`: a row may precede another no older than itself. */
  predicate NewerOrSame(a: Requirement, b: Requirement) {
    a.createdAt >= b.createdAt
  }

  lemma NewerOrSameIsPreorder()
    ensures TotalPreorder(NewerOrSame)
  {
  }

  /** `findRequirements(filters)`: the ids of the matching rows, newest first. */
  ghost function FindRequirements(reqs: map<Id, Requirement>, q: RequirementQuery): (r: seq<Id>)
    ensures forall id :: id in r <==> id in reqs && MatchesQuery(reqs[id], q)
    ensures forall i, j :: 0 <= i < j < |r| ==> r[i] != r[j]
    ensures forall i, j :: 0 <= i < j < |r| ==> reqs[r[i]].createdAt >= reqs[r[j]].createdAt
  {
    NewerOrSameIsPreorder();
    var rows := Where(reqs, row => MatchesQuery(row, q));
    var r := OrderBy(rows, NewerOrSame);
    assert forall i :: 0 <= i < |r| ==> rows[r[i]] == reqs[r[i]];
    r
  }

  /** Status matching ignores ASCII case: a filter finds the same rows in any spelling. */
  lemma StatusFilterIgnoresCase(reqs: map<Id, Requirement>, st: string, buyer: Option<string>)
    requires st != ""
    ensures forall id :: id in FindRequirements(reqs, RequirementQuery(Some(st), buyer)) <==>
                         id in FindRequirements(reqs, RequirementQuery(Some(Lower(st)), buyer))
  {
    LowerIdempotent(st);
    assert Lower(st) != [] by {
      assert |Lower(st)| == |st|;
    }
    forall r: Requirement
      ensures MatchesQuery(r, RequirementQuery(Some(st), buyer)) == MatchesQuery(r, RequirementQuery(Some(Lower(st)), buyer))
    {
    }
  }

  /** The row after `UPDATE ... SET` with the columns of upd; columns upd leaves out keep their value. */
  function ApplyUpdate(r: Requirement, upd: map<string, Option<string>>): (r': Requirement)
    ensures r'.buyerId == r.buyerId && r'.createdAt == r.createdAt
  {
    r.(productName := if "product_name" in upd then upd["product_name"] else r.productName,
       details := if "details" in upd then upd["details"] else r.details,
       quantity := if "quantity" in upd then upd["quantity"] else r.quantity,
       locationPreference := if "location_preference" in upd then upd["location_preference"] else r.locationPreference,
       city := if "city" in upd then upd["city"] else r.city,
       status := if "status" in upd then upd["status"] else r.status)
  }

  /** The requirement id exists and belongs to buyerId: the `WHERE id = ? AND buyer_id = ?` of the owner-only queries. */
  predicate Owns(reqs: map<Id, Requirement>, id: Id, buyerId: Id) {
    id in reqs && reqs[id].buyerId == buyerId
  }

  /** `updateRequirement(id, buyerId, upd)`: the updated row, or None when no row matched. */
  method UpdateRequirement(db: LeadDb, id: Id, buyerId: Id, upd: map<string, Option<string>>)
    returns (row: Option<Requirement>)
    requires Valid(db.State())
    modifies db`requirements
    ensures Valid(db.State())
    ensures row.Some? <==> Owns(old(db.requirements), id, buyerId)
    ensures row.Some? ==> row.value == ApplyUpdate(old(db.requirements)[id], upd)
    ensures row.Some? ==> db.requirements == old(db.requirements)[id := row.value]
    ensures row.None? ==> db.requirements == old(db.requirements)
  {
    if !Owns(db.requirements, id, buyerId) {
      return None;
    }
    var updated := ApplyUpdate(db.requirements[id], upd);
    db.requirements := db.requirements[id := updated];
    row := Some(updated);
  }

  /** `removeRequirement(id, buyerId)`: the number of rows deleted, with their leads cascaded. */
  method RemoveRequirement(db: LeadDb, id: Id, buyerId: Id) returns (count: nat)
    requires Valid(db.State())
    modifies db`requirements, db`leads
    ensures Valid(db.State())
    ensures count == if Owns(old(db.requirements), id, buyerId) then 1 else 0
    ensures db.State() == DeleteRequirements(old(db.State()), if count == 1 then {id} else {})
  {
    var ids: set<Id> := if Owns(db.requirements, id, buyerId) then {id} else {};
    count := |ids|;
    var after := DeleteRequirements(db.State(), ids);
    db.requirements, db.leads := after.requirements, after.leads;
  }

  /** The ids of the requirements buyerId owns. */
  function OwnedBy(reqs: map<Id, Requirement>, buyerId: Id): (ks: set<Id>)
    ensures forall k :: k in ks <==> Owns(reqs, k, buyerId)
  {
    set k | k in reqs && reqs[k].buyerId == buyerId
  }

  /** After deleting a buyer's requirements none of theirs remain, and everyone else's are untouched. */
  lemma RemoveAllLeavesOthers(s: Store, buyerId: Id)
    ensures var r := DeleteRequirements(s, OwnedBy(s.requirements, buyerId));
      && (forall k :: k in r.requirements ==> r.requirements[k].buyerId != buyerId)
      && (forall k :: k in s.requirements && s.requirements[k].buyerId != buyerId ==> k in r.requirements)
      && |r.requirements| == |s.requirements| - |OwnedBy(s.requirements, buyerId)|
  {
    var r := DeleteRequirements(s, OwnedBy(s.requirements, buyerId));
    assert r.requirements.Keys == s.requirements.Keys - OwnedBy(s.requirements, buyerId);
  }

  /**
   * `removeAllRequirementsByBuyer(buyerId)`: None for the error thrown without
   * a buyer, otherwise the number of rows deleted, their leads cascaded.
   */
  method RemoveAllRequirementsByBuyer(db: LeadDb, buyerId: Id) returns (count: Option<nat>)
    requires Valid(db.State())
    modifies db`requirements, db`leads
    ensures Valid(db.State())
    ensures buyerId == "" ==> count == None && db.State() == old(db.State())
    ensures buyerId != "" ==> count == Some(|OwnedBy(old(db.requirements), buyerId)|)
    ensures buyerId != "" ==> db.State() == DeleteRequirements(old(db.State()), OwnedBy(old(db.requirements), buyerId))
  {
    if buyerId == "" {
      return None;
    }
    var ids := OwnedBy(db.requirements, buyerId);
    var after := DeleteRequirements(db.State(), ids);
    db.requirements, db.leads := after.requirements, after.leads;
    count := Some(|ids|);
  }

  /** The figures `getSellerLeadStats` reports. */
  datatype LeadStats = LeadStats(total: nat, open: nat, accepted: nat)

  /** The requirements whose status is exactly 'Open', whoever posted them. */
  function OpenRequirements(reqs: map<Id, Requirement>): (ks: set<Id>)
    ensures forall k :: k in ks <==> k in reqs && reqs[k].status == Some("Open")
  {
    set k | k in reqs && reqs[k].status == Some("Open")
  }

  /** The leads of sellerId whose status is exactly st. */
  function SellerLeadsIn(leads: map<Id, Lead>, sellerId: Id, st: string): (ks: set<Id>)
    ensures forall l :: l in ks <==> l in leads && leads[l].sellerId == sellerId && leads[l].status == st
  {
    set l | l in leads && leads[l].sellerId == sellerId && leads[l].status == st
  }

  /**
   * `getSellerLeadStats(sellerId)`: zeros without a seller; otherwise every
   * 'Open' requirement (not only the seller's) plus the seller's 'Processing'
   * leads, and their sum.
   */
  function GetSellerLeadStats(s: Store, sellerId: Id): (r: LeadStats)
    ensures sellerId == "" ==> r == LeadStats(0, 0, 0)
    ensures r.total == r.open + r.accepted
    ensures r.open <= |s.requirements| && r.accepted <= |s.leads|
    ensures sellerId != "" ==> r.open == |OpenRequirements(s.requirements)|
    ensures sellerId != "" ==> r.accepted == |SellerLeadsIn(s.leads, sellerId, "Processing")|
  {
    if sellerId == "" then LeadStats(0, 0, 0)
    else
      var open := OpenRequirements(s.requirements);
      var accepted := SellerLeadsIn(s.leads, sellerId, "Processing");
      SubsetCard(open, s.requirements.Keys);
      SubsetCard(accepted, s.leads.Keys);
      LeadStats(|open| + |accepted|, |open|, |accepted|)
  }

  /** The `open` figure is the same for every seller: it is not scoped to the caller. */
  lemma OpenIsNotSellerScoped(s: Store, a: Id, b: Id)
    requires a != "" && b != ""
    ensures GetSellerLeadStats(s, a).open == GetSellerLeadStats(s, b).open
  {
  }

  /** The row `syncUserToLocalDB` inserts for an identity not yet known locally. */
  function Synced(userId: Id): (u: UserRow)
    ensures u.name == "Synced User" && u.role == "buyer"
    ensures u.email == "synced_" + userId + "@example.com"
  {
    UserRow("Synced User", "synced_" + userId + "@example.com", "buyer")
  }

  /**
   * `syncUserToLocalDB(userId)`: None for a falsy id; the existing row
   * unchanged; otherwise the row it inserts with `ON CONFLICT (id) DO NOTHING`.
   */
  method SyncUserToLocalDB(db: LeadDb, userId: Id) returns (row: Option<UserRow>)
    requires Valid(db.State())
    modifies db`users
    ensures Valid(db.State())
    ensures userId == "" ==> row == None && db.users == old(db.users)
    ensures userId != "" && userId in old(db.users) ==> row == Some(old(db.users)[userId]) && db.users == old(db.users)
    ensures userId != "" && userId !in old(db.users) ==>
              row == Some(Synced(userId)) && db.users == old(db.users)[userId := Synced(userId)]
    ensures userId != "" ==> userId in db.users && row == Some(db.users[userId])
  {
    if userId == "" {
      return None;
    }
    if userId in db.users {
      return Some(db.users[userId]);
    }
    if userId !in db.users {
      db.users := db.users[userId := Synced(userId)];
    }
    row := Some(db.users[userId]);
  }

  /**
   * The leads after the repository's `selectSellerForRequirement`: every lead of
   * the requirement 'Rejected', then the lead with the selected id 'Accepted'.
   */
  function RepositorySelectLeads(leads: map<Id, Lead>, requirementId: Id, selectedLeadId: Id): (r: map<Id, Lead>)
    ensures r.Keys == leads.Keys
    ensures selectedLeadId in leads ==> r[selectedLeadId] == leads[selectedLeadId].(status := "Accepted")
    ensures forall l :: l in leads && l != selectedLeadId && leads[l].requirementId == requirementId ==>
              r[l] == leads[l].(status := "Rejected")
    ensures forall l :: l in leads && l != selectedLeadId && leads[l].requirementId != requirementId ==>
              r[l] == leads[l]
  {
    SetLeadStatus(SetStatusOfLeadsOf(leads, requirementId, "Rejected"), selectedLeadId, "Accepted")
  }

  /**
   * The selected lead is matched by id alone: a lead of another requirement is
   * accepted while no lead of the closed requirement is.
   */
  lemma SelectByIdCrossesRequirements(leads: map<Id, Lead>, requirementId: Id, selectedLeadId: Id)
    requires selectedLeadId in leads && leads[selectedLeadId].requirementId != requirementId
    ensures var r := RepositorySelectLeads(leads, requirementId, selectedLeadId);
      && r[selectedLeadId].status == "Accepted"
      && forall l :: l in r && r[l].requirementId == requirementId ==> r[l].status == "Rejected"
  {
  }

  /**
   * `selectSellerForRequirement(requirementId, selectedLeadId)`: the requirement
   * 'Closed' and the leads as above, committed together; the accepted lead, or
   * None when no lead has that id (the transaction still commits).
   */
  method SelectSellerForRequirement(db: LeadDb, requirementId: Id, selectedLeadId: Id) returns (accepted: Option<Lead>)
    requires Valid(db.State())
    modifies db`requirements, db`leads
    ensures Valid(db.State())
    ensures db.users == old(db.users)
    ensures db.requirements == SetRequirementStatus(old(db.requirements), requirementId, Some("Closed"))
    ensures db.leads == RepositorySelectLeads(old(db.leads), requirementId, selectedLeadId)
    ensures accepted.Some? <==> selectedLeadId in old(db.leads)
    ensures accepted.Some? ==> accepted.value == old(db.leads)[selectedLeadId].(status := "Accepted")
  {
    var trxRequirements := SetRequirementStatus(db.requirements, requirementId, Some("Closed"));
    var trxLeads := SetStatusOfLeadsOf(db.leads, requirementId, "Rejected");
    trxLeads := SetLeadStatus(trxLeads, selectedLeadId, "Accepted");
    accepted := if selectedLeadId in trxLeads then Some(trxLeads[selectedLeadId]) else None;
    StatusChangeKeepsValid(db.State(), trxRequirements, trxLeads);
    db.requirements, db.leads := trxRequirements, trxLeads;
  }
}
