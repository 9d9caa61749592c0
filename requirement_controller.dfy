/**
 * The monolith's requirement handlers: a buyer's own requirements, the open
 * requirements other users may contact (each flagged with whether the caller
 * already has), and the owner's status change.
 *
 * The caller id comes from the verified token; "" stands for no user.
 */
module RequirementController {
  import opened Common
  import opened Tables
  import opened LegacyStore
  import opened LegacyLeadController

  predicate NewerOrSame(a: Requirement, b: Requirement) {
    a.createdAt >= b.createdAt
  }

  lemma NewerOrSameIsPreorder()
    ensures TotalPreorder(NewerOrSame)
  {
  }

  /** The ids of the requirements satisfying p, newest first (`.sort({ createdAt: -1 })`). */
  ghost function NewestFirst(reqs: map<Id, Requirement>, p: Requirement -> bool): (r: seq<Id>)
    ensures forall id :: id in r <==> id in reqs && p(reqs[id])
    ensures forall i, j :: 0 <= i < j < |r| ==> r[i] != r[j] && reqs[r[i]].createdAt >= reqs[r[j]].createdAt
  {
    NewerOrSameIsPreorder();
    var rows := Where(reqs, p);
    var r := OrderBy(rows, NewerOrSame);
    assert forall i :: 0 <= i < |r| ==> rows[r[i]] == reqs[r[i]];
    r
  }

  /** A read: 200 with ids in response order, or an error code and nothing. */
  datatype Listing = Listing(code: int, ids: seq<Id>)

  /** `getBuyerRequirements`: 401 without a user, else the caller's requirements, newest first. */
  ghost function GetBuyerRequirements(reqs: map<Id, Requirement>, callerId: Id): (r: Listing)
    ensures r.code == 401 <==> callerId == ""
    ensures r.code != 401 ==> r.code == 200
    ensures forall id :: id in r.ids <==> callerId != "" && id in reqs && reqs[id].buyerId == callerId
    ensures forall i, j :: 0 <= i < j < |r.ids| ==> r.ids[i] != r.ids[j] && reqs[r.ids[i]].createdAt >= reqs[r.ids[j]].createdAt
  {
    if callerId == "" then Listing(401, [])
    else Listing(200, NewestFirst(reqs, (q: Requirement) => q.buyerId == callerId))
  }

  /** One entry of the available-leads list. */
  datatype LeadView = LeadView(id: Id, isContacted: bool)

  predicate Available(q: Requirement, callerId: Id) {
    q.status == "Open" && q.buyerId != callerId
  }

  /** The `isContacted` flag of one requirement as the caller sees it. */
  function Flag(reqs: map<Id, Requirement>, id: Id, callerId: Id): (v: LeadView)
    requires id in reqs
    ensures v.id == id && (v.isContacted <==> callerId in reqs[id].contactedSellers)
  {
    LeadView(id, callerId in reqs[id].contactedSellers)
  }

  /** The requirement ids of a list of leads, in order. */
  function IdsOf(r: seq<LeadView>): (ids: seq<Id>)
    ensures |ids| == |r| && forall i :: 0 <= i < |r| ==> ids[i] == r[i].id
  {
    seq(|r|, i requires 0 <= i < |r| => r[i].id)
  }

  /**
   * `getAvailableLeads`: the open requirements the caller does not own,
   * newest first, each flagged with whether the caller has contacted it.
   */
  ghost function GetAvailableLeads(reqs: map<Id, Requirement>, callerId: Id): (r: seq<LeadView>)
    ensures forall id :: id in IdsOf(r) <==> id in reqs && Available(reqs[id], callerId)
    ensures forall i :: 0 <= i < |r| ==> r[i].id in reqs && (r[i].isContacted <==> callerId in reqs[r[i].id].contactedSellers)
    ensures forall i, j :: 0 <= i < j < |r| ==> r[i].id != r[j].id && reqs[r[i].id].createdAt >= reqs[r[j].id].createdAt
  {
    var ids := NewestFirst(reqs, (q: Requirement) => Available(q, callerId));
    var r := seq(|ids|, i requires 0 <= i < |ids| => Flag(reqs, ids[i], callerId));
    assert IdsOf(r) == ids;
    r
  }

  /** The response code and the collections after `updateRequirementStatus`. */
  datatype StatusOutcome = StatusOutcome(code: int, docs: Docs)

  /**
   * `updateRequirementStatus`: 400 for a status other than 'Open' or 'Closed'
   * (checked first), 404 for an unknown id, 403 for a caller who is not the
   * buyer; otherwise exactly the status field changes.
   */
  function UpdateRequirementStatusResult(d: Docs, id: Id, callerId: Id, status: Option<string>): (o: StatusOutcome)
    requires Valid(d)
    ensures Valid(o.docs)
    ensures o.code == 400 <==> status !in {Some("Open"), Some("Closed")}
    ensures o.code == 404 <==> status in {Some("Open"), Some("Closed")} && id !in d.requirements
    ensures o.code == 403 <==> status in {Some("Open"), Some("Closed")} && id in d.requirements && d.requirements[id].buyerId != callerId
    ensures o.code != 200 ==> o.docs == d
    ensures o.code == 200 ==> (
      && status.Some? && id in d.requirements
      && o.docs == d.(requirements := d.requirements[id := d.requirements[id].(status := status.value)]))
  {
    if status !in {Some("Open"), Some("Closed")} then StatusOutcome(400, d)
    else if id !in d.requirements then StatusOutcome(404, d)
    else if d.requirements[id].buyerId != callerId then StatusOutcome(403, d)
    else StatusOutcome(200, d.(requirements := d.requirements[id := d.requirements[id].(status := status.value)]))
  }

  method UpdateRequirementStatus(db: MongoDb, id: Id, callerId: Id, status: Option<string>) returns (code: int)
    requires Valid(db.State())
    modifies db`requirements
    ensures StatusOutcome(code, db.State()) == UpdateRequirementStatusResult(old(db.State()), id, callerId, status)
  {
    if status !in {Some("Open"), Some("Closed")} {
      return 400;
    }
    if id !in db.requirements {
      return 404;
    }
    var requirement := db.requirements[id];
    if requirement.buyerId != callerId {
      return 403;
    }
    requirement := requirement.(status := status.value);
    db.requirements := db.requirements[id := requirement];
    return 200;
  }

  /** Closing a requirement takes it off every user's available leads; reopening lists it for everyone but its buyer. */
  lemma StatusDecidesAvailability(d: Docs, id: Id, callerId: Id, status: string, viewer: Id)
    requires Valid(d)
    requires UpdateRequirementStatusResult(d, id, callerId, Some(status)).code == 200
    ensures var leads := GetAvailableLeads(UpdateRequirementStatusResult(d, id, callerId, Some(status)).docs.requirements, viewer);
      id in IdsOf(leads) <==> status == "Open" && viewer != callerId
  {
  }

  /** Once a seller's lead purchase succeeds, that requirement shows as contacted in the seller's available leads. */
  lemma BoughtLeadShowsContacted(d: Docs, input: BuyInput, f: Generated)
    requires Valid(d) && FreshIn(d, f)
    requires BuyLeadResult(d, input, f).code == 200
    ensures var leads := GetAvailableLeads(BuyLeadResult(d, input, f).docs.requirements, input.sellerId);
      forall v :: v in leads && v.id == input.requirementId ==> v.isContacted
  {
    var reqs := BuyLeadResult(d, input, f).docs.requirements;
    assert input.sellerId in reqs[input.requirementId].contactedSellers by {
      var cs := reqs[input.requirementId].contactedSellers;
      assert cs[|cs| - 1] == input.sellerId;
    }
  }
}
