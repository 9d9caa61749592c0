/**
 * The lead-service database: the shadow `users` table, `requirements` posted by
 * buyers and `leads` (a seller contacting a requirement), each a map from
 * primary key to row, with the constraints the schema enforces.
 */
module LeadStore {
  import opened Common

  /** A row of `users`: a local shadow of an identity held by the user service. */
  datatype UserRow = UserRow(name: string, email: string, role: string)

  /**
   * A row of `requirements`. Every column but `buyer_id` is nullable; `details`
   * holds JSON text that the model treats as opaque, and `created_at` is a
   * timestamp supplied by the caller of each operation. `quantity` is a text
   * column: a JSON number in a request body is stored as its decimal text, so
   * the model represents every quantity by that text.
   */
  datatype Requirement = Requirement(
    buyerId: Id,
    productName: Option<string>,
    details: Option<string>,
    quantity: Option<string>,
    locationPreference: Option<string>,
    city: Option<string>,
    status: Option<string>,
    createdAt: int)

  /** A row of `leads`: one seller's contact with one requirement. */
  datatype Lead = Lead(requirementId: Id, sellerId: Id, buyerId: Id, status: string)

  /** The three tables at one moment. */
  datatype Store = Store(
    users: map<Id, UserRow>,
    requirements: map<Id, Requirement>,
    leads: map<Id, Lead>)

  /** The foreign keys: `requirements.buyer_id`, `leads.requirement_id`, `leads.seller_id`, `leads.buyer_id`. */
  predicate ForeignKeys(s: Store) {
    && (forall r :: r in s.requirements ==> s.requirements[r].buyerId in s.users)
    && (forall l :: l in s.leads ==>
          && s.leads[l].requirementId in s.requirements
          && s.leads[l].sellerId in s.users
          && s.leads[l].buyerId in s.users)
  }

  /** `UNIQUE (requirement_id, seller_id)` on `leads`: a seller contacts a requirement at most once. */
  predicate UniqueContacts(leads: map<Id, Lead>) {
    forall a, b :: a in leads && b in leads && a != b ==>
      leads[a].requirementId != leads[b].requirementId || leads[a].sellerId != leads[b].sellerId
  }

  /** Every state the database can be in. */
  predicate Valid(s: Store) {
    ForeignKeys(s) && UniqueContacts(s.leads)
  }

  /** The live database; handlers read and write its tables. */
  class LeadDb {
    var users: map<Id, UserRow>
    var requirements: map<Id, Requirement>
    var leads: map<Id, Lead>

    function State(): Store
      reads this
    {
      Store(users, requirements, leads)
    }

    /** A freshly migrated database: three empty tables. */
    constructor ()
      ensures State() == Store(map[], map[], map[]) && Valid(State())
    {
      users, requirements, leads := map[], map[], map[];
    }
  }

  /** The leads that record seller sellerId contacting requirement reqId. */
  function ContactsOf(leads: map<Id, Lead>, reqId: Id, sellerId: Id): (ks: set<Id>)
    ensures forall l :: l in ks <==> l in leads && leads[l].requirementId == reqId && leads[l].sellerId == sellerId
  {
    set l | l in leads && leads[l].requirementId == reqId && leads[l].sellerId == sellerId
  }

  /** Under the unique constraint, a requirement and a seller share at most one lead. */
  lemma AtMostOneContact(leads: map<Id, Lead>, reqId: Id, sellerId: Id)
    requires UniqueContacts(leads)
    ensures |ContactsOf(leads, reqId, sellerId)| <= 1
  {
    var ks := ContactsOf(leads, reqId, sellerId);
    if ks != {} {
      var l :| l in ks;
      assert ks == {l};
    }
  }

  /** Inserting the first lead of a seller on a requirement, both known, keeps every constraint. */
  lemma InsertContactKeepsValid(s: Store, id: Id, l: Lead)
    requires Valid(s) && id !in s.leads
    requires l.requirementId in s.requirements && l.sellerId in s.users && l.buyerId in s.users
    requires ContactsOf(s.leads, l.requirementId, l.sellerId) == {}
    ensures Valid(s.(leads := s.leads[id := l]))
  {
    var leads := s.leads[id := l];
    forall a, b | a in leads && b in leads && a != b
      ensures leads[a].requirementId != leads[b].requirementId || leads[a].sellerId != leads[b].sellerId
    {
      if a == id {
        assert b !in ContactsOf(s.leads, l.requirementId, l.sellerId);
      } else if b == id {
        assert a !in ContactsOf(s.leads, l.requirementId, l.sellerId);
      }
    }
  }

  /** `UPDATE requirements SET status = st WHERE id = id`. */
  function SetRequirementStatus(reqs: map<Id, Requirement>, id: Id, st: Option<string>): (r: map<Id, Requirement>)
    ensures r.Keys == reqs.Keys
    ensures forall k :: k in reqs && k != id ==> r[k] == reqs[k]
    ensures id in reqs ==> r[id] == reqs[id].(status := st)
  {
    if id in reqs then reqs[id := reqs[id].(status := st)] else reqs
  }

  /** `UPDATE leads SET status = st WHERE requirement_id = reqId`. */
  function SetStatusOfLeadsOf(leads: map<Id, Lead>, reqId: Id, st: string): (r: map<Id, Lead>)
    ensures r.Keys == leads.Keys
    ensures forall l :: l in leads ==>
      r[l] == if leads[l].requirementId == reqId then leads[l].(status := st) else leads[l]
  {
    map l | l in leads :: if leads[l].requirementId == reqId then leads[l].(status := st) else leads[l]
  }

  /** `UPDATE leads SET status = st WHERE requirement_id = reqId AND seller_id = sellerId`. */
  function SetStatusOfContact(leads: map<Id, Lead>, reqId: Id, sellerId: Id, st: string): (r: map<Id, Lead>)
    ensures r.Keys == leads.Keys
    ensures forall l :: l in leads ==>
      r[l] == if l in ContactsOf(leads, reqId, sellerId) then leads[l].(status := st) else leads[l]
  {
    map l | l in leads :: if l in ContactsOf(leads, reqId, sellerId) then leads[l].(status := st) else leads[l]
  }

  /** `UPDATE leads SET status = st WHERE id = id`. */
  function SetLeadStatus(leads: map<Id, Lead>, id: Id, st: string): (r: map<Id, Lead>)
    ensures r.Keys == leads.Keys
    ensures forall l :: l in leads && l != id ==> r[l] == leads[l]
    ensures id in leads ==> r[id] == leads[id].(status := st)
  {
    if id in leads then leads[id := leads[id].(status := st)] else leads
  }

  /** A change of lead statuses alone keeps every constraint. */
  lemma StatusChangeKeepsValid(s: Store, reqs: map<Id, Requirement>, leads: map<Id, Lead>)
    requires Valid(s)
    requires reqs.Keys == s.requirements.Keys
    requires forall r :: r in reqs ==> reqs[r].buyerId == s.requirements[r].buyerId
    requires leads.Keys == s.leads.Keys
    requires forall l :: l in leads ==> leads[l] == s.leads[l].(status := leads[l].status)
    ensures Valid(Store(s.users, reqs, leads))
  {
    forall a, b | a in leads && b in leads && a != b
      ensures leads[a].requirementId != leads[b].requirementId || leads[a].sellerId != leads[b].sellerId
    {
      assert leads[a].requirementId == s.leads[a].requirementId && leads[a].sellerId == s.leads[a].sellerId;
      assert leads[b].requirementId == s.leads[b].requirementId && leads[b].sellerId == s.leads[b].sellerId;
    }
  }

  /**
   * `DELETE FROM requirements WHERE id IN ids`, together with the
   * `ON DELETE CASCADE` of `leads.requirement_id`.
   */
  function DeleteRequirements(s: Store, ids: set<Id>): (r: Store)
    ensures r.users == s.users
    ensures forall k :: k in r.requirements <==> k in s.requirements && k !in ids
    ensures forall k :: k in r.requirements ==> r.requirements[k] == s.requirements[k]
    ensures forall l :: l in r.leads <==> l in s.leads && s.leads[l].requirementId !in ids
    ensures forall l :: l in r.leads ==> r.leads[l] == s.leads[l]
    ensures Valid(s) ==> Valid(r)
  {
    Store(
      s.users,
      map k | k in s.requirements && k !in ids :: s.requirements[k],
      map l | l in s.leads && s.leads[l].requirementId !in ids :: s.leads[l])
  }
}
