/**
 * The monolith's user handlers: the address book with its single default
 * address, the contact-details update, and the address a public buyer
 * profile shows. The caller id comes from the verified token.
 */
module UserController {
  import opened Common
  import opened Text
  import opened UserModel
  import opened SellerProfileModel
  import opened AccountStore

  /** The `type` and `details` of a request body. */
  datatype AddressBody = AddressBody(kind: Option<string>, details: Option<string>)

  /** The actions `manageAddress` is routed with. */
  const Actions: set<string> := {"get", "add", "update", "delete", "default"}

  /** `addresses.id(addressId)`: the position of the address with that `_id`. */
  function Find(l: seq<Address>, addressId: Id): (r: Option<nat>)
    ensures r.Some? ==> r.value < |l| && l[r.value].id == addressId
    ensures r.None? <==> forall i :: 0 <= i < |l| ==> l[i].id != addressId
  {
    FirstWhere(l, (a: Address) => a.id == addressId)
  }

  /** No two addresses share an `_id`. */
  predicate DistinctIds(l: seq<Address>) {
    forall i, j :: 0 <= i < j < |l| ==> l[i].id != l[j].id
  }

  /** At most one address is the default. */
  predicate AtMostOneDefault(l: seq<Address>) {
    forall i, j :: 0 <= i < j < |l| ==> !(l[i].isDefault && l[j].isDefault)
  }

  /** `add`: a new address, the default exactly when it is the first. */
  function Added(l: seq<Address>, body: AddressBody, newId: Id): (l': seq<Address>)
    ensures |l'| == |l| + 1 && l'[..|l|] == l
    ensures l'[|l|].id == newId && l'[|l|].kind == body.kind && l'[|l|].details == body.details
    ensures l'[|l|].isDefault <==> l == []
  {
    l + [Address(newId, body.kind, body.details, l == [])]
  }

  /** `update`: the address at i gets the body's type and details, whatever they are. */
  function Updated(l: seq<Address>, i: nat, body: AddressBody): (l': seq<Address>)
    requires i < |l|
    ensures |l'| == |l| && forall k :: 0 <= k < |l| && k != i ==> l'[k] == l[k]
    ensures l'[i] == Address(l[i].id, body.kind, body.details, l[i].isDefault)
  {
    l[i := l[i].(kind := body.kind, details := body.details)]
  }

  /** `delete`: the address at i goes; if it was the default, the first remaining one becomes the default. */
  function Removed(l: seq<Address>, i: nat): (l': seq<Address>)
    requires i < |l|
    ensures |l'| == |l| - 1
    ensures forall k :: 0 <= k < |l'| ==> l'[k].id == (if k < i then l[k] else l[k + 1]).id
    ensures forall k :: 0 <= k < |l'| && !(k == 0 && l[i].isDefault) ==> l'[k] == if k < i then l[k] else l[k + 1]
    ensures l[i].isDefault && l' != [] ==> l'[0].isDefault
  {
    var rest := l[..i] + l[i + 1..];
    if l[i].isDefault && rest != [] then rest[0 := rest[0].(isDefault := true)] else rest
  }

  /** `default`: each address is the default exactly when its `_id` is addressId. */
  function DefaultOnly(l: seq<Address>, addressId: Id): (l': seq<Address>)
    ensures |l'| == |l|
    ensures forall k :: 0 <= k < |l| ==> l'[k] == l[k].(isDefault := l[k].id == addressId)
  {
    seq(|l|, k requires 0 <= k < |l| => l[k].(isDefault := l[k].id == addressId))
  }

  /** The response code, the users afterwards, and the addresses returned. */
  datatype AddressOutcome = AddressOutcome(code: int, users: map<Id, User>, addresses: seq<Address>)

  /** The edited list for one of the editing actions, or None when the address is not found. */
  function Edit(l: seq<Address>, action: string, addressId: Id, body: AddressBody, newId: Id): (r: Option<seq<Address>>)
    requires action in {"add", "update", "delete", "default"}
    ensures r.None? <==> action in {"update", "delete"} && Find(l, addressId).None?
  {
    if action == "add" then Some(Added(l, body, newId))
    else if action == "default" then Some(DefaultOnly(l, addressId))
    else match Find(l, addressId)
      case None => None
      case Some(i) => if action == "update" then Some(Updated(l, i, body)) else Some(Removed(l, i))
  }

  /**
   * `manageAddress`: 404 for an unknown user; `get` answers the list; an
   * unknown action is 400; `update` and `delete` of an unknown address are
   * 404. An edit `save` rejects (an address without a valid type or details,
   * or a user document that fails validation) is 500 with nothing saved;
   * otherwise only the user's addresses change.
   */
  function ManageAddressResult(users: map<Id, User>, userId: Id, action: string, addressId: Id, body: AddressBody, newId: Id): (o: AddressOutcome)
    ensures o.code in {200, 400, 404, 500}
    ensures o.code == 404 <==>
      userId !in users || (action in {"update", "delete"} && Find(users[userId].addresses, addressId).None?)
    ensures o.code == 400 <==> userId in users && action !in Actions
    ensures o.code != 200 ==> o.users == users
    ensures o.code == 200 ==> userId in users && o.users == users[userId := users[userId].(addresses := o.addresses)]
    ensures o.code == 200 && action == "get" ==> o.users == users
    ensures o.code == 200 && action == "get" ==> o.addresses == users[userId].addresses
    ensures o.code == 200 && action != "get" ==>
      Edit(users[userId].addresses, action, addressId, body, newId) == Some(o.addresses)
    ensures o.code == 200 && action != "get" ==> ValidUser(o.users[userId])
    ensures o.code == 500 ==>
      && userId in users && action in {"add", "update", "delete", "default"}
      && var l := Edit(users[userId].addresses, action, addressId, body, newId);
      l.Some? && !ValidUser(users[userId].(addresses := l.value))
  {
    if userId !in users then AddressOutcome(404, users, [])
    else
      var u := users[userId];
      if action == "get" then
        assert users[userId := u] == users;
        AddressOutcome(200, users, u.addresses)
      else if action !in Actions then AddressOutcome(400, users, [])
      else match Edit(u.addresses, action, addressId, body, newId)
        case None => AddressOutcome(404, users, [])
        case Some(l) =>
          var u' := u.(addresses := l);
          if ValidUser(u') then AddressOutcome(200, users[userId := u'], l)
          else AddressOutcome(500, users, [])
  }

  method ManageAddress(db: AccountDb, userId: Id, action: string, addressId: Id, body: AddressBody, newId: Id)
    returns (code: int, addresses: seq<Address>)
    modifies db`users
    ensures AddressOutcome(code, db.users, addresses) == ManageAddressResult(old(db.users), userId, action, addressId, body, newId)
  {
    if userId !in db.users {
      return 404, [];
    }
    var user := db.users[userId];
    if action == "get" {
      return 200, user.addresses;
    } else if action !in Actions {
      return 400, [];
    }
    var edited := EditAddresses(user.addresses, action, addressId, body, newId);
    if edited.None? {
      return 404, [];
    }
    user := user.(addresses := edited.value);
    if !ValidUser(user) {
      return 500, [];
    }
    db.users := db.users[userId := user];
    return 200, edited.value;
  }

  /** The `switch` over the editing actions, working on the subdocument array in place. */
  method EditAddresses(addresses: seq<Address>, action: string, addressId: Id, body: AddressBody, newId: Id)
    returns (r: Option<seq<Address>>)
    requires action in {"add", "update", "delete", "default"}
    ensures r == Edit(addresses, action, addressId, body, newId)
  {
    var list := addresses;
    if action == "add" {
      if |list| == 0 {
        list := list + [Address(newId, body.kind, body.details, true)];
      } else {
        list := list + [Address(newId, body.kind, body.details, false)];
      }
    } else if action == "update" {
      var at := Find(list, addressId);
      if at.None? {
        return None;
      }
      list := list[at.value := list[at.value].(kind := body.kind, details := body.details)];
    } else if action == "delete" {
      var at := Find(list, addressId);
      if at.None? {
        return None;
      }
      var wasDefault := list[at.value].isDefault;
      list := list[..at.value] + list[at.value + 1..];
      if wasDefault && |list| > 0 {
        list := list[0 := list[0].(isDefault := true)];
      }
    } else {
      var i := 0;
      while i < |list|
        invariant 0 <= i <= |list| == |addresses|
        invariant forall k :: 0 <= k < i ==> list[k] == addresses[k].(isDefault := addresses[k].id == addressId)
        invariant forall k :: i <= k < |list| ==> list[k] == addresses[k]
      {
        list := list[i := list[i].(isDefault := list[i].id == addressId)];
        i := i + 1;
      }
      assert list == DefaultOnly(addresses, addressId);
    }
    return Some(list);
  }

  /** The address book shape every action keeps: distinct `_id`s and at most one default. */
  predicate WellFormed(l: seq<Address>) {
    DistinctIds(l) && AtMostOneDefault(l)
  }

  lemma AddedKeepsWellFormed(l: seq<Address>, body: AddressBody, newId: Id)
    requires WellFormed(l) && Find(l, newId).None?
    ensures WellFormed(Added(l, body, newId))
  {
    var l' := Added(l, body, newId);
    forall a, b | 0 <= a < b < |l'|
      ensures l'[a].id != l'[b].id && !(l'[a].isDefault && l'[b].isDefault)
    {
      assert l'[a] == l[a];
      if b < |l| {
        assert l'[b] == l[b];
      }
    }
  }

  lemma UpdatedKeepsWellFormed(l: seq<Address>, i: nat, body: AddressBody)
    requires WellFormed(l) && i < |l|
    ensures WellFormed(Updated(l, i, body))
  {
  }

  lemma {:induction false} RemovedKeepsWellFormed(l: seq<Address>, i: nat)
    requires WellFormed(l) && i < |l|
    ensures WellFormed(Removed(l, i))
  {
    var l' := Removed(l, i);
    forall a, b | 0 <= a < b < |l'|
      ensures l'[a].id != l'[b].id && !(l'[a].isDefault && l'[b].isDefault)
    {
      var a0 := if a < i then a else a + 1;
      var b0 := if b < i then b else b + 1;
      assert a0 < b0;
      assert l'[a].id == l[a0].id && l'[b].id == l[b0].id;
      if l[i].isDefault {
        assert b0 < i ==> !(l[i].isDefault && l[b0].isDefault);
        assert i < b0 ==> !(l[i].isDefault && l[b0].isDefault);
        assert l'[b] == l[b0];
      } else {
        assert l'[a] == l[a0] && l'[b] == l[b0];
      }
    }
  }

  lemma DefaultOnlyKeepsWellFormed(l: seq<Address>, addressId: Id)
    requires WellFormed(l)
    ensures WellFormed(DefaultOnly(l, addressId))
  {
    var l' := DefaultOnly(l, addressId);
    forall a, b | 0 <= a < b < |l'|
      ensures l'[a].id != l'[b].id && !(l'[a].isDefault && l'[b].isDefault)
    {
      assert l[a].id != l[b].id;
    }
  }

  /** Every action keeps the user's address book well formed, given a fresh `_id` for `add`. */
  lemma ManageAddressKeepsWellFormed(users: map<Id, User>, userId: Id, action: string, addressId: Id, body: AddressBody, newId: Id)
    requires userId in users && WellFormed(users[userId].addresses)
    requires Find(users[userId].addresses, newId).None?
    ensures var o := ManageAddressResult(users, userId, action, addressId, body, newId);
      userId in o.users && WellFormed(o.users[userId].addresses)
  {
    var o := ManageAddressResult(users, userId, action, addressId, body, newId);
    var l := users[userId].addresses;
    if action != "get" && action in Actions {
      var e := Edit(l, action, addressId, body, newId);
      if e.Some? {
        EditKeepsWellFormed(l, action, addressId, body, newId);
        assert o.users[userId].addresses == l || o.users[userId].addresses == e.value;
      }
    }
  }

  lemma EditKeepsWellFormed(l: seq<Address>, action: string, addressId: Id, body: AddressBody, newId: Id)
    requires WellFormed(l) && Find(l, newId).None?
    requires action in {"add", "update", "delete", "default"}
    requires Edit(l, action, addressId, body, newId).Some?
    ensures WellFormed(Edit(l, action, addressId, body, newId).value)
  {
    if action == "add" {
      AddedKeepsWellFormed(l, body, newId);
    } else if action == "default" {
      DefaultOnlyKeepsWellFormed(l, addressId);
    } else if action == "update" {
      UpdatedKeepsWellFormed(l, Find(l, addressId).value, body);
    } else {
      RemovedKeepsWellFormed(l, Find(l, addressId).value);
    }
  }

  /** `find(a => a.isDefault) || addresses[0]`: the first default address, else the first address. */
  function PrimaryAddress(l: seq<Address>): (r: Option<Address>)
    ensures r.None? <==> l == []
    ensures r.Some? ==> r.value in l
    ensures (exists i :: 0 <= i < |l| && l[i].isDefault) ==> r.Some? && r.value.isDefault
    ensures (forall i :: 0 <= i < |l| ==> !l[i].isDefault) && l != [] ==> r == Some(l[0])
  {
    match FirstWhere(l, (a: Address) => a.isDefault)
    case Some(i) => Some(l[i])
    case None => if l == [] then None else Some(l[0])
  }

  /** The `address` a public buyer profile shows: the primary address's details, or 'Not provided'. */
  function ShownAddress(l: seq<Address>): (r: Option<string>)
    ensures l == [] ==> r == Some("Not provided")
    ensures l != [] ==> r == PrimaryAddress(l).value.details
  {
    match PrimaryAddress(l)
    case None => Some("Not provided")
    case Some(a) => a.details
  }

  /** After `default` names an address of the book, the profile shows that address. */
  lemma ChosenDefaultIsShown(users: map<Id, User>, userId: Id, addressId: Id, body: AddressBody, newId: Id)
    requires userId in users && DistinctIds(users[userId].addresses)
    requires Find(users[userId].addresses, addressId).Some?
    requires ManageAddressResult(users, userId, "default", addressId, body, newId).code == 200
    ensures var o := ManageAddressResult(users, userId, "default", addressId, body, newId);
      && PrimaryAddress(o.addresses).Some? && PrimaryAddress(o.addresses).value.id == addressId
      && ShownAddress(o.addresses) == users[userId].addresses[Find(users[userId].addresses, addressId).value].details
  {
    var l := users[userId].addresses;
    var i := Find(l, addressId).value;
    var l' := DefaultOnly(l, addressId);
    assert l'[i].isDefault;
    var p := FirstWhere(l', (a: Address) => a.isDefault);
    assert p.value == i;
  }

  /** The first address added to an empty book becomes the one the profile shows. */
  lemma FirstAddressIsShown(users: map<Id, User>, userId: Id, body: AddressBody, newId: Id)
    requires userId in users && users[userId].addresses == []
    requires ManageAddressResult(users, userId, "add", "", body, newId).code == 200
    ensures var o := ManageAddressResult(users, userId, "add", "", body, newId);
      ShownAddress(o.addresses) == body.details && o.addresses[0].isDefault
  {
  }

  /** The user after `if (name) user.name = name` and the same for the contact number, with the `trim` setter. */
  function WithContactDetails(u: User, name: Option<string>, contactNumber: Option<string>): (u': User)
    ensures u'.name == if Truthy(name) then Trimmed(name) else u.name
    ensures u'.contactNumber == if Truthy(contactNumber) then Trimmed(contactNumber) else u.contactNumber
    ensures u'.email == u.email && u'.role == u.role && u'.status == u.status
    ensures u'.onboardingComplete == u.onboardingComplete && u'.addresses == u.addresses
  {
    u.(name := if Truthy(name) then Trimmed(name) else u.name,
       contactNumber := if Truthy(contactNumber) then Trimmed(contactNumber) else u.contactNumber)
  }

  /**
   * `updateUserContactDetails`: 404 for an unknown user; a name or contact
   * number replaces the stored one only when it is truthy, and is trimmed by
   * its setter. A document `save` rejects is 400 with nothing saved. When a
   * seller changes their name, their profile's company name follows.
   */
  function UpdateContactDetailsResult(a: Accounts, userId: Id, name: Option<string>, contactNumber: Option<string>): (o: (int, Accounts))
    requires Valid(a)
    ensures Valid(o.1)
    ensures o.0 in {200, 400, 404}
    ensures o.0 == 404 <==> userId !in a.users
    ensures o.0 != 200 ==> o.1 == a
    ensures o.0 == 200 ==>
      && userId in a.users && o.1.users.Keys == a.users.Keys
      && (forall k :: k in a.users && k != userId ==> o.1.users[k] == a.users[k])
      && o.1.users[userId] == WithContactDetails(a.users[userId], name, contactNumber)
      && ValidUser(o.1.users[userId])
    ensures o.0 == 200 ==> o.1.profiles.Keys == a.profiles.Keys && forall k :: k in a.profiles ==>
      o.1.profiles[k] == if a.profiles[k].userId == userId && a.users[userId].role == Some("seller") && Truthy(name)
        then a.profiles[k].(companyName := Trim(name.value)) else a.profiles[k]
  {
    if userId !in a.users then (404, a)
    else
      var u := a.users[userId];
      var u' := WithContactDetails(u, name, contactNumber);
      if !ValidUser(u') then (400, a)
      else (200, ContactDetailsSaved(a, userId, name, contactNumber))
  }

  /** The saved user and, for a seller who gave a name, the company name copied to their profile. */
  function ContactDetailsSaved(a: Accounts, userId: Id, name: Option<string>, contactNumber: Option<string>): (b: Accounts)
    requires Valid(a) && userId in a.users
    ensures Valid(b)
    ensures b.users == a.users[userId := WithContactDetails(a.users[userId], name, contactNumber)]
    ensures b.profiles.Keys == a.profiles.Keys && forall k :: k in a.profiles ==>
      b.profiles[k] == if a.profiles[k].userId == userId && a.users[userId].role == Some("seller") && Truthy(name)
        then a.profiles[k].(companyName := Trim(name.value)) else a.profiles[k]
  {
    var profiles :=
      if a.users[userId].role == Some("seller") && Truthy(name) then WithCompanyName(a.profiles, userId, Trim(name.value))
      else a.profiles;
    Accounts(a.users[userId := WithContactDetails(a.users[userId], name, contactNumber)], profiles)
  }

  method UpdateUserContactDetails(db: AccountDb, userId: Id, name: Option<string>, contactNumber: Option<string>) returns (code: int)
    requires Valid(db.State())
    modifies db
    ensures (code, db.State()) == UpdateContactDetailsResult(old(db.State()), userId, name, contactNumber)
  {
    if userId !in db.users {
      return 404;
    }
    var user := db.users[userId];
    if Truthy(name) {
      user := user.(name := Trimmed(name));
    }
    if Truthy(contactNumber) {
      user := user.(contactNumber := Trimmed(contactNumber));
    }
    if !ValidUser(user) {
      return 400;
    }
    db.users := db.users[userId := user];
    if user.role == Some("seller") && Truthy(name) {
      db.profiles := WithCompanyName(db.profiles, userId, Trim(name.value));
    }
    return 200;
  }

  /** A contact number accepted by the update is stored as exactly ten digits. */
  lemma UpdatedContactNumberIsTenDigits(a: Accounts, userId: Id, name: Option<string>, contactNumber: Option<string>)
    requires Valid(a)
    requires UpdateContactDetailsResult(a, userId, name, contactNumber).0 == 200
    ensures var c := UpdateContactDetailsResult(a, userId, name, contactNumber).1.users[userId].contactNumber;
      c.Some? && |c.value| == 10 && forall i :: 0 <= i < 10 ==> IsDigit(c.value[i])
  {
    ContactNumberShape(UpdateContactDetailsResult(a, userId, name, contactNumber).1.users[userId].contactNumber.value);
  }
}
