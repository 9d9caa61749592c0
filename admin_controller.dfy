/**
 * The monolith's admin handlers: the sanitised user listing, product
 * moderation, GST verification, suspending and reactivating users, and
 * deleting a user with their seller profile. The caller has already passed
 * the admin check of the route; the forced logout of a suspended user over
 * its socket is left out.
 */
module AdminController {
  import opened Common
  import opened LegacyStore
  import opened UserModel
  import opened SellerProfileModel
  import opened AccountStore
  import opened ProductController

  /** One entry of `getAllUsers`. */
  datatype UserRow = UserRow(id: Id, name: string, email: string, role: string, status: string, onboardingComplete: bool)

  /** `x || fallback` for an optional string. */
  function OrElse(v: Option<string>, fallback: string): (r: string)
    ensures Truthy(v) ==> r == v.value
    ensures !Truthy(v) ==> r == fallback
  {
    if Truthy(v) then v.value else fallback
  }

  /** The sanitised view of a stored user: missing values get placeholders and defaults. */
  function Sanitise(id: Id, u: User): (row: UserRow)
    ensures row.id == id
    ensures row.name != "" && row.email != "" && row.role != "" && row.status != ""
    ensures row.onboardingComplete <==> u.onboardingComplete == Some(true)
  {
    UserRow(id, OrElse(u.name, "N/A"), OrElse(u.email, "N/A"), OrElse(u.role, "buyer"),
      OrElse(u.status, "active"), u.onboardingComplete == Some(true))
  }

  /** A user that passes the schema is listed with its stored values, its status defaulting to active. */
  lemma ValidUserShownAsStored(id: Id, u: User)
    requires ValidUser(u)
    ensures var row := Sanitise(id, u);
      && row.name == u.name.value && row.email == u.email.value && row.role == u.role.value
      && row.role in Roles && row.status in Statuses
      && row.status == u.status.GetOr("active")
  {
    assert "" !in Statuses;
  }

  /**
   * `getAllUsers`: every user, sanitised. Only the set of rows is modelled;
   * the listing's order is the collection's natural order.
   */
  function GetAllUsers(users: map<Id, User>): (rows: map<Id, UserRow>)
    ensures rows.Keys == users.Keys
    ensures forall id :: id in rows ==> rows[id].id == id && rows[id] == Sanitise(id, users[id])
  {
    map id | id in users :: Sanitise(id, users[id])
  }

  const ProductStatuses: set<string> := {"draft", "published"}

  /**
   * `updateProductStatus`: 400 for a status other than draft or published,
   * before the lookup; 404 for an unknown product; otherwise only that
   * product's status changes.
   */
  function UpdateProductStatusResult(products: seq<Product>, productId: Id, status: Option<string>): (o: (int, seq<Product>))
    ensures o.0 in {200, 400, 404}
    ensures o.0 == 400 <==> !(status.Some? && status.value in ProductStatuses)
    ensures o.0 == 404 <==> status.Some? && status.value in ProductStatuses && FindProduct(products, productId).None?
    ensures o.0 != 200 ==> o.1 == products
    ensures o.0 == 200 ==>
      var i := FindProduct(products, productId).value;
      o.1 == products[i := products[i].(status := status.value)]
  {
    if !(status.Some? && status.value in ProductStatuses) then (400, products)
    else match FindProduct(products, productId)
      case None => (404, products)
      case Some(i) => (200, products[i := products[i].(status := status.value)])
  }

  method UpdateProductStatus(db: MongoDb, productId: Id, status: Option<string>) returns (code: int)
    modifies db`products
    ensures (code, db.products) == UpdateProductStatusResult(old(db.products), productId, status)
  {
    if !(status.Some? && status.value in ProductStatuses) {
      return 400;
    }
    var at := FindProduct(db.products, productId);
    if at.None? {
      return 404;
    }
    var product := db.products[at.value];
    db.products := db.products[at.value := product.(status := status.value)];
    return 200;
  }

  /** Once an admin publishes a product, the public lookup finds it; once set back to draft, it does not. */
  lemma {:induction false} ModerationDecidesVisibility(d: Docs, users: map<Id, User>, profiles: map<Id, SellerProfile>,
                                                      productId: Id, status: string)
    requires OnePerUser(profiles)
    requires UpdateProductStatusResult(d.products, productId, Some(status)).0 == 200
    ensures var d' := d.(products := UpdateProductStatusResult(d.products, productId, Some(status)).1);
      GetPublicProductById(d', users, profiles, productId).code == 200 <==> status == "published"
  {
    var i := FindProduct(d.products, productId).value;
    var ps := UpdateProductStatusResult(d.products, productId, Some(status)).1;
    FirstStaysFirst(d.products, ps, (p: Product) => p.id == productId, i);
  }

  /** The JSON value of `gstVerified` in the body: a boolean, or a string or number, given by its text. */
  datatype FlagValue = FlagBool(b: bool) | FlagText(text: string)

  /** Mongoose's Boolean cast: true, 'true', 1, '1', 'yes' and false, 'false', 0, '0', 'no'; any other value fails. */
  function CastBoolean(v: FlagValue): (r: Option<bool>)
    ensures v.FlagBool? ==> r == Some(v.b)
    ensures r.Some? <==> v.FlagBool? || v.text in {"true", "1", "yes", "false", "0", "no"}
  {
    match v
    case FlagBool(b) => Some(b)
    case FlagText(t) =>
      if t in {"true", "1", "yes"} then Some(true)
      else if t in {"false", "0", "no"} then Some(false)
      else None
  }

  /**
   * `verifyGst`: 404 for an unknown profile. The profile is saved whole, so a
   * value the Boolean cast refuses, or a stored profile that fails the
   * schema, is a 500 with nothing changed. Otherwise the flag is set to the
   * given value; an absent or null value reads back as not verified.
   */
  function VerifyGstResult(a: Accounts, profileId: Id, gstVerified: Option<FlagValue>): (o: (int, Accounts))
    requires AccountStore.Valid(a)
    ensures o.0 in {200, 404, 500}
    ensures o.0 == 404 <==> profileId !in a.profiles
    ensures o.0 == 500 <==>
      profileId in a.profiles
      && ((gstVerified.Some? && CastBoolean(gstVerified.value).None?) || !SavedProfileValid(a.profiles[profileId]))
    ensures o.0 != 200 ==> o.1 == a
    ensures o.0 == 200 ==> o.1 == a.(profiles := a.profiles[profileId := a.profiles[profileId].(
      gstVerified := gstVerified.Some? && CastBoolean(gstVerified.value) == Some(true))])
    ensures AccountStore.Valid(o.1)
  {
    if profileId !in a.profiles then (404, a)
    else
      var p := a.profiles[profileId];
      if gstVerified.Some? && CastBoolean(gstVerified.value).None? then (500, a)
      else if !SavedProfileValid(p) then (500, a)
      else (200, a.(profiles := a.profiles[profileId := p.(gstVerified := gstVerified.Some? && CastBoolean(gstVerified.value) == Some(true))]))
  }

  method VerifyGst(db: AccountDb, profileId: Id, gstVerified: Option<FlagValue>) returns (code: int)
    requires AccountStore.Valid(db.State())
    modifies db`profiles
    ensures (code, db.State()) == VerifyGstResult(old(db.State()), profileId, gstVerified)
  {
    if profileId !in db.profiles {
      return 404;
    }
    var profile := db.profiles[profileId];
    var cast := if gstVerified.Some? then CastBoolean(gstVerified.value) else Some(false);
    if cast.None? {
      // the cast error is reported by `save` as a validation error
      return 500;
    }
    if !SavedProfileValid(profile) {
      return 500;
    }
    db.profiles := db.profiles[profileId := profile.(gstVerified := cast.value)];
    return 200;
  }

  /**
   * After the GST check, the seller's products show the flag the admin set,
   * wherever the seller's profile gives them a location.
   */
  lemma {:induction false} VerifiedFlagShownOnProducts(a: Accounts, profileId: Id, v: bool, p: Product)
    requires AccountStore.Valid(a) && profileId in a.profiles
    requires p.sellerId == a.profiles[profileId].userId && p.sellerId in a.users
    requires a.profiles[profileId].city != "" && SavedProfileValid(a.profiles[profileId])
    ensures var a' := VerifyGstResult(a, profileId, Some(FlagBool(v))).1;
      Format(p, a'.users, a'.profiles).verified == Some(v)
  {
    var a' := VerifyGstResult(a, profileId, Some(FlagBool(v))).1;
    assert profileId in a'.profiles && a'.profiles[profileId].userId == p.sellerId;
    var r := ProfileOf(a'.profiles, p.sellerId);
    var k :| k in a'.profiles && a'.profiles[k] == r.value && r.value.userId == p.sellerId;
    assert a'.profiles[k].userId == a'.profiles[profileId].userId;
    assert k == profileId;
  }

  /** The status a toggle stores: active becomes suspended, anything else becomes active. */
  function Toggled(status: Option<string>): (r: string)
    ensures r in Statuses
    ensures r == "suspended" <==> status == Some("active")
  {
    if status == Some("active") then "suspended" else "active"
  }

  /**
   * The status a loaded user document holds: `findById` hydrates the schema
   * default, so a user stored without a status is loaded as active.
   */
  function LoadedStatus(u: User): (s: string)
    ensures u.status.Some? ==> s == u.status.value
    ensures u.status.None? ==> s == "active"
  {
    u.status.GetOr("active")
  }

  /**
   * `toggleUserStatus`: 404 for an unknown user. The loaded status, with the
   * schema default applied, is toggled, and the user is saved whole, so a
   * stored user that fails the schema is a 500 with nothing changed.
   */
  function ToggleUserStatusResult(a: Accounts, userId: Id): (o: (int, Accounts))
    ensures o.0 in {200, 404, 500}
    ensures o.0 == 404 <==> userId !in a.users
    ensures o.0 != 200 ==> o.1 == a
    ensures o.0 == 500 <==> userId in a.users && !ValidUser(a.users[userId].(status := Some(Toggled(Some(LoadedStatus(a.users[userId]))))))
    ensures o.0 == 200 ==>
      && o.1.profiles == a.profiles && o.1.users.Keys == a.users.Keys
      && (forall id :: id in a.users && id != userId ==> o.1.users[id] == a.users[id])
      && o.1.users[userId] == a.users[userId].(status := Some(Toggled(Some(LoadedStatus(a.users[userId])))))
      && (o.1.users[userId].status == Some("suspended") <==> LoadedStatus(a.users[userId]) == "active")
      && ValidUser(o.1.users[userId])
  {
    if userId !in a.users then (404, a)
    else
      var u := a.users[userId];
      var u' := u.(status := Some(Toggled(Some(LoadedStatus(u)))));
      if !ValidUser(u') then (500, a)
      else (200, a.(users := a.users[userId := u']))
  }

  method ToggleUserStatus(db: AccountDb, userId: Id) returns (code: int)
    modifies db`users
    ensures (code, db.State()) == ToggleUserStatusResult(old(db.State()), userId)
  {
    if userId !in db.users {
      return 404;
    }
    var user := db.users[userId];
    // the document findById returns carries the schema default
    var loaded := if user.status.Some? then user.status.value else "active";
    user := user.(status := Some(if loaded == "active" then "suspended" else "active"));
    if !ValidUser(user) {
      return 500;
    }
    db.users := db.users[userId := user];
    return 200;
  }

  /**
   * A valid user's toggle flips the status the listing shows, a user stored
   * without a status included, since both the listing and the load read the
   * missing status as active. A second toggle restores the accounts exactly
   * when the status was stored, and otherwise leaves the status stored as
   * active.
   */
  lemma {:induction false} ToggleFlipsShownStatus(a: Accounts, userId: Id)
    requires userId in a.users && ValidUser(a.users[userId])
    ensures var o := ToggleUserStatusResult(a, userId);
      && o.0 == 200
      && (Sanitise(userId, o.1.users[userId]).status == "suspended" <==> Sanitise(userId, a.users[userId]).status == "active")
      && (a.users[userId].status.None? ==> o.1.users[userId].status == Some("suspended"))
      && (a.users[userId].status.Some? ==> ToggleUserStatusResult(o.1, userId) == (200, a))
      && (a.users[userId].status.None? ==>
            ToggleUserStatusResult(o.1, userId) == (200, a.(users := a.users[userId := a.users[userId].(status := Some("active"))])))
  {
    var u := a.users[userId];
    var o := ToggleUserStatusResult(a, userId);
    assert ValidUser(u.(status := Some(Toggled(Some(LoadedStatus(u))))));
    assert "" !in Statuses;
    var o2 := ToggleUserStatusResult(o.1, userId);
    var u2 := o.1.users[userId].(status := Some(Toggled(Some(LoadedStatus(o.1.users[userId])))));
    if u.status.Some? {
      assert u.status.value in Statuses;
      assert u2 == u;
      assert o.1.users[userId := u2] == a.users;
      assert o2 == (200, Accounts(a.users, a.profiles));
    } else {
      assert u2 == u.(status := Some("active"));
      assert ValidUser(u2);
      assert o.1.users[userId := u2] == a.users[userId := u2];
    }
  }

  /**
   * `deleteUser`: 404 for an unknown user; otherwise the user is removed, and
   * their seller profile too when their role is seller. A user of another
   * role keeps any profile they own.
   */
  function DeleteUserResult(a: Accounts, userId: Id): (o: (int, Accounts))
    requires AccountStore.Valid(a)
    ensures o.0 == 200 || o.0 == 404
    ensures o.0 == 404 <==> userId !in a.users
    ensures o.0 == 404 ==> o.1 == a
    ensures o.0 == 200 ==> o.1.users == a.users - {userId}
    ensures o.0 == 200 && a.users[userId].role == Some("seller") ==>
      forall k :: k in o.1.profiles <==> k in a.profiles && a.profiles[k].userId != userId
    ensures o.0 == 200 && a.users[userId].role != Some("seller") ==> o.1.profiles == a.profiles
    ensures forall k :: k in o.1.profiles ==> k in a.profiles && o.1.profiles[k] == a.profiles[k]
    ensures AccountStore.Valid(o.1)
  {
    if userId !in a.users then (404, a)
    else
      var profiles := if a.users[userId].role == Some("seller") then WithoutProfileOf(a.profiles, userId) else a.profiles;
      (200, Accounts(a.users - {userId}, profiles))
  }

  method DeleteUser(db: AccountDb, userId: Id) returns (code: int)
    requires AccountStore.Valid(db.State())
    modifies db
    ensures (code, db.State()) == DeleteUserResult(old(db.State()), userId)
  {
    if userId !in db.users {
      return 404;
    }
    if db.users[userId].role == Some("seller") {
      db.profiles := WithoutProfileOf(db.profiles, userId);
    }
    db.users := db.users - {userId};
    return 200;
  }

  /** After a seller is deleted, their products list no seller and no location. */
  lemma {:induction false} DeletedSellerProductsUnlocated(a: Accounts, userId: Id, p: Product)
    requires AccountStore.Valid(a) && userId in a.users && p.sellerId == userId
    ensures var a' := DeleteUserResult(a, userId).1;
      var f := Format(p, a'.users, a'.profiles);
      f.sellerId.None? && f.location == NoLocation && f.verified.None?
  {
  }
}
