/**
 * The monolith's product handlers: finding or creating a category under its
 * standardised name, formatting products with their seller's location, the
 * public product lookup, and the owner-only update and delete.
 *
 * The caller id comes from the verified token. Uploads reach the handlers as
 * an opaque image reference; removing the old upload from file storage is
 * left out.
 */
module ProductController {
  import opened Common
  import opened Text
  import opened CategoryNames
  import opened LegacyStore
  import opened UserModel
  import opened SellerProfileModel

  /** The `categories` collection: category names in natural order. */
  class CategoryDb {
    var names: seq<string>

    constructor ()
      ensures names == []
    {
      names := [];
    }
  }

  /** No two categories are equal ignoring case. */
  predicate DistinctIgnoringCase(names: seq<string>) {
    forall i, j :: 0 <= i < j < |names| ==> !EqualsIgnoreCase(names[i], names[j])
  }

  /** The first category equal to name ignoring case (the anchored, case-insensitive `$regex`). */
  function FindCategory(names: seq<string>, name: string): (r: Option<nat>)
    ensures r.Some? ==> r.value < |names| && EqualsIgnoreCase(names[r.value], name)
    ensures r.None? <==> forall i :: 0 <= i < |names| ==> !EqualsIgnoreCase(names[i], name)
  {
    FirstWhere(names, (n: string) => EqualsIgnoreCase(n, name))
  }

  /** The name returned and the categories afterwards. */
  datatype CategoryOutcome = CategoryOutcome(name: Option<string>, names: seq<string>)

  /**
   * `findOrCreateCategory`: null for a missing or empty name; otherwise the
   * stored name of a category equal to the standardised name ignoring case,
   * or else the standardised name, which is stored. When the database fails
   * (dbOk false) the standardised name is returned and nothing is stored.
   */
  function FindOrCreateCategoryResult(names: seq<string>, name: Option<string>, dbOk: bool): (o: CategoryOutcome)
    ensures o.name.None? <==> !Truthy(name)
    ensures o.name.Some? ==> EqualsIgnoreCase(o.name.value, Standardise(name.value))
    ensures o.names == names || (
      && Truthy(name) && dbOk
      && o.names == names + [Standardise(name.value)]
      && o.name == Some(Standardise(name.value))
      && forall i :: 0 <= i < |names| ==> !EqualsIgnoreCase(names[i], Standardise(name.value)))
    ensures Truthy(name) && dbOk ==> o.name.value in o.names
  {
    if !Truthy(name) then CategoryOutcome(None, names)
    else
      var standardized := Standardise(name.value);
      if !dbOk then CategoryOutcome(Some(standardized), names)
      else match FindCategory(names, standardized)
        case Some(i) => CategoryOutcome(Some(names[i]), names)
        case None => CategoryOutcome(Some(standardized), names + [standardized])
  }

  method FindOrCreateCategory(db: CategoryDb, name: Option<string>, dbOk: bool) returns (r: Option<string>)
    modifies db
    ensures CategoryOutcome(r, db.names) == FindOrCreateCategoryResult(old(db.names), name, dbOk)
  {
    if !Truthy(name) {
      return None;
    }
    var standardized := Standardise(name.value);
    if !dbOk {
      return Some(standardized);
    }
    var existing := FindCategory(db.names, standardized);
    if existing.Some? {
      return Some(db.names[existing.value]);
    }
    db.names := db.names + [standardized];
    return Some(standardized);
  }

  /** Categories never gain a second name that differs only in case. */
  lemma FindOrCreateKeepsDistinct(names: seq<string>, name: Option<string>, dbOk: bool)
    requires DistinctIgnoringCase(names)
    ensures DistinctIgnoringCase(FindOrCreateCategoryResult(names, name, dbOk).names)
  {
  }

  /**
   * Names that standardise alike, ignoring case, share one category: after
   * the first call stores or finds it, a second call returns the same name
   * and stores nothing.
   */
  lemma {:induction false} SameCategoryTwice(names: seq<string>, a: string, b: string)
    requires a != [] && b != []
    requires EqualsIgnoreCase(Standardise(a), Standardise(b))
    ensures var first := FindOrCreateCategoryResult(names, Some(a), true);
      var second := FindOrCreateCategoryResult(first.names, Some(b), true);
      second.names == first.names && second.name == first.name
  {
    var first := FindOrCreateCategoryResult(names, Some(a), true);
    var sa, sb := Standardise(a), Standardise(b);
    match FindCategory(names, sa)
    case Some(i) =>
      assert EqualsIgnoreCase(names[i], sb);
      var j := FindCategory(names, sb).value;
      assert j == i by {
        assert EqualsIgnoreCase(names[j], sa);
      }
    case None =>
      assert first.names[|names|] == sa;
      var j := FindCategory(first.names, sb).value;
      assert forall k :: 0 <= k < |names| ==> first.names[k] == names[k];
      assert j == |names|;
  }

  /** A formatted product: the product, its flattened seller id, its location and the seller's GST flag. */
  datatype Formatted = Formatted(product: Product, sellerId: Option<Id>, location: string, verified: Option<bool>)

  const NoLocation: string := "Location not available"

  /** `SellerProfile.findOne({ userId })`, which the unique index makes unambiguous. */
  function ProfileOf(profiles: map<Id, SellerProfile>, userId: Id): (r: Option<SellerProfile>)
    requires OnePerUser(profiles)
    ensures r.Some? ==> exists k :: k in profiles && profiles[k] == r.value && r.value.userId == userId
    ensures r.None? <==> forall k :: k in profiles ==> profiles[k].userId != userId
  {
    if exists k :: k in profiles && profiles[k].userId == userId then
      var k :| k in profiles && profiles[k].userId == userId;
      Some(profiles[k])
    else None
  }

  /**
   * One product of `populateAndFormatProducts`. The seller reference
   * populates to null when the user is gone; then the location is not
   * available and the seller id stays null. Otherwise the seller id is
   * flattened, and a seller profile with a city gives the location
   * "<city>, <state>" and the GST flag.
   */
  function Format(p: Product, users: map<Id, User>, profiles: map<Id, SellerProfile>): (f: Formatted)
    requires OnePerUser(profiles)
    ensures f.product == p
    ensures f.sellerId == if p.sellerId in users then Some(p.sellerId) else None
    ensures f.verified.Some? <==> f.location != NoLocation
    ensures f.location != NoLocation <==>
      p.sellerId in users && ProfileOf(profiles, p.sellerId).Some? && ProfileOf(profiles, p.sellerId).value.city != ""
    ensures f.location != NoLocation ==>
      var profile := ProfileOf(profiles, p.sellerId).value;
      f.location == profile.city + ", " + profile.state && f.verified == Some(profile.gstVerified)
  {
    if p.sellerId !in users then Formatted(p, None, NoLocation, None)
    else match ProfileOf(profiles, p.sellerId)
      case Some(profile) =>
        if profile.city != "" then
          var location := profile.city + ", " + profile.state;
          assert location[|profile.city|] == ',';
          assert location != NoLocation by {
            assert ',' !in NoLocation;
          }
          Formatted(p, Some(p.sellerId), location, Some(profile.gstVerified))
        else Formatted(p, Some(p.sellerId), NoLocation, None)
      case None => Formatted(p, Some(p.sellerId), NoLocation, None)
  }

  /** The argument of `populateAndFormatProducts`: one product or a list. */
  datatype Products = One(product: Product) | Many(products: seq<Product>)

  function AsList(arg: Products): (ps: seq<Product>)
    ensures arg.One? ==> ps == [arg.product]
    ensures arg.Many? ==> ps == arg.products
  {
    match arg
    case One(p) => [p]
    case Many(ps) => ps
  }

  /** `populateAndFormatProducts`: a single product is wrapped into a list; one formatted product per product, in order. */
  function PopulateAndFormat(arg: Products, users: map<Id, User>, profiles: map<Id, SellerProfile>): (r: seq<Formatted>)
    requires OnePerUser(profiles)
    ensures |r| == |AsList(arg)|
    ensures forall i :: 0 <= i < |r| ==> r[i].product == AsList(arg)[i]
    ensures forall i :: 0 <= i < |r| ==> r[i] == Format(AsList(arg)[i], users, profiles)
  {
    var ps := AsList(arg);
    seq(|ps|, i requires 0 <= i < |ps| => Format(ps[i], users, profiles))
  }

  /** The first product with that `_id`: `findById`. */
  function FindProduct(ps: seq<Product>, productId: Id): (r: Option<nat>)
    ensures r.Some? ==> r.value < |ps| && ps[r.value].id == productId
    ensures r.None? <==> forall i :: 0 <= i < |ps| ==> ps[i].id != productId
  {
    FirstWhere(ps, (p: Product) => p.id == productId)
  }

  /** A read of one product: 200 with the formatted product, or an error code. */
  datatype ProductView = ProductView(code: int, product: Option<Formatted>)

  /** `getPublicProductById`: 404 unless the product exists and is published. */
  function GetPublicProductById(d: Docs, users: map<Id, User>, profiles: map<Id, SellerProfile>, productId: Id): (v: ProductView)
    requires OnePerUser(profiles)
    ensures v.code == 200 || v.code == 404
    ensures v.code == 200 <==> FindProduct(d.products, productId).Some? && d.products[FindProduct(d.products, productId).value].status == "published"
    ensures v.code == 200 ==> v.product == Some(Format(d.products[FindProduct(d.products, productId).value], users, profiles))
    ensures v.code == 404 ==> v.product.None?
  {
    match FindProduct(d.products, productId)
    case None => ProductView(404, None)
    case Some(i) =>
      if d.products[i].status != "published" then ProductView(404, None)
      else ProductView(200, Some(PopulateAndFormat(One(d.products[i]), users, profiles)[0]))
  }

  /**
   * The request body of `updateProduct`, one optional value per product path
   * it may set. The update does not run the schema validators, so any value
   * is written as given.
   */
  datatype ProductPatch = ProductPatch(
    name: Option<string>,
    description: Option<string>,
    category: Option<string>,
    brand: Option<string>,
    sellerId: Option<Id>,
    status: Option<string>,
    stockQuantity: Option<int>,
    isLeadPlaceholder: Option<bool>,
    image: Option<string>)

  /** `findByIdAndUpdate` with a patch: the given paths change, the others stay. */
  function Patched(p: Product, patch: ProductPatch): (q: Product)
    ensures q.id == p.id
    ensures q.name == patch.name.GetOr(p.name) && q.description == patch.description.GetOr(p.description)
    ensures q.category == patch.category.GetOr(p.category) && q.brand == patch.brand.GetOr(p.brand)
    ensures q.sellerId == patch.sellerId.GetOr(p.sellerId) && q.status == patch.status.GetOr(p.status)
    ensures q.stockQuantity == patch.stockQuantity.GetOr(p.stockQuantity)
    ensures q.isLeadPlaceholder == patch.isLeadPlaceholder.GetOr(p.isLeadPlaceholder)
    ensures q.image == if patch.image.Some? then patch.image else p.image
  {
    Product(p.id, patch.name.GetOr(p.name), patch.description.GetOr(p.description),
      patch.category.GetOr(p.category), patch.brand.GetOr(p.brand), patch.sellerId.GetOr(p.sellerId),
      patch.status.GetOr(p.status), patch.stockQuantity.GetOr(p.stockQuantity),
      patch.isLeadPlaceholder.GetOr(p.isLeadPlaceholder), if patch.image.Some? then patch.image else p.image)
  }

  /** The response code, the products and categories afterwards. */
  datatype UpdateOutcome = UpdateOutcome(code: int, products: seq<Product>, names: seq<string>)

  /**
   * `updateProduct`: 404 for an unknown product and 403 for a caller who is
   * not its seller, with nothing changed. Otherwise a truthy category is
   * replaced by the found or created category; an image in the body is
   * dropped unless a file was uploaded, whose reference replaces it.
   */
  function UpdateProductResult(products: seq<Product>, names: seq<string>, productId: Id, callerId: Id,
                               patch: ProductPatch, upload: Option<string>, dbOk: bool): (o: UpdateOutcome)
    ensures o.code in {200, 403, 404}
    ensures o.code == 404 <==> FindProduct(products, productId).None?
    ensures o.code == 403 <==> FindProduct(products, productId).Some? && products[FindProduct(products, productId).value].sellerId != callerId
    ensures o.code != 200 ==> o.products == products && o.names == names
    ensures o.code == 200 ==>
      var i := FindProduct(products, productId).value;
      && |o.products| == |products|
      && (forall j :: 0 <= j < |products| && j != i ==> o.products[j] == products[j])
      && o.products[i].id == productId
      && o.products[i].image == (if upload.Some? then upload else products[i].image)
      && o.products[i].name == patch.name.GetOr(products[i].name)
      && o.products[i].description == patch.description.GetOr(products[i].description)
      && o.products[i].brand == patch.brand.GetOr(products[i].brand)
      && o.products[i].sellerId == patch.sellerId.GetOr(products[i].sellerId)
      && o.products[i].status == patch.status.GetOr(products[i].status)
      && o.products[i].stockQuantity == patch.stockQuantity.GetOr(products[i].stockQuantity)
      && o.products[i].isLeadPlaceholder == patch.isLeadPlaceholder.GetOr(products[i].isLeadPlaceholder)
      && (Truthy(patch.category) ==> EqualsIgnoreCase(o.products[i].category, Standardise(patch.category.value)))
      && (Truthy(patch.category) ==>
            && o.products[i].category == FindOrCreateCategoryResult(names, patch.category, dbOk).name.value
            && o.names == FindOrCreateCategoryResult(names, patch.category, dbOk).names)
      && (!Truthy(patch.category) ==> o.products[i].category == patch.category.GetOr(products[i].category))
      && (!Truthy(patch.category) ==> o.names == names)
  {
    match FindProduct(products, productId)
    case None => UpdateOutcome(404, products, names)
    case Some(i) =>
      if products[i].sellerId != callerId then UpdateOutcome(403, products, names)
      else
        var cat := if Truthy(patch.category) then FindOrCreateCategoryResult(names, patch.category, dbOk)
                   else CategoryOutcome(patch.category, names);
        var patch' := patch.(category := cat.name, image := upload);
        UpdateOutcome(200, products[i := Patched(products[i], patch')], cat.names)
  }

  method UpdateProduct(db: MongoDb, categories: CategoryDb, productId: Id, callerId: Id,
                       patch: ProductPatch, upload: Option<string>, dbOk: bool) returns (code: int)
    modifies db`products, categories
    ensures UpdateOutcome(code, db.products, categories.names)
         == UpdateProductResult(old(db.products), old(categories.names), productId, callerId, patch, upload, dbOk)
  {
    var at := FindProduct(db.products, productId);
    if at.None? {
      return 404;
    }
    var product := db.products[at.value];
    if product.sellerId != callerId {
      return 403;
    }
    var updatedData := patch;
    if Truthy(patch.category) {
      var category := FindOrCreateCategory(categories, patch.category, dbOk);
      updatedData := updatedData.(category := category);
    }
    if upload.Some? {
      updatedData := updatedData.(image := upload);
    } else {
      updatedData := updatedData.(image := None);
    }
    db.products := db.products[at.value := Patched(product, updatedData)];
    return 200;
  }

  /** Updates keep product `_id`s unique, so the placeholder and conversation lookups stay sound. */
  lemma UpdateKeepsDistinctIds(products: seq<Product>, names: seq<string>, productId: Id, callerId: Id,
                               patch: ProductPatch, upload: Option<string>, dbOk: bool)
    requires DistinctProductIds(products)
    ensures DistinctProductIds(UpdateProductResult(products, names, productId, callerId, patch, upload, dbOk).products)
  {
    var o := UpdateProductResult(products, names, productId, callerId, patch, upload, dbOk);
    if o.code == 200 {
      var i := FindProduct(products, productId).value;
      assert forall j :: 0 <= j < |products| ==> o.products[j].id == products[j].id;
    }
  }

  /** The products without the one at i, in order. */
  function Without(ps: seq<Product>, i: nat): (r: seq<Product>)
    requires i < |ps|
    ensures |r| == |ps| - 1
    ensures forall j :: 0 <= j < |r| ==> r[j] == if j < i then ps[j] else ps[j + 1]
  {
    ps[..i] + ps[i + 1..]
  }

  /** Removing the product at i removes exactly the products with its id, and keeps the ids distinct. */
  lemma WithoutKeepsOthers(ps: seq<Product>, i: nat)
    requires DistinctProductIds(ps) && i < |ps|
    ensures DistinctProductIds(Without(ps, i))
    ensures forall j :: 0 <= j < |Without(ps, i)| ==> Without(ps, i)[j].id != ps[i].id
    ensures forall q :: q in ps && q.id != ps[i].id <==> q in Without(ps, i)
  {
    var r := Without(ps, i);
    forall q | q in ps && q.id != ps[i].id
      ensures q in r
    {
      var j :| 0 <= j < |ps| && ps[j] == q;
      if j < i {
        assert r[j] == q;
      } else {
        assert r[j - 1] == q;
      }
    }
  }

  /**
   * `deleteProduct`: 404 for an unknown product, 403 for a caller who is not
   * its seller; otherwise that product is removed and the others keep their order.
   */
  function DeleteProductResult(products: seq<Product>, productId: Id, callerId: Id): (o: (int, seq<Product>))
    requires DistinctProductIds(products)
    ensures o.0 in {200, 403, 404}
    ensures o.0 == 404 <==> FindProduct(products, productId).None?
    ensures o.0 == 403 <==> FindProduct(products, productId).Some? && products[FindProduct(products, productId).value].sellerId != callerId
    ensures o.0 != 200 ==> o.1 == products
    ensures o.0 == 200 ==> FindProduct(o.1, productId).None? && DistinctProductIds(o.1)
    ensures o.0 == 200 ==> forall q :: q in products && q.id != productId <==> q in o.1
  {
    match FindProduct(products, productId)
    case None => (404, products)
    case Some(i) =>
      if products[i].sellerId != callerId then (403, products)
      else
        var r := Without(products, i);
        WithoutKeepsOthers(products, i);
        (200, r)
  }

  method DeleteProduct(db: MongoDb, productId: Id, callerId: Id) returns (code: int)
    requires DistinctProductIds(db.products)
    modifies db`products
    ensures (code, db.products) == DeleteProductResult(old(db.products), productId, callerId)
  {
    var at := FindProduct(db.products, productId);
    if at.None? {
      return 404;
    }
    if db.products[at.value].sellerId != callerId {
      return 403;
    }
    db.products := db.products[..at.value] + db.products[at.value + 1..];
    return 200;
  }
}
