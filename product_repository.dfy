/**
 * The product service's `products` table and its repository: the public and
 * seller finders, insert with defaults, the partial update, delete, and the
 * counting queries behind the statistics endpoints.
 *
 * `price` is kept as opaque text; `image` is the list of upload URLs that the
 * repository stores as JSON.
 */
module ProductRepository {
  import opened Common
  import opened Tables

  /** A row of `products`. */
  datatype ProductRow = ProductRow(
    sellerId: Option<Id>,
    name: Option<string>,
    description: Option<string>,
    brand: Option<string>,
    price: Option<string>,
    unit: Option<string>,
    status: string,
    isPublic: bool,
    stockQuantity: int,
    mainCategoryId: Option<Id>,
    subCategory: Option<string>,
    image: seq<string>)

  /** The live table. */
  class ProductDb {
    var products: map<Id, ProductRow>

    constructor ()
      ensures products == map[]
    {
      products := map[];
    }
  }

  function IsPublished(r: ProductRow): bool {
    r.status == "published"
  }

  /** `findPublicProducts`: the published rows. */
  function FindPublicProducts(products: map<Id, ProductRow>): (r: map<Id, ProductRow>)
    ensures forall k :: k in r <==> k in products && products[k].status == "published"
    ensures forall k :: k in r ==> r[k] == products[k]
  {
    Where(products, IsPublished)
  }

  /** `findPublicProductsByMainCategory`: the published rows of one main category. */
  function FindPublicProductsByMainCategory(products: map<Id, ProductRow>, mainCategoryId: Id): (r: map<Id, ProductRow>)
    ensures forall k :: k in r <==> k in products && products[k].status == "published" && products[k].mainCategoryId == Some(mainCategoryId)
    ensures forall k :: k in r ==> r[k] == products[k]
  {
    Where(products, (p: ProductRow) => p.status == "published" && p.mainCategoryId == Some(mainCategoryId))
  }

  /** `findPublicProductById`: the row, unless it is missing or not published. */
  function FindPublicProductById(products: map<Id, ProductRow>, productId: Id): (r: Option<ProductRow>)
    ensures r.Some? <==> productId in products && products[productId].status == "published"
    ensures r.Some? ==> r.value == products[productId]
  {
    if productId in products && products[productId].status == "published" then Some(products[productId]) else None
  }

  /** `findProductsBySellerId`: every row of one seller, whatever its status. */
  function FindProductsBySellerId(products: map<Id, ProductRow>, sellerId: Id): (r: map<Id, ProductRow>)
    ensures forall k :: k in r <==> k in products && products[k].sellerId == Some(sellerId)
    ensures forall k :: k in r ==> r[k] == products[k]
  {
    Where(products, (p: ProductRow) => p.sellerId == Some(sellerId))
  }

  /** The published rows are exactly the rows the public lookup by id returns. */
  lemma PublicFindersAgree(products: map<Id, ProductRow>, productId: Id)
    ensures FindPublicProductById(products, productId).Some? <==> productId in FindPublicProducts(products)
  {
  }

  /** What `create` is given; `businessCategory` is passed by the controller but not stored. */
  datatype CreatePayload = CreatePayload(
    id: Option<Id>,
    sellerId: Option<Id>,
    name: Option<string>,
    description: Option<string>,
    brand: Option<string>,
    price: Option<string>,
    unit: Option<string>,
    status: Option<string>,
    isPublic: Option<bool>,
    stockQuantity: Option<int>,
    businessCategory: Option<string>,
    mainCategoryId: Option<Id>,
    subCategory: Option<string>,
    image: Option<seq<string>>)

  /** The row `create` inserts: `??` defaults for status, visibility and stock, `|| []` for the image. */
  function NewRow(payload: CreatePayload): (r: ProductRow)
  {
    ProductRow(payload.sellerId, payload.name, payload.description, payload.brand, payload.price, payload.unit,
      payload.status.GetOr("published"), payload.isPublic.GetOr(true), payload.stockQuantity.GetOr(0),
      payload.mainCategoryId, payload.subCategory, payload.image.GetOr([]))
  }

  /** The key of the new row: the given id when truthy, else a freshly generated one. */
  function NewId(payload: CreatePayload, freshId: Id): (id: Id)
    ensures Truthy(payload.id) ==> id == payload.id.value
    ensures !Truthy(payload.id) ==> id == freshId
  {
    if Truthy(payload.id) then payload.id.value else freshId
  }

  /**
   * A payload without status, visibility, stock or image makes a published,
   * public row with no stock and no images, which the public finders return.
   */
  lemma CreateDefaults(products: map<Id, ProductRow>, id: Id, payload: CreatePayload)
    requires payload.status.None? && payload.isPublic.None? && payload.stockQuantity.None? && payload.image.None?
    ensures var r := NewRow(payload);
      r.status == "published" && r.isPublic && r.stockQuantity == 0 && r.image == []
    ensures FindPublicProductById(products[id := NewRow(payload)], id) == Some(NewRow(payload))
  {
  }

  /** The stored row ignores `businessCategory`: payloads that differ only there store the same row. */
  lemma BusinessCategoryNotStored(payload: CreatePayload, businessCategory: Option<string>)
    ensures NewRow(payload.(businessCategory := businessCategory)) == NewRow(payload)
  {
  }

  /**
   * `create`: inserts the row under its key and returns it; the insert fails
   * (None, nothing written) when the key is already taken.
   */
  method Create(db: ProductDb, payload: CreatePayload, freshId: Id) returns (row: Option<ProductRow>)
    modifies db
    ensures var id := NewId(payload, freshId);
      && (row.None? <==> id in old(db.products))
      && (row.None? ==> db.products == old(db.products))
      && (row.Some? ==> row.value == NewRow(payload) && db.products == old(db.products)[id := NewRow(payload)])
  {
    var id := if Truthy(payload.id) then payload.id.value else freshId;
    if id in db.products {
      return None;
    }
    var r := ProductRow(payload.sellerId, payload.name, payload.description, payload.brand, payload.price, payload.unit,
      payload.status.GetOr("published"), payload.isPublic.GetOr(true), payload.stockQuantity.GetOr(0),
      payload.mainCategoryId, payload.subCategory, payload.image.GetOr([]));
    db.products := db.products[id := r];
    return Some(r);
  }

  /** What `update` is given: None for an undefined field, which is left as it is. */
  datatype UpdatePayload = UpdatePayload(
    name: Option<string>,
    description: Option<string>,
    brand: Option<string>,
    price: Option<string>,
    unit: Option<string>,
    status: Option<string>,
    isPublic: Option<bool>,
    stockQuantity: Option<int>,
    mainCategoryId: Option<Id>,
    subCategory: Option<string>,
    image: Option<seq<string>>)

  const NoChanges := UpdatePayload(None, None, None, None, None, None, None, None, None, None, None)

  /** The column value after an update: the given value when defined, else the current one. */
  function Given<T>(v: Option<T>, current: Option<T>): (r: Option<T>)
    ensures v.Some? ==> r == v
    ensures v.None? ==> r == current
  {
    if v.Some? then v else current
  }

  /** The row after `update`: each defined field replaces its column, every other column stays. */
  function Updated(r: ProductRow, payload: UpdatePayload): (r': ProductRow)
  {
    ProductRow(r.sellerId, Given(payload.name, r.name), Given(payload.description, r.description),
      Given(payload.brand, r.brand), Given(payload.price, r.price), Given(payload.unit, r.unit),
      payload.status.GetOr(r.status), payload.isPublic.GetOr(r.isPublic), payload.stockQuantity.GetOr(r.stockQuantity),
      Given(payload.mainCategoryId, r.mainCategoryId), Given(payload.subCategory, r.subCategory),
      payload.image.GetOr(r.image))
  }

  /** `update` changes exactly the columns of the defined fields, to the given values; the seller stays. */
  lemma UpdatedColumns(r: ProductRow, payload: UpdatePayload)
    ensures Updated(r, payload).sellerId == r.sellerId
    ensures payload.name.None? ==> Updated(r, payload).name == r.name
    ensures payload.name.Some? ==> Updated(r, payload).name == payload.name
    ensures payload.description.None? ==> Updated(r, payload).description == r.description
    ensures payload.description.Some? ==> Updated(r, payload).description == payload.description
    ensures payload.brand.None? ==> Updated(r, payload).brand == r.brand
    ensures payload.brand.Some? ==> Updated(r, payload).brand == payload.brand
    ensures payload.price.None? ==> Updated(r, payload).price == r.price
    ensures payload.price.Some? ==> Updated(r, payload).price == payload.price
    ensures payload.unit.None? ==> Updated(r, payload).unit == r.unit
    ensures payload.unit.Some? ==> Updated(r, payload).unit == payload.unit
    ensures Updated(r, payload).status == payload.status.GetOr(r.status)
    ensures Updated(r, payload).isPublic == payload.isPublic.GetOr(r.isPublic)
    ensures Updated(r, payload).stockQuantity == payload.stockQuantity.GetOr(r.stockQuantity)
    ensures payload.mainCategoryId.None? ==> Updated(r, payload).mainCategoryId == r.mainCategoryId
    ensures payload.mainCategoryId.Some? ==> Updated(r, payload).mainCategoryId == payload.mainCategoryId
    ensures payload.subCategory.None? ==> Updated(r, payload).subCategory == r.subCategory
    ensures payload.subCategory.Some? ==> Updated(r, payload).subCategory == payload.subCategory
    ensures Updated(r, payload).image == payload.image.GetOr(r.image)
  {
  }

  /** Repeating an update changes nothing more. */
  lemma UpdateIsIdempotent(r: ProductRow, payload: UpdatePayload)
    ensures Updated(Updated(r, payload), payload) == Updated(r, payload)
  {
  }

  /** What `update` comes back with: the updated row, no row with that id, or knex's refusal of an empty update. */
  datatype UpdateReply = Changed(row: ProductRow) | NoSuchRow | EmptyUpdate

  /**
   * `update`: builds the column changes field by field and applies them to
   * the row with that id. With no field defined the column changes are `{}`,
   * and knex throws ("Empty .update() call detected!") before any query;
   * with no row of that id nothing is written.
   */
  method Update(db: ProductDb, productId: Id, payload: UpdatePayload) returns (reply: UpdateReply)
    modifies db
    ensures reply == EmptyUpdate <==> payload == NoChanges
    ensures reply == NoSuchRow <==> payload != NoChanges && productId !in old(db.products)
    ensures !reply.Changed? ==> db.products == old(db.products)
    ensures reply.Changed? ==>
      reply.row == Updated(old(db.products)[productId], payload) && db.products == old(db.products)[productId := reply.row]
  {
    if payload == NoChanges {
      return EmptyUpdate;
    }
    if productId !in db.products {
      return NoSuchRow;
    }
    var r := db.products[productId];
    var name := Given(payload.name, r.name);
    var description := Given(payload.description, r.description);
    var brand := Given(payload.brand, r.brand);
    var price := Given(payload.price, r.price);
    var unit := Given(payload.unit, r.unit);
    var status := payload.status.GetOr(r.status);
    var isPublic := payload.isPublic.GetOr(r.isPublic);
    var stockQuantity := payload.stockQuantity.GetOr(r.stockQuantity);
    var mainCategoryId := Given(payload.mainCategoryId, r.mainCategoryId);
    var subCategory := Given(payload.subCategory, r.subCategory);
    var image := payload.image.GetOr(r.image);
    r := ProductRow(r.sellerId, name, description, brand, price, unit, status, isPublic, stockQuantity,
      mainCategoryId, subCategory, image);
    db.products := db.products[productId := r];
    return Changed(r);
  }

  /** `remove`: deletes the row with that id, if any, and returns how many rows went. */
  method Remove(db: ProductDb, productId: Id) returns (count: nat)
    modifies db
    ensures db.products == old(db.products) - {productId}
    ensures count == if productId in old(db.products) then 1 else 0
  {
    count := if productId in db.products then 1 else 0;
    db.products := db.products - {productId};
  }

  /** `countAllPublic`: the number of published rows. */
  function CountAllPublic(products: map<Id, ProductRow>): (n: nat)
    ensures n == |FindPublicProducts(products)|
  {
    assert FindPublicProducts(products).Keys == set k | k in products && IsPublished(products[k]);
    CountWhere(products, IsPublished)
  }

  function Status(r: ProductRow): string {
    r.status
  }

  /**
   * `countByStatus`: folds the grouped rows into an object from status to
   * count, one group at a time.
   */
  method CountByStatus(db: ProductDb) returns (acc: map<string, nat>)
    ensures acc == GroupCounts(db.products, Status)
  {
    var groups := Groups(db.products, Status);
    acc := map[];
    while groups != {}
      invariant groups <= Groups(db.products, Status)
      invariant acc.Keys == Groups(db.products, Status) - groups
      invariant forall g :: g in acc ==> acc[g] == GroupCount(db.products, Status, g)
      decreases groups
    {
      var g :| g in groups;
      acc := acc[g := GroupCount(db.products, Status, g)];
      groups := groups - {g};
    }
  }

  /** The status counts cover every product exactly once. */
  lemma StatusCountsCoverAll(products: map<Id, ProductRow>)
    ensures SumValues(GroupCounts(products, Status)) == |products|
  {
    GroupCountsSum(products, Status);
  }

  /** `countLowStock`: the number of rows with at most threshold items in stock (5 by default). */
  function CountLowStock(products: map<Id, ProductRow>, threshold: Option<int>): (n: nat)
    ensures n == |set k | k in products && products[k].stockQuantity <= threshold.GetOr(5)|
    ensures n <= |products|
  {
    var limit := threshold.GetOr(5);
    var low := (r: ProductRow) => r.stockQuantity <= limit;
    assert KeysWhere(products, low) == set k | k in products && products[k].stockQuantity <= limit;
    CountWhere(products, low)
  }

  /** The three counts `countBySeller` reports. */
  datatype SellerCounts = SellerCounts(total: nat, lowStock: nat, byStatus: map<string, nat>)

  /** `countBySeller`: the seller's rows, those with at most 5 in stock, and their status counts. */
  function CountBySeller(products: map<Id, ProductRow>, sellerId: Id): (c: SellerCounts)
    ensures c.total == |FindProductsBySellerId(products, sellerId)|
    ensures c.lowStock == CountLowStock(FindProductsBySellerId(products, sellerId), Some(5))
    ensures c.byStatus == GroupCounts(FindProductsBySellerId(products, sellerId), Status)
  {
    var mine := FindProductsBySellerId(products, sellerId);
    SellerCounts(|mine|, CountLowStock(mine, Some(5)), GroupCounts(mine, Status))
  }

  /** A seller's low-stock count never exceeds their total, and their status counts add up to it. */
  lemma SellerCountsConsistent(products: map<Id, ProductRow>, sellerId: Id)
    ensures var c := CountBySeller(products, sellerId);
      c.lowStock <= c.total && SumValues(c.byStatus) == c.total
  {
    GroupCountsSum(FindProductsBySellerId(products, sellerId), Status);
  }
}
