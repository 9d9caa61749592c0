/**
 * The product service's seller handlers: who counts as a seller, creating a
 * product after the required-field checks, and the owner-only update and
 * delete. The caller's id and role arrive as the `x-user-id` and
 * `x-user-role` headers. Two remote answers are parameters: the role the
 * user service returns (None when the fetch fails), and the name of the
 * main category with the given id (None when there is none).
 */
module ProductServiceController {
  import opened Common
  import opened Text
  import opened ProductRepository

  /**
   * `isSellerUser`: a present role header decides on its own, compared
   * ignoring case; without one, the fetched user's role must be exactly
   * `seller`, and a failed fetch means not a seller.
   */
  predicate IsSellerUser(roleHeader: Option<string>, fetchedRole: Option<string>) {
    if Truthy(roleHeader) then Lower(roleHeader.value) == "seller" else fetchedRole == Some("seller")
  }

  /** A role header is trusted over the user service: the fetched role does not matter once a header is sent. */
  lemma HeaderDecidesSeller(roleHeader: string, fetchedRole: Option<string>)
    requires roleHeader != ""
    ensures IsSellerUser(Some(roleHeader), fetchedRole) <==> EqualsIgnoreCase(roleHeader, "seller")
    ensures IsSellerUser(Some("SELLER"), fetchedRole) && IsSellerUser(Some("Seller"), fetchedRole)
  {
    assert Lower("seller") == "seller";
    assert Lower("SELLER") == "seller";
    assert Lower("Seller") == "seller";
  }

  /** The request body of `createProduct`. Numbers are JSON numbers; `price` is kept as opaque text. */
  datatype CreateBody = CreateBody(
    name: Option<string>,
    description: Option<string>,
    brand: Option<string>,
    price: Option<string>,
    unit: Option<string>,
    stockQuantity: Option<int>,
    status: Option<string>,
    mainCategoryId: Option<Id>,
    subCategory: Option<string>,
    image: Option<seq<string>>)

  /** The first required field that is missing or blank, in the order the handler checks them. */
  function FirstMissing(body: CreateBody): (field: Option<string>)
    ensures field.None? <==>
      !MissingOrBlank(body.name) && !MissingOrBlank(body.description) && !MissingOrBlank(body.brand)
      && !MissingOrBlank(body.mainCategoryId) && !MissingOrBlank(body.subCategory)
    ensures field == Some("name") <==> MissingOrBlank(body.name)
    ensures field == Some("description") <==> !MissingOrBlank(body.name) && MissingOrBlank(body.description)
    ensures field == Some("brand") <==>
      !MissingOrBlank(body.name) && !MissingOrBlank(body.description) && MissingOrBlank(body.brand)
    ensures field == Some("mainCategoryId") <==>
      !MissingOrBlank(body.name) && !MissingOrBlank(body.description) && !MissingOrBlank(body.brand)
      && MissingOrBlank(body.mainCategoryId)
    ensures field == Some("subCategory") <==>
      !MissingOrBlank(body.name) && !MissingOrBlank(body.description) && !MissingOrBlank(body.brand)
      && !MissingOrBlank(body.mainCategoryId) && MissingOrBlank(body.subCategory)
  {
    if MissingOrBlank(body.name) then Some("name")
    else if MissingOrBlank(body.description) then Some("description")
    else if MissingOrBlank(body.brand) then Some("brand")
    else if MissingOrBlank(body.mainCategoryId) then Some("mainCategoryId")
    else if MissingOrBlank(body.subCategory) then Some("subCategory")
    else None
  }

  /** `x ? x : null` for a number: zero is falsy. */
  function NonZero(v: Option<int>): (r: Option<int>)
    ensures r.Some? <==> v.Some? && v.value != 0
    ensures r.Some? ==> r == v
  {
    if v.Some? && v.value != 0 then v else None
  }

  /** What `createProduct` passes to the repository. */
  function CreatePayloadOf(body: CreateBody, sellerId: Id, businessCategory: string): (p: CreatePayload)
    ensures p.id.None? && p.sellerId == Some(sellerId) && p.isPublic.None?
    ensures p.status.Some? && p.stockQuantity.Some? && p.image.Some?
  {
    CreatePayload(None, Some(sellerId), body.name, body.description, body.brand,
      if Truthy(body.price) then body.price else None, body.unit,
      Some(if Truthy(body.status) then body.status.value else "draft"), None,
      Some(NonZero(body.stockQuantity).GetOr(0)), Some(businessCategory), body.mainCategoryId, body.subCategory, Some(body.image.GetOr([])))
  }

  /**
   * The row a successful `createProduct` stores: a draft unless a status is
   * given, public, no stock unless a quantity is given, no images unless given.
   */
  function CreatedRow(body: CreateBody, sellerId: Id, businessCategory: string): (row: ProductRow)
    ensures row.sellerId == Some(sellerId) && row.name == body.name && row.description == body.description
    ensures row.brand == body.brand && row.unit == body.unit
    ensures row.status == (if Truthy(body.status) then body.status.value else "draft")
    ensures row.isPublic && row.stockQuantity == body.stockQuantity.GetOr(0) && row.image == body.image.GetOr([])
    ensures row.mainCategoryId == body.mainCategoryId && row.subCategory == body.subCategory
  {
    NewRow(CreatePayloadOf(body, sellerId, businessCategory))
  }

  /** The response code, the failure message, and the table afterwards. */
  datatype Outcome = Outcome(code: int, message: string, products: map<Id, ProductRow>)

  /**
   * `createProduct`: 401 without a caller, 403 for a non-seller, then 400 for
   * the first missing field and for an unknown main category; otherwise a
   * row is inserted under a fresh id (500 when the insert fails).
   */
  function CreateProductResult(products: map<Id, ProductRow>, sellerId: Option<Id>, roleHeader: Option<string>,
                               fetchedRole: Option<string>, body: CreateBody, mainCategory: Option<string>,
                               freshId: Id): (o: Outcome)
    ensures o.code in {201, 400, 401, 403, 500}
    ensures o.code == 401 <==> !Truthy(sellerId)
    ensures o.code == 403 <==> Truthy(sellerId) && !IsSellerUser(roleHeader, fetchedRole)
    ensures o.code == 400 <==> Truthy(sellerId) && IsSellerUser(roleHeader, fetchedRole)
                               && (FirstMissing(body).Some? || mainCategory.None?)
    ensures o.code == 400 && FirstMissing(body).Some? ==> o.message == FirstMissing(body).value + " is required"
    ensures o.code == 400 && FirstMissing(body).None? ==> o.message == "Invalid mainCategoryId"
    ensures o.code != 201 ==> o.products == products
    ensures o.code == 500 <==> o.code !in {400, 401, 403} && freshId in products
    ensures o.code == 201 ==>
      freshId !in products && o.products == products[freshId := CreatedRow(body, sellerId.value, mainCategory.value)]
  {
    if !Truthy(sellerId) then Outcome(401, "Missing X-User-ID header", products)
    else if !IsSellerUser(roleHeader, fetchedRole) then Outcome(403, "Only sellers can create products", products)
    else if FirstMissing(body).Some? then Outcome(400, FirstMissing(body).value + " is required", products)
    else if mainCategory.None? then Outcome(400, "Invalid mainCategoryId", products)
    else
      if freshId in products then Outcome(500, "Server Error", products)
      else Outcome(201, "", products[freshId := CreatedRow(body, sellerId.value, mainCategory.value)])
  }

  method CreateProduct(db: ProductDb, sellerId: Option<Id>, roleHeader: Option<string>, fetchedRole: Option<string>,
                       body: CreateBody, mainCategory: Option<string>, freshId: Id) returns (code: int, message: string)
    modifies db
    ensures Outcome(code, message, db.products)
         == CreateProductResult(old(db.products), sellerId, roleHeader, fetchedRole, body, mainCategory, freshId)
  {
    if !Truthy(sellerId) {
      return 401, "Missing X-User-ID header";
    }
    if !IsSellerUser(roleHeader, fetchedRole) {
      return 403, "Only sellers can create products";
    }
    var missing := FirstMissing(body);
    if missing.Some? {
      return 400, missing.value + " is required";
    }
    if mainCategory.None? {
      return 400, "Invalid mainCategoryId";
    }
    var product := Create(db, CreatePayloadOf(body, sellerId.value, mainCategory.value), freshId);
    if product.None? {
      return 500, "Server Error";
    }
    return 201, "";
  }

  /** A product created without a status is a draft: the public finders do not return it. */
  lemma CreatedDraftIsHidden(products: map<Id, ProductRow>, sellerId: Id, roleHeader: Option<string>,
                             fetchedRole: Option<string>, body: CreateBody, mainCategory: Option<string>, freshId: Id)
    requires !Truthy(body.status)
    requires CreateProductResult(products, Some(sellerId), roleHeader, fetchedRole, body, mainCategory, freshId).code == 201
    ensures var after := CreateProductResult(products, Some(sellerId), roleHeader, fetchedRole, body, mainCategory, freshId).products;
      && freshId in FindProductsBySellerId(after, sellerId)
      && FindPublicProductById(after, freshId).None?
      && freshId !in FindPublicProducts(after)
  {
    var after := CreateProductResult(products, Some(sellerId), roleHeader, fetchedRole, body, mainCategory, freshId).products;
    assert freshId in after && after[freshId] == CreatedRow(body, sellerId, mainCategory.value);
    DraftIsHidden(after, freshId, sellerId);
  }

  /** A draft row is among its seller's products and hidden from both public finders. */
  lemma DraftIsHidden(products: map<Id, ProductRow>, productId: Id, sellerId: Id)
    requires productId in products && products[productId].status == "draft" && products[productId].sellerId == Some(sellerId)
    ensures productId in FindProductsBySellerId(products, sellerId)
    ensures FindPublicProductById(products, productId).None?
    ensures productId !in FindPublicProducts(products)
  {
  }

  /** The request body of `updateProduct`; it has no `brand` and no `isPublic`. */
  datatype UpdateBody = UpdateBody(
    name: Option<string>,
    description: Option<string>,
    price: Option<string>,
    unit: Option<string>,
    stockQuantity: Option<int>,
    status: Option<string>,
    mainCategoryId: Option<Id>,
    subCategory: Option<string>,
    image: Option<seq<string>>)

  /** What `updateProduct` passes to the repository: a falsy price or stock quantity is dropped. */
  function UpdatePayloadOf(body: UpdateBody): (p: UpdatePayload)
    ensures p.brand.None? && p.isPublic.None?
    ensures p.stockQuantity == NonZero(body.stockQuantity)
  {
    UpdatePayload(body.name, body.description, None, if Truthy(body.price) then body.price else None, body.unit,
      body.status, None, NonZero(body.stockQuantity), body.mainCategoryId, body.subCategory, body.image)
  }

  /** The owner check shared by update and delete: 404 for no such row, 403 for another seller's row, else 200. */
  function OwnerCheck(products: map<Id, ProductRow>, sellerId: Id, productId: Id): (code: int)
    ensures code in {200, 403, 404}
    ensures code == 404 <==> productId !in products
    ensures code == 200 <==> productId in products && products[productId].sellerId == Some(sellerId)
  {
    if productId !in products then 404
    else if products[productId].sellerId != Some(sellerId) then 403
    else 200
  }

  /**
   * `updateProduct` as written: 401, 403 for a non-seller, 404, 403 for
   * another seller's product, 400 for a truthy but unknown main category;
   * otherwise the repository update with the body's fields, which is a 500
   * when none of them is defined (knex refuses an empty update).
   */
  function UpdateProductResult(products: map<Id, ProductRow>, sellerId: Option<Id>, roleHeader: Option<string>,
                               fetchedRole: Option<string>, productId: Id, body: UpdateBody,
                               mainCategory: Option<string>): (o: Outcome)
    ensures o.code in {200, 400, 401, 403, 404, 500}
    ensures o.code == 401 <==> !Truthy(sellerId)
    ensures o.code == 403 <==>
      Truthy(sellerId) && (!IsSellerUser(roleHeader, fetchedRole) || OwnerCheck(products, sellerId.value, productId) == 403)
    ensures o.code == 404 <==> Truthy(sellerId) && IsSellerUser(roleHeader, fetchedRole) && productId !in products
    ensures o.code == 400 <==>
      && Truthy(sellerId) && IsSellerUser(roleHeader, fetchedRole) && OwnerCheck(products, sellerId.value, productId) == 200
      && Truthy(body.mainCategoryId) && mainCategory.None?
    ensures o.code == 500 <==>
      && Truthy(sellerId) && IsSellerUser(roleHeader, fetchedRole) && OwnerCheck(products, sellerId.value, productId) == 200
      && !(Truthy(body.mainCategoryId) && mainCategory.None?) && UpdatePayloadOf(body) == NoChanges
    ensures o.code != 200 ==> o.products == products
    ensures o.code == 200 ==>
      && OwnerCheck(products, sellerId.value, productId) == 200
      && UpdatePayloadOf(body) != NoChanges
      && o.products == products[productId := Updated(products[productId], UpdatePayloadOf(body))]
      && o.products[productId].brand == products[productId].brand
      && o.products[productId].isPublic == products[productId].isPublic
      && o.products[productId].sellerId == products[productId].sellerId
  {
    if !Truthy(sellerId) then Outcome(401, "Missing X-User-ID header", products)
    else if !IsSellerUser(roleHeader, fetchedRole) then Outcome(403, "Only sellers can update products", products)
    else if OwnerCheck(products, sellerId.value, productId) == 404 then Outcome(404, "Product not found", products)
    else if OwnerCheck(products, sellerId.value, productId) == 403 then Outcome(403, "Not your product", products)
    else if Truthy(body.mainCategoryId) && mainCategory.None? then Outcome(400, "Invalid mainCategoryId", products)
    else if UpdatePayloadOf(body) == NoChanges then Outcome(500, "Server Error", products)
    else
      UpdatedColumns(products[productId], UpdatePayloadOf(body));
      Outcome(200, "", products[productId := Updated(products[productId], UpdatePayloadOf(body))])
  }

  method UpdateProduct(db: ProductDb, sellerId: Option<Id>, roleHeader: Option<string>, fetchedRole: Option<string>,
                       productId: Id, body: UpdateBody, mainCategory: Option<string>) returns (code: int, message: string)
    modifies db
    ensures Outcome(code, message, db.products)
         == UpdateProductResult(old(db.products), sellerId, roleHeader, fetchedRole, productId, body, mainCategory)
  {
    if !Truthy(sellerId) {
      return 401, "Missing X-User-ID header";
    }
    if !IsSellerUser(roleHeader, fetchedRole) {
      return 403, "Only sellers can update products";
    }
    if productId !in db.products {
      return 404, "Product not found";
    }
    if db.products[productId].sellerId != Some(sellerId.value) {
      return 403, "Not your product";
    }
    if Truthy(body.mainCategoryId) && mainCategory.None? {
      return 400, "Invalid mainCategoryId";
    }
    var reply := Update(db, productId, UpdatePayloadOf(body));
    if reply.EmptyUpdate? {
      return 500, "Server Error";
    }
    return 200, "";
  }

  /** As written, a requested stock quantity of zero is dropped: the stored quantity stays as it was. */
  lemma ZeroStockIgnored(products: map<Id, ProductRow>, sellerId: Id, roleHeader: Option<string>,
                         fetchedRole: Option<string>, productId: Id, body: UpdateBody, mainCategory: Option<string>)
    requires body.stockQuantity == Some(0)
    requires productId in products && products[productId].stockQuantity == 7
    requires UpdateProductResult(products, Some(sellerId), roleHeader, fetchedRole, productId, body, mainCategory).code == 200
    ensures UpdateProductResult(products, Some(sellerId), roleHeader, fetchedRole, productId, body, mainCategory)
      .products[productId].stockQuantity == 7
  {
    UpdatedColumns(products[productId], UpdatePayloadOf(body));
  }

  /** The update payload with the stock quantity passed whenever the body defines it. */
  function IntendedUpdatePayloadOf(body: UpdateBody): (p: UpdatePayload)
    ensures p.stockQuantity == body.stockQuantity
    ensures p == UpdatePayloadOf(body).(stockQuantity := body.stockQuantity)
  {
    UpdatePayloadOf(body).(stockQuantity := body.stockQuantity)
  }

  /**
   * `updateProduct` with the stock quantity checked against undefined rather
   * than falsiness: the refusals before the update are those as written, and
   * the update is empty, hence a 500, only when the corrected payload is.
   */
  function IntendedUpdateProductResult(products: map<Id, ProductRow>, sellerId: Option<Id>, roleHeader: Option<string>,
                                       fetchedRole: Option<string>, productId: Id, body: UpdateBody,
                                       mainCategory: Option<string>): (o: Outcome)
    ensures var w := UpdateProductResult(products, sellerId, roleHeader, fetchedRole, productId, body, mainCategory);
      w.code !in {200, 500} ==> o == w
    ensures var w := UpdateProductResult(products, sellerId, roleHeader, fetchedRole, productId, body, mainCategory);
      o.code == 500 <==> w.code in {200, 500} && IntendedUpdatePayloadOf(body) == NoChanges
    ensures o.code != 200 ==> o.products == products
    ensures o.code == 200 ==> o.products == products[productId := Updated(products[productId], IntendedUpdatePayloadOf(body))]
  {
    var asWritten := UpdateProductResult(products, sellerId, roleHeader, fetchedRole, productId, body, mainCategory);
    if asWritten.code !in {200, 500} then asWritten
    else if IntendedUpdatePayloadOf(body) == NoChanges then Outcome(500, "Server Error", products)
    else Outcome(200, "", products[productId := Updated(products[productId], IntendedUpdatePayloadOf(body))])
  }

  /** With the correction, any requested stock quantity, zero included, is stored, and no other column differs. */
  lemma IntendedUpdateSetsStock(products: map<Id, ProductRow>, sellerId: Id, roleHeader: Option<string>,
                                fetchedRole: Option<string>, productId: Id, body: UpdateBody, mainCategory: Option<string>)
    requires body.stockQuantity.Some?
    requires IntendedUpdateProductResult(products, Some(sellerId), roleHeader, fetchedRole, productId, body, mainCategory).code == 200
    ensures var o := IntendedUpdateProductResult(products, Some(sellerId), roleHeader, fetchedRole, productId, body, mainCategory);
      && o.products[productId].stockQuantity == body.stockQuantity.value
      && o.products[productId] == Updated(products[productId], UpdatePayloadOf(body)).(stockQuantity := body.stockQuantity.value)
  {
    UpdatedColumns(products[productId], IntendedUpdatePayloadOf(body));
    UpdatedColumns(products[productId], UpdatePayloadOf(body));
  }

  /** A body whose only field is a stock quantity of zero leaves nothing to update as written, so it is a 500, while the correction stores the zero. */
  lemma ZeroStockAloneFails(products: map<Id, ProductRow>, sellerId: Id, roleHeader: Option<string>,
                            fetchedRole: Option<string>, productId: Id, mainCategory: Option<string>)
    requires productId in products && products[productId].sellerId == Some(sellerId) && sellerId != ""
    requires IsSellerUser(roleHeader, fetchedRole)
    ensures var body := UpdateBody(None, None, None, None, Some(0), None, None, None, None);
      && UpdateProductResult(products, Some(sellerId), roleHeader, fetchedRole, productId, body, mainCategory).code == 500
      && IntendedUpdateProductResult(products, Some(sellerId), roleHeader, fetchedRole, productId, body, mainCategory).code == 200
  {
    var body := UpdateBody(None, None, None, None, Some(0), None, None, None, None);
    assert UpdatePayloadOf(body) == NoChanges;
    assert IntendedUpdatePayloadOf(body).stockQuantity == Some(0);
  }

  /**
   * `deleteProduct`: 401 without a caller, 404 for no such product, 403 for
   * another seller's product; otherwise that row alone is deleted. Unlike
   * update, it does not ask whether the caller is a seller.
   */
  function DeleteProductResult(products: map<Id, ProductRow>, sellerId: Option<Id>, productId: Id): (o: Outcome)
    ensures o.code in {200, 401, 403, 404}
    ensures o.code == 401 <==> !Truthy(sellerId)
    ensures o.code == 404 <==> Truthy(sellerId) && productId !in products
    ensures o.code == 403 <==> Truthy(sellerId) && productId in products && products[productId].sellerId != sellerId
    ensures o.code != 200 ==> o.products == products
    ensures o.code == 200 ==> o.products == products - {productId} && productId in products
  {
    if !Truthy(sellerId) then Outcome(401, "Missing X-User-ID header", products)
    else if OwnerCheck(products, sellerId.value, productId) == 404 then Outcome(404, "Product not found", products)
    else if OwnerCheck(products, sellerId.value, productId) == 403 then Outcome(403, "Not your product", products)
    else Outcome(200, "", products - {productId})
  }

  method DeleteProduct(db: ProductDb, sellerId: Option<Id>, productId: Id) returns (code: int, message: string)
    modifies db
    ensures Outcome(code, message, db.products) == DeleteProductResult(old(db.products), sellerId, productId)
  {
    if !Truthy(sellerId) {
      return 401, "Missing X-User-ID header";
    }
    if productId !in db.products {
      return 404, "Product not found";
    }
    if db.products[productId].sellerId != Some(sellerId.value) {
      return 403, "Not your product";
    }
    var count := Remove(db, productId);
    return 200, "";
  }

  /** Only the owner can make a product disappear or change: others leave every row as it was. */
  lemma OthersCannotTouch(products: map<Id, ProductRow>, sellerId: Id, roleHeader: Option<string>, fetchedRole: Option<string>,
                          productId: Id, body: UpdateBody, mainCategory: Option<string>)
    requires productId in products && products[productId].sellerId != Some(sellerId)
    ensures UpdateProductResult(products, Some(sellerId), roleHeader, fetchedRole, productId, body, mainCategory).products == products
    ensures DeleteProductResult(products, Some(sellerId), productId).products == products
  {
  }
}
