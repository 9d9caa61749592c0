/**
 * The admin service's category catalogue: the `main_categories` table with
 * its admin-only create, toggle and delete, and `sub_categories`, which any
 * caller may extend on the fly. The caller's id arrives as the `x-user-id`
 * header; the role the user service returns for it is a parameter (None
 * when the fetch fails). Row ids come from a fresh-id supply.
 */
module AdminService {
  import opened Common
  import opened Text
  import opened Tables

  /** A row of `main_categories`; `name` is unique. */
  datatype MainCategory = MainCategory(name: string, isActive: bool)

  /** A row of `sub_categories`; `(main_category_id, name)` is unique and references a main category. */
  datatype SubCategory = SubCategory(mainCategoryId: Id, name: string, isActive: bool)

  datatype Catalog = Catalog(mains: map<Id, MainCategory>, subs: map<Id, SubCategory>)

  /** `UNIQUE (main_category_id, name)`. */
  predicate UniquePairs(subs: map<Id, SubCategory>) {
    forall a, b :: a in subs && b in subs && subs[a].mainCategoryId == subs[b].mainCategoryId && subs[a].name == subs[b].name ==> a == b
  }

  /** The schema's constraints: unique main names, unique pairs, and the foreign key of every sub-category. */
  predicate Valid(c: Catalog) {
    && (forall a, b :: a in c.mains && b in c.mains && c.mains[a].name == c.mains[b].name ==> a == b)
    && UniquePairs(c.subs)
    && (forall s :: s in c.subs ==> c.subs[s].mainCategoryId in c.mains)
  }

  /** No two main categories share a name ignoring case, which the create handler keeps. */
  predicate DistinctIgnoringCase(mains: map<Id, MainCategory>) {
    forall a, b :: a in mains && b in mains && EqualsIgnoreCase(mains[a].name, mains[b].name) ==> a == b
  }

  class CatalogDb {
    var mains: map<Id, MainCategory>
    var subs: map<Id, SubCategory>

    function State(): Catalog
      reads this
    {
      Catalog(mains, subs)
    }

    constructor ()
      ensures State() == Catalog(map[], map[]) && Valid(State())
    {
      mains, subs := map[], map[];
    }
  }

  /** `verifyAdmin`: false without an id or when the fetch fails; otherwise the fetched role must be exactly `admin`. */
  predicate VerifyAdmin(userId: Option<Id>, fetchedRole: Option<string>) {
    Truthy(userId) && fetchedRole == Some("admin")
  }

  /** The response code, the id of the row returned, and the catalogue afterwards. */
  datatype Outcome = Outcome(code: int, id: Option<Id>, catalog: Catalog)

  /** The main categories whose name equals name ignoring case (`whereILike`). */
  function SameNameIgnoringCase(mains: map<Id, MainCategory>, name: string): (ks: set<Id>)
    ensures forall k :: k in ks <==> k in mains && EqualsIgnoreCase(mains[k].name, name)
  {
    set k | k in mains && EqualsIgnoreCase(mains[k].name, name)
  }

  /**
   * `createMainCategory`: 403 for a non-admin, 400 for a blank name, 409 when
   * a category has the trimmed name ignoring case; otherwise the trimmed
   * name is stored as active (500 when the generated id is taken).
   */
  function CreateMainCategoryResult(c: Catalog, userId: Option<Id>, fetchedRole: Option<string>,
                                    name: Option<string>, freshId: Id): (o: Outcome)
    requires Valid(c)
    ensures o.code in {201, 400, 403, 409, 500}
    ensures o.code == 403 <==> !VerifyAdmin(userId, fetchedRole)
    ensures o.code == 400 <==> VerifyAdmin(userId, fetchedRole) && MissingOrBlank(name)
    ensures o.code == 409 <==> VerifyAdmin(userId, fetchedRole) && !MissingOrBlank(name)
                               && SameNameIgnoringCase(c.mains, Trim(name.value)) != {}
    ensures o.code == 500 <==> VerifyAdmin(userId, fetchedRole) && !MissingOrBlank(name)
                               && SameNameIgnoringCase(c.mains, Trim(name.value)) == {} && freshId in c.mains
    ensures o.code != 201 ==> o.catalog == c && o.id.None?
    ensures o.code == 201 ==>
      && o.id == Some(freshId) && freshId !in c.mains
      && o.catalog == c.(mains := c.mains[freshId := MainCategory(Trim(name.value), true)])
      && Trim(name.value) != []
    ensures Valid(o.catalog)
  {
    if !VerifyAdmin(userId, fetchedRole) then Outcome(403, None, c)
    else if MissingOrBlank(name) then Outcome(400, None, c)
    else
      var trimmed := Trim(name.value);
      if SameNameIgnoringCase(c.mains, trimmed) != {} then Outcome(409, None, c)
      else if freshId in c.mains then Outcome(500, None, c)
      else
        var mains := c.mains[freshId := MainCategory(trimmed, true)];
        Outcome(201, Some(freshId), c.(mains := mains))
  }

  method CreateMainCategory(db: CatalogDb, userId: Option<Id>, fetchedRole: Option<string>, name: Option<string>, freshId: Id)
    returns (code: int, id: Option<Id>)
    requires Valid(db.State())
    modifies db`mains
    ensures Outcome(code, id, db.State()) == CreateMainCategoryResult(old(db.State()), userId, fetchedRole, name, freshId)
  {
    if !VerifyAdmin(userId, fetchedRole) {
      return 403, None;
    }
    if MissingOrBlank(name) {
      return 400, None;
    }
    var trimmed := Trim(name.value);
    var clash := SameNameIgnoringCase(db.mains, trimmed);
    if clash != {} {
      return 409, None;
    }
    if freshId in db.mains {
      return 500, None;
    }
    db.mains := db.mains[freshId := MainCategory(trimmed, true)];
    return 201, Some(freshId);
  }

  /** Creating categories never admits two names that differ only in case. */
  lemma CreateKeepsNamesDistinct(c: Catalog, userId: Option<Id>, fetchedRole: Option<string>, name: Option<string>, freshId: Id)
    requires Valid(c) && DistinctIgnoringCase(c.mains)
    ensures DistinctIgnoringCase(CreateMainCategoryResult(c, userId, fetchedRole, name, freshId).catalog.mains)
  {
  }

  /** A second request for the same name in any letter case is refused with 409. */
  lemma SecondCreateConflicts(c: Catalog, userId: Id, name: string, other: string, id1: Id, id2: Id)
    requires Valid(c) && userId != ""
    requires CreateMainCategoryResult(c, Some(userId), Some("admin"), Some(name), id1).code == 201
    requires EqualsIgnoreCase(Trim(other), Trim(name))
    ensures var c1 := CreateMainCategoryResult(c, Some(userId), Some("admin"), Some(name), id1).catalog;
      CreateMainCategoryResult(c1, Some(userId), Some("admin"), Some(other), id2).code == 409
  {
    var c1 := CreateMainCategoryResult(c, Some(userId), Some("admin"), Some(name), id1).catalog;
    assert id1 in c1.mains && c1.mains[id1].name == Trim(name);
    assert |Trim(other)| == |Lower(Trim(other))| == |Lower(Trim(name))| == |Trim(name)| > 0;
    TakenNameConflicts(c1, userId, other, id1, id2);
  }

  /** An admin's request for a name some category already has, ignoring case, is refused with 409. */
  lemma TakenNameConflicts(c: Catalog, userId: Id, name: string, taken: Id, freshId: Id)
    requires Valid(c) && userId != "" && !IsBlank(name)
    requires taken in c.mains && EqualsIgnoreCase(c.mains[taken].name, Trim(name))
    ensures CreateMainCategoryResult(c, Some(userId), Some("admin"), Some(name), freshId).code == 409
  {
    assert taken in SameNameIgnoringCase(c.mains, Trim(name));
  }

  /** Code-point lexicographic order on names: the order `ORDER BY name` gives under the C collation. */
  predicate LexLe(a: string, b: string)
    decreases |a|
  {
    a == [] || (b != [] && (a[0] < b[0] || (a[0] == b[0] && LexLe(a[1..], b[1..]))))
  }

  lemma {:induction false} LexTotal(a: string, b: string)
    ensures LexLe(a, b) || LexLe(b, a)
    decreases |a|
  {
    if a != [] && b != [] && a[0] == b[0] {
      LexTotal(a[1..], b[1..]);
    }
  }

  lemma {:induction false} LexTransitive(a: string, b: string, c: string)
    requires LexLe(a, b) && LexLe(b, c)
    ensures LexLe(a, c)
    decreases |a|
  {
    if a != [] && a[0] == b[0] && b[0] == c[0] {
      LexTransitive(a[1..], b[1..], c[1..]);
    }
  }

  function MainNameLe(x: MainCategory, y: MainCategory): bool {
    LexLe(x.name, y.name)
  }

  function SubNameLe(x: SubCategory, y: SubCategory): bool {
    LexLe(x.name, y.name)
  }

  lemma NameOrdersArePreorders()
    ensures TotalPreorder(MainNameLe) && TotalPreorder(SubNameLe)
  {
    forall a: string, b: string
      ensures LexLe(a, b) || LexLe(b, a)
    {
      LexTotal(a, b);
    }
    forall a: string, b: string, c: string | LexLe(a, b) && LexLe(b, c)
      ensures LexLe(a, c)
    {
      LexTransitive(a, b, c);
    }
  }

  function IsActiveMain(m: MainCategory): bool {
    m.isActive
  }

  /** `getMainCategories`: the active categories, by name ascending. */
  ghost function GetMainCategories(mains: map<Id, MainCategory>): (r: seq<Id>)
    ensures forall id :: id in r <==> id in mains && mains[id].isActive
    ensures forall i, j :: 0 <= i < j < |r| ==> r[i] != r[j]
    ensures forall i, j :: 0 <= i < j < |r| ==> LexLe(mains[r[i]].name, mains[r[j]].name)
  {
    NameOrdersArePreorders();
    var active := Where(mains, IsActiveMain);
    var r := OrderBy(active, MainNameLe);
    assert forall i :: 0 <= i < |r| ==> active[r[i]] == mains[r[i]];
    r
  }

  /**
   * `toggleMainCategoryStatus`: 403 for a non-admin, 400 unless isActive is
   * a boolean (None stands for any other JSON value), 404 for an unknown id;
   * otherwise only that category's flag is set to the given value.
   */
  function ToggleMainCategoryStatusResult(c: Catalog, userId: Option<Id>, fetchedRole: Option<string>,
                                          id: Id, isActive: Option<bool>): (o: Outcome)
    requires Valid(c)
    ensures o.code in {200, 400, 403, 404}
    ensures o.code == 403 <==> !VerifyAdmin(userId, fetchedRole)
    ensures o.code == 400 <==> VerifyAdmin(userId, fetchedRole) && isActive.None?
    ensures o.code == 404 <==> VerifyAdmin(userId, fetchedRole) && isActive.Some? && id !in c.mains
    ensures o.code != 200 ==> o.catalog == c
    ensures o.code == 200 ==> o.catalog == c.(mains := c.mains[id := c.mains[id].(isActive := isActive.value)]) && o.id == Some(id)
    ensures Valid(o.catalog)
  {
    if !VerifyAdmin(userId, fetchedRole) then Outcome(403, None, c)
    else if isActive.None? then Outcome(400, None, c)
    else if id !in c.mains then Outcome(404, None, c)
    else Outcome(200, Some(id), c.(mains := c.mains[id := c.mains[id].(isActive := isActive.value)]))
  }

  method ToggleMainCategoryStatus(db: CatalogDb, userId: Option<Id>, fetchedRole: Option<string>, id: Id, isActive: Option<bool>)
    returns (code: int, updated: Option<Id>)
    requires Valid(db.State())
    modifies db`mains
    ensures Outcome(code, updated, db.State()) == ToggleMainCategoryStatusResult(old(db.State()), userId, fetchedRole, id, isActive)
  {
    if !VerifyAdmin(userId, fetchedRole) {
      return 403, None;
    }
    if isActive.None? {
      return 400, None;
    }
    if id !in db.mains {
      return 404, None;
    }
    db.mains := db.mains[id := db.mains[id].(isActive := isActive.value)];
    return 200, Some(id);
  }

  /** A deactivated category drops out of the public list; reactivating it brings it back. */
  lemma ToggleDecidesListing(c: Catalog, userId: Id, id: Id, isActive: bool)
    requires Valid(c) && userId != "" && id in c.mains
    ensures var c1 := ToggleMainCategoryStatusResult(c, Some(userId), Some("admin"), id, Some(isActive)).catalog;
      id in GetMainCategories(c1.mains) <==> isActive
  {
  }

  /** The sub-categories left once a main category goes: `ON DELETE CASCADE`. */
  function SubsOutside(subs: map<Id, SubCategory>, mainId: Id): (r: map<Id, SubCategory>)
    ensures forall s :: s in r <==> s in subs && subs[s].mainCategoryId != mainId
    ensures forall s :: s in r ==> r[s] == subs[s]
  {
    map s | s in subs && subs[s].mainCategoryId != mainId :: subs[s]
  }

  /**
   * `deleteMainCategory`: 403 for a non-admin, 404 when no row was deleted;
   * otherwise the category and, by the cascade, its sub-categories go.
   */
  function DeleteMainCategoryResult(c: Catalog, userId: Option<Id>, fetchedRole: Option<string>, id: Id): (o: Outcome)
    requires Valid(c)
    ensures o.code in {200, 403, 404}
    ensures o.code == 403 <==> !VerifyAdmin(userId, fetchedRole)
    ensures o.code == 404 <==> VerifyAdmin(userId, fetchedRole) && id !in c.mains
    ensures o.code != 200 ==> o.catalog == c
    ensures o.code == 200 ==> o.catalog == Catalog(c.mains - {id}, SubsOutside(c.subs, id))
    ensures Valid(o.catalog)
  {
    if !VerifyAdmin(userId, fetchedRole) then Outcome(403, None, c)
    else if id !in c.mains then Outcome(404, None, c)
    else Outcome(200, None, Catalog(c.mains - {id}, SubsOutside(c.subs, id)))
  }

  method DeleteMainCategory(db: CatalogDb, userId: Option<Id>, fetchedRole: Option<string>, id: Id) returns (code: int)
    requires Valid(db.State())
    modifies db
    ensures Outcome(code, None, db.State()) == DeleteMainCategoryResult(old(db.State()), userId, fetchedRole, id)
  {
    if !VerifyAdmin(userId, fetchedRole) {
      return 403;
    }
    if id !in db.mains {
      return 404;
    }
    db.mains := db.mains - {id};
    db.subs := SubsOutside(db.subs, id);
    return 200;
  }

  function IsActiveSub(s: SubCategory): bool {
    s.isActive
  }

  /** `getSubCategoriesByMainCategory`: the active sub-categories of one main category, by name ascending. */
  ghost function GetSubCategories(subs: map<Id, SubCategory>, mainId: Id): (r: seq<Id>)
    ensures forall id :: id in r <==> id in subs && subs[id].mainCategoryId == mainId && subs[id].isActive
    ensures forall i, j :: 0 <= i < j < |r| ==> r[i] != r[j]
    ensures forall i, j :: 0 <= i < j < |r| ==> LexLe(subs[r[i]].name, subs[r[j]].name)
  {
    NameOrdersArePreorders();
    var mine := Where(subs, (s: SubCategory) => s.mainCategoryId == mainId && s.isActive);
    var r := OrderBy(mine, SubNameLe);
    assert forall i :: 0 <= i < |r| ==> mine[r[i]] == subs[r[i]];
    r
  }

  /** The sub-category with that pair, if any; the unique constraint makes it the only one. */
  function FindPair(subs: map<Id, SubCategory>, mainId: Id, name: string): (r: Option<Id>)
    requires UniquePairs(subs)
    ensures r.Some? ==> r.value in subs && subs[r.value].mainCategoryId == mainId && subs[r.value].name == name
    ensures r.Some? ==> forall s :: s in subs && subs[s].mainCategoryId == mainId && subs[s].name == name ==> s == r.value
    ensures r.None? <==> forall s :: s in subs ==> subs[s].mainCategoryId != mainId || subs[s].name != name
  {
    if exists s :: s in subs && subs[s].mainCategoryId == mainId && subs[s].name == name then
      var s :| s in subs && subs[s].mainCategoryId == mainId && subs[s].name == name;
      Some(s)
    else None
  }

  /**
   * `createSubCategory`, open to every caller: 400 for a blank name;
   * otherwise the pair (main category, trimmed name) is inserted as active
   * with 201, or, when the pair exists, nothing is inserted and the existing
   * row comes back with 200. An unknown main category fails the foreign key
   * (500).
   */
  function CreateSubCategoryResult(c: Catalog, mainId: Id, name: Option<string>, freshId: Id): (o: Outcome)
    requires Valid(c)
    ensures o.code in {200, 201, 400, 500}
    ensures o.code == 400 <==> MissingOrBlank(name)
    ensures o.code == 200 <==> !MissingOrBlank(name) && FindPair(c.subs, mainId, Trim(name.value)).Some?
    ensures o.code == 500 <==> !MissingOrBlank(name) && FindPair(c.subs, mainId, Trim(name.value)).None?
                               && (mainId !in c.mains || freshId in c.subs)
    ensures o.code != 201 ==> o.catalog == c
    ensures o.code == 200 ==> o.id == FindPair(c.subs, mainId, Trim(name.value))
    ensures o.code == 201 ==>
      && o.id == Some(freshId) && freshId !in c.subs
      && o.catalog == c.(subs := c.subs[freshId := SubCategory(mainId, Trim(name.value), true)])
    ensures Valid(o.catalog)
  {
    if MissingOrBlank(name) then Outcome(400, None, c)
    else
      var trimmed := Trim(name.value);
      var existing := FindPair(c.subs, mainId, trimmed);
      if existing.Some? then Outcome(200, existing, c)
      else if mainId !in c.mains || freshId in c.subs then Outcome(500, None, c)
      else Outcome(201, Some(freshId), c.(subs := c.subs[freshId := SubCategory(mainId, trimmed, true)]))
  }

  method CreateSubCategory(db: CatalogDb, mainId: Id, name: Option<string>, freshId: Id) returns (code: int, id: Option<Id>)
    requires Valid(db.State())
    modifies db`subs
    ensures Outcome(code, id, db.State()) == CreateSubCategoryResult(old(db.State()), mainId, name, freshId)
  {
    if MissingOrBlank(name) {
      return 400, None;
    }
    var trimmed := Trim(name.value);
    if mainId in db.mains && FindPair(db.subs, mainId, trimmed).None? && freshId !in db.subs {
      db.subs := db.subs[freshId := SubCategory(mainId, trimmed, true)];
      return 201, Some(freshId);
    }
    var existing := FindPair(db.subs, mainId, trimmed);
    if existing.Some? {
      return 200, existing;
    }
    return 500, None;
  }

  /** Asking again for a sub-category, with any surrounding whitespace, returns the row made the first time. */
  lemma SubCategoryCreatedOnce(c: Catalog, mainId: Id, name: string, other: string, id1: Id, id2: Id)
    requires Valid(c) && Trim(other) == Trim(name)
    requires CreateSubCategoryResult(c, mainId, Some(name), id1).code == 201
    ensures var c1 := CreateSubCategoryResult(c, mainId, Some(name), id1).catalog;
      var o2 := CreateSubCategoryResult(c1, mainId, Some(other), id2);
      o2.code == 200 && o2.id == Some(id1) && o2.catalog == c1
  {
    var c1 := CreateSubCategoryResult(c, mainId, Some(name), id1).catalog;
    assert c1.subs[id1].mainCategoryId == mainId && c1.subs[id1].name == Trim(other);
  }
}
