/** The dashboard handlers (backend/src/controllers/dashboardController.ts):
    the super admin's counters, the location-scoped inventory overview and the
    filtered inventory list, whose filter applies the caller's location scope
    after the requested location and before the product filters. */
module DashboardController {
  import opened Optional
  import opened JsText
  import opened Domain
  import opened QueryHelpers
  import opened Database
  import opened Paging

  /** The `stats` object of `getSuperAdminStats`. */
  datatype Stats = Stats(
    totalStores: nat, totalSites: nat, totalProducts: nat,
    totalInventoryRecords: nat, totalInventoryQuantity: int, pendingRequests: nat)

  function LocationsOf(locations: map<int, Location>, kind: LocationType): set<int> {
    set k | k in locations && locations[k].kind == kind
  }

  /** `getSuperAdminStats`: the location counts per type, the ACTIVE products,
      the number of inventory records and their summed quantity (a null sum of
      no records is 0), and the PENDING requests. */
  function SuperAdminStats(t: Tables): (s: Stats)
    requires t.nextInventory >= 0
  {
    Stats(|LocationsOf(t.locations, Store)|, |LocationsOf(t.locations, Site)|,
          |set k | k in t.products && t.products[k].status == "ACTIVE"|,
          |t.inventory|, Stock(t, AllRecords),
          |set k | k in t.requests && t.requests[k].status == Pending|)
  }

  /** Every location is a store or a site, so the two counts add up to the
      number of locations; the product and request counts are bounded by their tables. */
  lemma StatsCounts(t: Tables)
    requires t.nextInventory >= 0
    ensures var s := SuperAdminStats(t);
            && s.totalStores + s.totalSites == |t.locations|
            && s.totalProducts <= |t.products| && s.pendingRequests <= |t.requests|
  {
    LocationsPartition(t.locations);
    SubsetSize((set k | k in t.products && t.products[k].status == "ACTIVE"), t.products.Keys);
    SubsetSize((set k | k in t.requests && t.requests[k].status == Pending), t.requests.Keys);
  }

  /** Approving a pending request takes it off the pending count and adds its
      quantity to the total stock; the location and product counts stay. */
  lemma StatsAfterApproval(t: Tables, id: int, approver: Option<int>)
    requires WellFormed(t) && id in t.requests && t.requests[id].status == Pending
    ensures var t2 := AfterApproval(t, id, approver);
            t2.nextInventory >= 0 &&
            var s, s2 := SuperAdminStats(t), SuperAdminStats(t2);
            && s2.pendingRequests == s.pendingRequests - 1
            && s2.totalInventoryQuantity == s.totalInventoryQuantity + t.requests[id].quantity
            && s2.totalStores == s.totalStores && s2.totalSites == s.totalSites
            && s2.totalProducts == s.totalProducts
  {
    var t2 := AfterApproval(t, id, approver);
    AfterApprovalStock(t, id, approver, AllRecords);
    var p := set k | k in t.requests && t.requests[k].status == Pending;
    var p2 := set k | k in t2.requests && t2.requests[k].status == Pending;
    assert p == p2 + {id} && id !in p2;
  }

  lemma LocationsPartition(locations: map<int, Location>)
    ensures |LocationsOf(locations, Store)| + |LocationsOf(locations, Site)| == |locations|
  {
    var a, b := LocationsOf(locations, Store), LocationsOf(locations, Site);
    forall k | k in locations ensures k in a + b {
      assert locations[k].kind == Store || locations[k].kind == Site;
    }
    assert a + b == locations.Keys;
    assert a !! b;
  }

  lemma SubsetSize(a: set<int>, b: set<int>)
    requires a <= b
    ensures |a| <= |b|
  {
    assert b == a + (b - a);
  }

  lemma {:induction false} TotalOfNonNegative(inv: map<int, InventoryRecord>, s: Scope, n: nat)
    requires forall k :: k in inv ==> inv[k].quantity >= 0
    ensures Total(inv, s, n) >= 0
  {
    if n > 0 {
      TotalOfNonNegative(inv, s, n - 1);
    }
  }

  lemma {:induction false} TotalOfEmpty(inv: map<int, InventoryRecord>, s: Scope, n: nat)
    requires inv == map[]
    ensures Total(inv, s, n) == 0
  {
    if n > 0 {
      TotalOfEmpty(inv, s, n - 1);
    }
  }

  /** With no negative record the summed quantity is not negative, and with no
      record at all it is 0. */
  lemma StatsQuantity(t: Tables)
    requires t.nextInventory >= 0
    ensures (forall k :: k in t.inventory ==> t.inventory[k].quantity >= 0) ==> SuperAdminStats(t).totalInventoryQuantity >= 0
    ensures t.inventory == map[] ==> SuperAdminStats(t).totalInventoryQuantity == 0 && SuperAdminStats(t).totalInventoryRecords == 0
  {
    if forall k :: k in t.inventory ==> t.inventory[k].quantity >= 0 {
      TotalOfNonNegative(t.inventory, AllRecords, t.nextInventory);
    }
    if t.inventory == map[] {
      TotalOfEmpty(t.inventory, AllRecords, t.nextInventory);
    }
  }

  /** An inventory row as the filter sees it. */
  function RecordRow(t: Tables, k: int): Row
    requires k in t.inventory
  {
    InventoryRow(t.products, t.locations, k, t.inventory[k])
  }

  /** `getInventoryOverview`: the records the scoped filter of an empty base selects. */
  function InventoryOverview(t: Tables, user: AuthUser): set<int> {
    Selected(t.inventory, LocationScopedWhere(user, map[]), (k, r) => InventoryRow(t.products, t.locations, k, r))
  }

  /** For the three known roles the overview holds exactly the records at the
      locations the access check grants; a caller of another role with a
      location sees every record, and without one sees none. */
  lemma OverviewIsAccess(t: Tables, user: AuthUser, k: int)
    requires WellFormed(t) && k in t.inventory
    ensures user.role != OtherRole ==>
              (k in InventoryOverview(t, user) <==> ValidateLocationAccess(user, t.inventory[k].locationId))
    ensures user.role == OtherRole ==> (k in InventoryOverview(t, user) <==> TruthyInt(user.locationId))
  {
    var row := InventoryRow(t.products, t.locations, k, t.inventory[k]);
    InventoryRowFields(t.products, t.locations, k, t.inventory[k]);
    var empty: Where := map[];
    if user.role == SuperAdmin {
      ScopedWhereOfAdmin(user, empty, row);
    } else if !TruthyInt(user.locationId) {
      ScopedWhereFailsClosed(user, empty, row);
    } else if IsManagerOrEngineer(user.role) {
      ScopedWhereConfines(user, empty, row);
      assert empty - {"locationId"} == empty;
    } else {
      ScopedWhereOfUnknownRole(user, empty, t.inventory[k].locationId);
    }
  }

  /** What a handler reads off a query value: whether it is truthy (`if (v)`)
      and what `parseInt(v)` makes of it. */
  datatype Param = Param(given: bool, parsed: Option<int>)

  function ParamOf(v: JsVal): (p: Param)
    ensures p.given <==> Truthy(v)
    ensures p.parsed == ParseJs(v)
  {
    Param(Truthy(v), ParseJs(v))
  }

  /** The location asked for: `storeId` when truthy, else `siteId`. */
  function RequestedLocation(storeId: JsVal, siteId: JsVal): JsVal {
    if Truthy(storeId) then storeId else if Truthy(siteId) then siteId else Undefined
  }

  function RequestedWhere(loc: Param): Where {
    if loc.given then map["locationId" := Eq(ParsedValue(loc.parsed))] else map[]
  }

  /** The requested location under the caller's scope. */
  function ScopedRequest(user: AuthUser, requested: Param): (w: Where)
    ensures w.Keys <= {"locationId", "id"}
  {
    LocationScopedWhere(user, RequestedWhere(requested))
  }

  /** `if (productId) where.productId = parseInt(productId)`. */
  function ProductStage(w: Where, productId: Param): (w': Where)
    ensures w'.Keys <= w.Keys + {"productId"}
  {
    if productId.given then w["productId" := Eq(ParsedValue(productId.parsed))] else w
  }

  /** `if (category) where.product = { category }`. */
  function CategoryStage(w: Where, category: Option<string>): (w': Where)
    ensures w'.Keys <= w.Keys + {"product"}
  {
    if TruthyText(category) then w["product" := Related("product.category", StrV(category.value))] else w
  }

  function SearchCond(term: string): Cond {
    AnyContains(term, ["product.name", "product.sku", "location.name"])
  }

  /** `if (search) where.OR = [...]` over the product's name and SKU and the location's name. */
  function SearchStage(w: Where, search: Option<string>): Where {
    if TruthyText(search) then w["OR" := SearchCond(search.value)] else w
  }

  /** The `where` of `getFilteredInventory`, in the order the handler builds it:
      the requested location, the caller's scope over it, then the product id,
      the category and the search. */
  function FilterWhere(user: AuthUser, requested: Param, productId: Param,
                       category: Option<string>, search: Option<string>): (w: Where)
    ensures IsManagerOrEngineer(user.role) && TruthyInt(user.locationId) ==>
              "locationId" in w && w["locationId"] == Eq(IntV(user.locationId.value))
  {
    SearchStage(CategoryStage(ProductStage(ScopedRequest(user, requested), productId), category), search)
  }

  /** Which locations the filter admits: for a super admin, and for a caller of
      another role that has a location, the requested one (any when none is
      asked for); for a manager or engineer with a location, only their own,
      whatever was asked for; for anybody else without a location, none. */
  predicate LocationWanted(user: AuthUser, requested: Param, loc: int) {
    if user.role == SuperAdmin || (user.role == OtherRole && TruthyInt(user.locationId)) then
      requested.given ==> requested.parsed == Some(loc)
    else TruthyInt(user.locationId) && loc == user.locationId.value
  }

  /** The search term occurs in the record's product name or SKU, or in its location's name. */
  predicate Found(products: map<int, Product>, locations: map<int, Location>, r: InventoryRecord, term: string) {
    (r.productId in products && (Contains(products[r.productId].name, term) || Contains(products[r.productId].sku, term)))
    || (r.locationId in locations && Contains(locations[r.locationId].name, term))
  }

  /** A record the filtered list is meant to hold, stated over the record and
      its product and location rather than over the filter. */
  predicate Wanted(products: map<int, Product>, locations: map<int, Location>, r: InventoryRecord, user: AuthUser,
                   requested: Param, productId: Param, category: Option<string>, search: Option<string>) {
    && LocationWanted(user, requested, r.locationId)
    && (productId.given ==> productId.parsed == Some(r.productId))
    && (TruthyText(category) ==> r.productId in products && products[r.productId].category == category.value)
    && (TruthyText(search) ==> Found(products, locations, r, search.value))
  }

  /** The location part of the filter selects the wanted locations. */
  lemma ScopedSelects(user: AuthUser, requested: Param, row: Row, loc: int)
    requires HasPositiveId(row) && "locationId" in row && row["locationId"] == IntV(loc)
    ensures Matches(ScopedRequest(user, requested), row) <==> LocationWanted(user, requested, loc)
  {
    var base := RequestedWhere(requested);
    if requested.given {
      assert Holds("locationId", base["locationId"], row) <==> requested.parsed == Some(loc);
    }
    if user.role == SuperAdmin {
      ScopedWhereOfAdmin(user, base, row);
    } else if !TruthyInt(user.locationId) {
      ScopedWhereFailsClosed(user, base, row);
    } else if IsManagerOrEngineer(user.role) {
      ScopedWhereConfines(user, base, row);
      assert base - {"locationId"} == map[];
    } else {
      ScopedWhereOfUnknownRole(user, base, loc);
    }
  }

  /** Adding a key the filter does not hold yet adds its condition. */
  lemma MatchesAfterAdd(w: Where, k: string, c: Cond, row: Row)
    requires k !in w
    ensures Matches(w[k := c], row) <==> Matches(w, row) && Holds(k, c, row)
  {
    MatchesAfterSet(w, k, c, row);
    assert w - {k} == w;
  }

  lemma ProductStageSelects(w: Where, productId: Param, row: Row, pid: int)
    requires "productId" !in w && "productId" in row && row["productId"] == IntV(pid)
    ensures Matches(ProductStage(w, productId), row) <==> Matches(w, row) && (productId.given ==> productId.parsed == Some(pid))
  {
    if productId.given {
      MatchesAfterAdd(w, "productId", Eq(ParsedValue(productId.parsed)), row);
    }
  }

  lemma CategoryStageSelects(w: Where, category: Option<string>, row: Row)
    requires "product" !in w
    ensures Matches(CategoryStage(w, category), row) <==>
            Matches(w, row) && (TruthyText(category) ==> "product.category" in row && row["product.category"] == StrV(category.value))
  {
    if TruthyText(category) {
      MatchesAfterAdd(w, "product", Related("product.category", StrV(category.value)), row);
    }
  }

  lemma SearchStageSelects(w: Where, search: Option<string>, row: Row)
    requires "OR" !in w
    ensures Matches(SearchStage(w, search), row) <==>
            Matches(w, row) && (TruthyText(search) ==> Holds("OR", SearchCond(search.value), row))
  {
    if TruthyText(search) {
      MatchesAfterAdd(w, "OR", SearchCond(search.value), row);
    }
  }

  /** The category condition over a record's row. */
  lemma CategoryHolds(t: Tables, k: int, cat: string)
    requires k in t.inventory
    ensures var r := t.inventory[k];
            ("product.category" in RecordRow(t, k) && RecordRow(t, k)["product.category"] == StrV(cat)) <==>
            (r.productId in t.products && t.products[r.productId].category == cat)
  {
  }

  /** The search condition over a record's row. */
  lemma SearchHolds(t: Tables, k: int, term: string)
    requires k in t.inventory
    ensures Holds("OR", SearchCond(term), RecordRow(t, k)) <==> Found(t.products, t.locations, t.inventory[k], term)
  {
    var r := t.inventory[k];
    var row := RecordRow(t, k);
    var fs := ["product.name", "product.sku", "location.name"];
    assert "product.name" in row <==> r.productId in t.products;
    assert "location.name" in row <==> r.locationId in t.locations;
    if r.productId in t.products {
      assert row["product.name"] == StrV(t.products[r.productId].name);
      assert row["product.sku"] == StrV(t.products[r.productId].sku);
      if Contains(t.products[r.productId].name, term) {
        assert fs[0] in row && row[fs[0]].StrV? && Contains(row[fs[0]].s, term);
      } else if Contains(t.products[r.productId].sku, term) {
        assert fs[1] in row && row[fs[1]].StrV? && Contains(row[fs[1]].s, term);
      }
    } else {
      assert "product.sku" !in row;
    }
    if r.locationId in t.locations {
      assert row["location.name"] == StrV(t.locations[r.locationId].name);
      if Contains(t.locations[r.locationId].name, term) {
        assert fs[2] in row && row[fs[2]].StrV? && Contains(row[fs[2]].s, term);
      }
    }
  }

  /** The filter selects exactly the wanted records. */
  lemma FilterSelects(t: Tables, k: int, user: AuthUser, requested: Param, productId: Param,
                      category: Option<string>, search: Option<string>)
    requires k in t.inventory && k >= 1
    ensures Matches(FilterWhere(user, requested, productId, category, search), RecordRow(t, k)) <==>
            Wanted(t.products, t.locations, t.inventory[k], user, requested, productId, category, search)
  {
    var r := t.inventory[k];
    var row := RecordRow(t, k);
    InventoryRowFields(t.products, t.locations, k, r);
    if TruthyText(category) {
      CategoryHolds(t, k, category.value);
    }
    if TruthyText(search) {
      SearchHolds(t, k, search.value);
    }
    StagesSelect(user, requested, productId, category, search, row, r.locationId, r.productId,
                 TruthyText(category) && r.productId in t.products && t.products[r.productId].category == category.value,
                 TruthyText(search) && Found(t.products, t.locations, r, search.value));
  }

  /** The four stages over any row that shows the record's location and
      product, given what the category and search conditions mean for it. */
  lemma StagesSelect(user: AuthUser, requested: Param, productId: Param, category: Option<string>, search: Option<string>,
                     row: Row, loc: int, pid: int, categoryOk: bool, searchOk: bool)
    requires HasPositiveId(row) && "locationId" in row && row["locationId"] == IntV(loc)
    requires "productId" in row && row["productId"] == IntV(pid)
    requires TruthyText(category) ==>
               (("product.category" in row && row["product.category"] == StrV(category.value)) <==> categoryOk)
    requires TruthyText(search) ==> (Holds("OR", SearchCond(search.value), row) <==> searchOk)
    ensures Matches(FilterWhere(user, requested, productId, category, search), row) <==>
            && LocationWanted(user, requested, loc)
            && (productId.given ==> productId.parsed == Some(pid))
            && (TruthyText(category) ==> categoryOk)
            && (TruthyText(search) ==> searchOk)
  {
    var w0 := ScopedRequest(user, requested);
    var w1 := ProductStage(w0, productId);
    var w2 := CategoryStage(w1, category);
    ScopedSelects(user, requested, row, loc);
    ProductStageSelects(w0, productId, row, pid);
    CategoryStageSelects(w1, category, row);
    SearchStageSelects(w2, search, row);
  }

  /** Adding a key the filter does not hold yet adds its NaN, if any. */
  lemma NaNAfterAdd(w: Where, k: string, c: Cond)
    requires k !in w
    ensures HasNaN(w[k := c]) <==> HasNaN(w) || CondHasNaN(c)
  {
    var w' := w[k := c];
    if HasNaN(w') && !CondHasNaN(c) {
      var j :| j in w' && CondHasNaN(w'[j]);
      assert j != k;
      assert j in w && CondHasNaN(w[j]);
    }
    if HasNaN(w) {
      var j :| j in w && CondHasNaN(w[j]);
      assert j != k;
      assert j in w' && CondHasNaN(w'[j]);
    }
    if CondHasNaN(c) {
      assert k in w' && CondHasNaN(w'[k]);
    }
  }

  /** The scoped request holds a NaN exactly when the requested location does
      not parse and the caller's scope does not replace it. */
  lemma ScopedNaN(user: AuthUser, requested: Param)
    ensures HasNaN(ScopedRequest(user, requested)) <==>
            requested.given && requested.parsed.None? && !(IsManagerOrEngineer(user.role) && TruthyInt(user.locationId))
  {
    var base := RequestedWhere(requested);
    var w := ScopedRequest(user, requested);
    assert HasNaN(base) <==> requested.given && requested.parsed.None? by {
      if requested.given {
        assert "locationId" in base;
      }
    }
    if user.role == SuperAdmin {
    } else if !TruthyInt(user.locationId) {
      NaNAfterAdd(base, "id", Eq(IntV(-1)));
    } else if IsManagerOrEngineer(user.role) {
      assert w == map["locationId" := Eq(IntV(user.locationId.value))];
    }
  }

  /** The filter holds a NaN, and the query throws, exactly when the product id
      does not parse, or the requested location does not parse and the caller's
      scope does not replace it. */
  lemma FilterNaN(user: AuthUser, requested: Param, productId: Param, category: Option<string>, search: Option<string>)
    ensures HasNaN(FilterWhere(user, requested, productId, category, search)) <==>
            (productId.given && productId.parsed.None?)
            || (requested.given && requested.parsed.None? && !(IsManagerOrEngineer(user.role) && TruthyInt(user.locationId)))
  {
    var w0 := ScopedRequest(user, requested);
    var w1 := ProductStage(w0, productId);
    var w2 := CategoryStage(w1, category);
    ScopedNaN(user, requested);
    if productId.given {
      NaNAfterAdd(w0, "productId", Eq(ParsedValue(productId.parsed)));
    }
    if TruthyText(category) {
      NaNAfterAdd(w1, "product", Related("product.category", StrV(category.value)));
    }
    if TruthyText(search) {
      NaNAfterAdd(w2, "OR", SearchCond(search.value));
    }
  }

  /** `page = '1'`, `limit = '50'`: the default replaces only a missing value. */
  function QueryOr(v: JsVal, fallback: string): JsVal {
    if v.Undefined? then Str(fallback) else v
  }

  /** `getFilteredInventory`: a NaN page, limit or filter value, or a negative
      skip (`page=0`, say), makes the query throw (500); otherwise the selected records (their page slice and order
      are not modelled) and the pagination block. */
  method GetFilteredInventory(db: Db, user: AuthUser, storeId: JsVal, siteId: JsVal, productId: JsVal,
                              category: Option<string>, search: Option<string>, page: JsVal, limit: JsVal)
    returns (status: Status, ids: set<int>, pg: Pagination)
    requires db.Valid()
    ensures status == Ok || status == ServerError
    ensures var requested, product := ParamOf(RequestedLocation(storeId, siteId)), ParamOf(productId);
            status == ServerError <==>
              ParseJs(QueryOr(page, "1")).None? || ParseJs(QueryOr(limit, "50")).None?
              || SkipRefused(ParseJs(QueryOr(page, "1")).value, ParseJs(QueryOr(limit, "50")).value)
              || HasNaN(FilterWhere(user, requested, product, category, search))
    ensures status == ServerError ==> ids == {}
    ensures var requested, product := ParamOf(RequestedLocation(storeId, siteId)), ParamOf(productId);
            status == Ok ==>
              forall k :: k in ids <==>
                k in db.inventory && Wanted(db.products, db.locations, db.inventory[k], user, requested, product, category, search)
    ensures status == Ok ==>
              var p, l := ParseJs(QueryOr(page, "1")).value, ParseJs(QueryOr(limit, "50")).value;
              pg == Pagination(p, l, |ids|, CeilDiv(|ids|, l))
  {
    var pageNum := ParseJs(QueryOr(page, "1"));
    var limitNum := ParseJs(QueryOr(limit, "50"));
    var requested, product := ParamOf(RequestedLocation(storeId, siteId)), ParamOf(productId);
    var w := FilterWhere(user, requested, product, category, search);
    if pageNum.None? || limitNum.None? || SkipRefused(pageNum.value, limitNum.value) || HasNaN(w) {
      return ServerError, {}, Pagination(0, 0, 0, None);
    }
    var products, locations := db.products, db.locations;
    ids := Selected(db.inventory, w, (k, r) => InventoryRow(products, locations, k, r));
    forall k | k in db.inventory
      ensures Matches(w, InventoryRow(products, locations, k, db.inventory[k])) <==>
              Wanted(products, locations, db.inventory[k], user, requested, product, category, search)
    {
      FilterSelects(db.State(), k, user, requested, product, category, search);
    }
    pg := Pagination(pageNum.value, limitNum.value, |ids|, CeilDiv(|ids|, limitNum.value));
    return Ok, ids, pg;
  }

  /** Whatever location is asked for, a manager or engineer with a location
      gets only records of their own location, and one without gets nothing:
      the scope always wins over the request. */
  lemma FilteredStaysInScope(t: Tables, r: InventoryRecord, user: AuthUser, requested: Param, productId: Param,
                             category: Option<string>, search: Option<string>)
    requires IsManagerOrEngineer(user.role)
    requires Wanted(t.products, t.locations, r, user, requested, productId, category, search)
    ensures TruthyInt(user.locationId) && r.locationId == user.locationId.value
    ensures ValidateLocationAccess(user, r.locationId)
  {
  }
}
