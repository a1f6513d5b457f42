/** The product catalogue (backend/src/controllers/productController.ts):
    creation with a generated SKU and an initial status, approval and
    rejection by the super admin with notifications to the staff of every
    location that stocks the product, the filtered list, update and the soft
    delete. */
module ProductController {
  import opened Optional
  import opened JsText
  import opened Domain
  import opened QueryHelpers
  import opened Database
  import opened Paging
  import opened Sku

  const PendingProductsLink := "/dashboard/superadmin/products?tab=pending"
  const StoreProductsLink := "/dashboard/store/products"
  const PendingStoreProductsLink := "/dashboard/store/products?tab=pending"

  /** The JSON body of a create or update. */
  datatype ProductBody = ProductBody(
    name: Option<string>, category: Option<string>, mainCategory: Option<string>, unit: Option<string>,
    description: Option<string>, price: JsVal, defaultMinStock: JsVal, status: Option<string>,
    locationId: JsVal)

  /** The initial status of a new product. */
  function InitialStatus(role: Role, status: Option<string>, locationId: JsVal): string {
    if !Truthy(locationId) then TextOr(status, "ACTIVE")
    else if role == SuperAdmin then TextOr(status, "APPROVED")
    else "PENDING_APPROVAL"
  }

  /** A new product awaits approval exactly when a caller other than the super
      admin assigns it to a location, or when the caller asks for that status. */
  lemma PendingIffAssignedByStaff(role: Role, status: Option<string>, locationId: JsVal)
    ensures InitialStatus(role, status, locationId) == "PENDING_APPROVAL" <==>
            (Truthy(locationId) && role != SuperAdmin) || status == Some("PENDING_APPROVAL")
    ensures !Truthy(locationId) && !TruthyText(status) ==> InitialStatus(role, status, locationId) == "ACTIVE"
    ensures Truthy(locationId) && role == SuperAdmin && !TruthyText(status) ==>
              InitialStatus(role, status, locationId) == "APPROVED"
  {
  }

  /** `defaultMinStock ? parseInt(defaultMinStock) : 0`; None is NaN, which the
      insert refuses. */
  function MinStock(v: JsVal): Option<int> {
    if Truthy(v) then ParseJs(v) else Some(0)
  }

  function BodyPrice(v: JsVal): Price {
    if Truthy(v) then ParsedPrice(v) else ZeroPrice
  }

  /** The row `createProduct` inserts. */
  function NewProduct(b: ProductBody, sku: string, status: string, minStock: int): Product
    requires b.name.Some? && b.category.Some? && b.unit.Some?
  {
    Product(b.name.value, sku, b.category.value, TextOr(b.mainCategory, "CONSUMABLE_GOODS"), b.unit.value,
            b.description, BodyPrice(b.price), minStock, status)
  }

  /** `location.managerId || location.engineerId`. */
  function ManagerOrEngineer(l: Location): (r: Option<int>)
    ensures TruthyInt(l.managerId) ==> r == l.managerId
    ensures !TruthyInt(l.managerId) ==> r == l.engineerId
  {
    if TruthyInt(l.managerId) then l.managerId else l.engineerId
  }

  /** The notifications of a product created at location `loc`: every super
      admin when it awaits approval, otherwise the location's manager (or its
      engineer) when it has one. */
  function CreationNotices(t: Tables, status: string, loc: int): seq<Event>
    requires loc in t.locations && t.nextUser >= 0
  {
    if status == "PENDING_APPROVAL" then Notices(AdminIds(t.users, t.nextUser), Info, PendingProductsLink)
    else
      var r := ManagerOrEngineer(t.locations[loc]);
      if TruthyInt(r) then [Notice(r.value, Success, StoreProductsLink)] else []
  }

  /** The SKU `createProduct` gives a new product of `category`: the
      generator as written, or the corrected one, over every existing SKU. */
  function NewSku(t: Tables, category: string, rev: Revision): string
    requires t.nextProduct >= 0
  {
    SkuByRevision(rev, category, Skus(t.products, t.nextProduct))
  }

  function SkuByRevision(rev: Revision, category: string, skus: seq<string>): string {
    match rev
    case AsWritten => GenerateSkuAsWritten(category, skus)
    case Corrected => GenerateSku(category, skus)
  }

  /** Some product already has the SKU; the SKU column is unique, so
      `product.create` then throws. */
  predicate SkuTaken(t: Tables, sku: string)
    requires t.nextProduct >= 0
  {
    sku in Skus(t.products, t.nextProduct)
  }

  /** No two products share a SKU. */
  predicate SkusUnique(products: map<int, Product>) {
    forall x, y :: x in products && y in products && products[x].sku == products[y].sku ==> x == y
  }

  /** The corrected SKU carries the category's prefix and belongs to no
      existing product, so the corrected handler never meets the conflict. */
  lemma CorrectedSkuIsFree(t: Tables, category: string)
    requires WellFormed(t)
    ensures SkuPrefix(CategoryCode(category)) <= NewSku(t, category, Corrected)
    ensures !SkuTaken(t, NewSku(t, category, Corrected))
    ensures forall k :: k in t.products ==> t.products[k].sku != NewSku(t, category, Corrected)
  {
    var skus := Skus(t.products, t.nextProduct);
    GeneratedSkuIsFresh(category, skus);
  }

  /** The tables after `product.create` of `p`. */
  function WithProduct(t: Tables, p: Product): Tables {
    t.(products := t.products[t.nextProduct := p], nextProduct := t.nextProduct + 1)
  }

  /** The tables after `inventory.create` of an empty record of `pid` at `loc`. */
  function WithEmptyRecord(t: Tables, loc: int, pid: int): Tables {
    t.(inventory := t.inventory[t.nextInventory := InventoryRecord(loc, pid, 0)], nextInventory := t.nextInventory + 1)
  }

  /** `createProduct`, given the SKU the generator picks (`NewSku`). The
      product insert fails on a minimum stock that does not parse or on a SKU
      that is taken; the product and its inventory record are written by two
      separate statements, so a failure of the second leaves the product. */
  function CreateOutcome(t: Tables, user: AuthUser, b: ProductBody, sku: string): Outcome
    requires WellFormed(t)
  {
    if !(TruthyText(b.name) && TruthyText(b.category) && TruthyText(b.unit)) then Outcome(BadRequest, t)
    else if MinStock(b.defaultMinStock).None? || SkuTaken(t, sku) then Outcome(ServerError, t)
    else
      var st := InitialStatus(user.role, b.status, b.locationId);
      var t1 := WithProduct(t, NewProduct(b, sku, st, MinStock(b.defaultMinStock).value));
      var loc := ParseJs(b.locationId);
      if !Truthy(b.locationId) then Outcome(Created, t1)
      else if loc.None? || loc.value !in t.locations then Outcome(ServerError, t1)
      else Outcome(Created, WithEmptyRecord(t1, loc.value, t.nextProduct).(events := t.events + CreationNotices(t1, st, loc.value)))
  }

  /** Once the required fields are present and the minimum stock parses, the
      product is written, whatever happens next: it gets the next id, the
      generated SKU, the body's fields with their defaults and its initial
      status, and no existing product changes. */
  lemma CreatedProductIsNew(t: Tables, user: AuthUser, b: ProductBody, sku: string)
    requires WellFormed(t)
    requires TruthyText(b.name) && TruthyText(b.category) && TruthyText(b.unit) && MinStock(b.defaultMinStock).Some?
    requires !SkuTaken(t, sku)
    ensures var a := CreateOutcome(t, user, b, sku).after;
            && a.nextProduct == t.nextProduct + 1
            && a.products.Keys == t.products.Keys + {t.nextProduct}
            && (forall k :: k in t.products ==> a.products[k] == t.products[k])
            && var p := a.products[t.nextProduct];
               && p.sku == sku && p.name == b.name.value && p.category == b.category.value && p.unit == b.unit.value
               && p.mainCategory == TextOr(b.mainCategory, "CONSUMABLE_GOODS")
               && p.defaultMinStock == (if Truthy(b.defaultMinStock) then ParseJs(b.defaultMinStock).value else 0)
               && p.status == InitialStatus(user.role, b.status, b.locationId)
  {
    var p := NewProduct(b, sku, InitialStatus(user.role, b.status, b.locationId), MinStock(b.defaultMinStock).value);
    var a := CreateOutcome(t, user, b, sku).after;
    assert a.products == t.products[t.nextProduct := p] && a.nextProduct == t.nextProduct + 1;
    WithProductAdds(t, p);
  }

  /** Inserting a product adds exactly the next id and leaves the rest. */
  lemma WithProductAdds(t: Tables, p: Product)
    requires WellFormed(t)
    ensures var a := WithProduct(t, p);
            && a.products.Keys == t.products.Keys + {t.nextProduct}
            && (forall k :: k in t.products ==> a.products[k] == t.products[k])
            && a.products[t.nextProduct] == p
  {
    assert t.nextProduct !in t.products;
  }

  /** With a location that exists the product also gets one empty inventory
      record there and the creation succeeds; with one that does not, or that
      does not parse, the product stays although the handler answers 500. */
  lemma CreatedRecord(t: Tables, user: AuthUser, b: ProductBody, sku: string)
    requires WellFormed(t)
    requires TruthyText(b.name) && TruthyText(b.category) && TruthyText(b.unit) && MinStock(b.defaultMinStock).Some?
    requires !SkuTaken(t, sku)
    ensures var o := CreateOutcome(t, user, b, sku);
            var loc := ParseJs(b.locationId);
            var st := InitialStatus(user.role, b.status, b.locationId);
            && (!Truthy(b.locationId) ==> o.status == Created && o.after.inventory == t.inventory && o.after.events == t.events)
            && (Truthy(b.locationId) && (loc.None? || loc.value !in t.locations) ==>
                  o.status == ServerError && o.after.nextProduct == t.nextProduct + 1 && o.after.inventory == t.inventory)
            && (Truthy(b.locationId) && loc.Some? && loc.value in t.locations ==>
                  o.status == Created
                  && o.after.inventory == t.inventory[t.nextInventory := InventoryRecord(loc.value, t.nextProduct, 0)]
                  && o.after.events == t.events + CreationNotices(t, st, loc.value))
  {
  }

  /** Creation fails before any write on a missing required field, an
      unparseable minimum stock or a SKU that is taken. */
  lemma CreateRejectsEarly(t: Tables, user: AuthUser, b: ProductBody, sku: string)
    requires WellFormed(t)
    requires !(TruthyText(b.name) && TruthyText(b.category) && TruthyText(b.unit))
             || (Truthy(b.defaultMinStock) && ParseJs(b.defaultMinStock).None?)
             || SkuTaken(t, sku)
    ensures CreateOutcome(t, user, b, sku).after == t
    ensures CreateOutcome(t, user, b, sku).status == (if TruthyText(b.name) && TruthyText(b.category) && TruthyText(b.unit)
                                                 then ServerError else BadRequest)
  {
  }

  /** Who hears of a product created at a location: all super admins and nobody
      else while it awaits approval; otherwise at most the location's contact. */
  lemma CreationNoticesReach(t: Tables, status: string, loc: int)
    requires loc in t.locations && t.nextUser >= 0
    ensures var es := CreationNotices(t, status, loc);
            && (status == "PENDING_APPROVAL" ==>
                  forall i :: 0 <= i < |es| ==>
                    es[i].Notice? && es[i].kind == Info && es[i].recipient in t.users && t.users[es[i].recipient].role == SuperAdmin)
            && (status != "PENDING_APPROVAL" ==>
                  |es| <= 1 && (|es| == 1 <==> TruthyInt(ManagerOrEngineer(t.locations[loc])))
                  && forall i :: 0 <= i < |es| ==> es[i] == Notice(ManagerOrEngineer(t.locations[loc]).value, Success, StoreProductsLink))
  {
    if status == "PENDING_APPROVAL" {
      var ids := AdminIds(t.users, t.nextUser);
      AdminIdsAreTheAdmins(t.users, t.nextUser);
      var es := CreationNotices(t, status, loc);
      forall i | 0 <= i < |es|
        ensures es[i].Notice? && es[i].recipient in t.users && t.users[es[i].recipient].role == SuperAdmin
      {
        assert es[i].recipient == ids[i];
        assert ids[i] in ids;
      }
    }
  }

  /** Writing a new product keeps the database well formed. */
  lemma WithProductWellFormed(t: Tables, p: Product)
    requires WellFormed(t)
    ensures WellFormed(WithProduct(t, p))
  {
  }

  /** An empty record of the newest product at an existing location keeps the
      database well formed. */
  lemma WithEmptyRecordWellFormed(t: Tables, p: Product, loc: int)
    requires WellFormed(t) && loc in t.locations
    ensures WellFormed(WithEmptyRecord(WithProduct(t, p), loc, t.nextProduct))
  {
    FreshProductHasNoSlot(t, loc);
    var t2 := WithEmptyRecord(WithProduct(t, p), loc, t.nextProduct);
    var inv := t2.inventory;
    forall x, y | x in inv && y in inv && AtSlot(inv[x], inv[y].locationId, inv[y].productId) ensures x == y {
      if x != y && (x == t.nextInventory || y == t.nextInventory) {
        var k := if x == t.nextInventory then y else x;
        assert k in t.inventory && AtSlot(t.inventory[k], loc, t.nextProduct);
      }
    }
  }

  /** Every outcome of a creation leaves the database well formed. */
  lemma CreateOutcomeWellFormed(t: Tables, user: AuthUser, b: ProductBody, sku: string)
    requires WellFormed(t)
    ensures WellFormed(CreateOutcome(t, user, b, sku).after)
  {
    if TruthyText(b.name) && TruthyText(b.category) && TruthyText(b.unit) && MinStock(b.defaultMinStock).Some? {
      var st := InitialStatus(user.role, b.status, b.locationId);
      var p := NewProduct(b, sku, st, MinStock(b.defaultMinStock).value);
      WithProductWellFormed(t, p);
      var loc := ParseJs(b.locationId);
      if Truthy(b.locationId) && loc.Some? && loc.value in t.locations {
        WithEmptyRecordWellFormed(t, p, loc.value);
      }
    }
  }

  /** Every creation keeps SKUs unique, whichever SKU it is given: a taken
      one is refused by the insert. */
  lemma CreateKeepsSkusUnique(t: Tables, user: AuthUser, b: ProductBody, sku: string)
    requires WellFormed(t) && SkusUnique(t.products)
    ensures SkusUnique(CreateOutcome(t, user, b, sku).after.products)
  {
    if TruthyText(b.name) && TruthyText(b.category) && TruthyText(b.unit) && MinStock(b.defaultMinStock).Some? && !SkuTaken(t, sku) {
      var p := NewProduct(b, sku, InitialStatus(user.role, b.status, b.locationId), MinStock(b.defaultMinStock).value);
      assert CreateOutcome(t, user, b, sku).after.products == WithProduct(t, p).products;
      WithProductKeepsSkusUnique(t, p);
    }
  }

  /** Writing a product whose SKU is free keeps SKUs unique. */
  lemma WithProductKeepsSkusUnique(t: Tables, p: Product)
    requires WellFormed(t) && SkusUnique(t.products) && !SkuTaken(t, p.sku)
    ensures SkusUnique(WithProduct(t, p).products)
  {
    forall k | k in t.products ensures t.products[k].sku != p.sku {
      assert 0 <= k < t.nextProduct;
    }
    assert t.nextProduct !in t.products;
  }

  /** With SKUs 999 and 1000 of the category on file, the generator as written
      picks 1000 again, so `createProduct` answers 500 and writes nothing. */
  lemma CreateAfter999AsWritten(t: Tables, user: AuthUser, b: ProductBody, code: string)
    requires WellFormed(t)
    requires TruthyText(b.name) && TruthyText(b.category) && TruthyText(b.unit)
    requires code == CategoryCode(b.category.value)
    requires Skus(t.products, t.nextProduct) == [SkuOf(code, 999), SkuOf(code, 1000)]
    ensures CreateOutcome(t, user, b, NewSku(t, b.category.value, AsWritten)) == Outcome(ServerError, t)
  {
    DuplicateSkuAfter999(b.category.value);
    assert SkuTaken(t, NewSku(t, b.category.value, AsWritten));
  }

  /** There the corrected generator picks 1001 and the product is written. */
  lemma CreateAfter999Corrected(t: Tables, user: AuthUser, b: ProductBody, code: string)
    requires WellFormed(t)
    requires TruthyText(b.name) && TruthyText(b.category) && TruthyText(b.unit) && MinStock(b.defaultMinStock).Some?
    requires code == CategoryCode(b.category.value)
    requires Skus(t.products, t.nextProduct) == [SkuOf(code, 999), SkuOf(code, 1000)]
    ensures var a := CreateOutcome(t, user, b, NewSku(t, b.category.value, Corrected)).after;
            t.nextProduct in a.products && a.products[t.nextProduct].sku == SkuOf(code, 1001)
  {
    var c := b.category.value;
    var sku := NewSku(t, c, Corrected);
    CorrectedAfter999(c);
    assert sku == SkuOf(code, 1001);
    CorrectedSkuIsFree(t, c);
    WrittenSku(t, user, b, sku);
  }

  /** A creation that writes the product writes it with the SKU it is given. */
  lemma WrittenSku(t: Tables, user: AuthUser, b: ProductBody, sku: string)
    requires WellFormed(t)
    requires TruthyText(b.name) && TruthyText(b.category) && TruthyText(b.unit) && MinStock(b.defaultMinStock).Some?
    requires !SkuTaken(t, sku)
    ensures var a := CreateOutcome(t, user, b, sku).after;
            t.nextProduct in a.products && a.products[t.nextProduct].sku == sku
  {
    CreatedProductIsNew(t, user, b, sku);
  }

  /** `createProduct`, run against the database, with the SKU generator as
      written or corrected. */
  method CreateProduct(db: Db, user: AuthUser, b: ProductBody, rev: Revision) returns (status: Status, sku: string)
    requires db.Valid()
    modifies db
    ensures db.Valid()
    ensures TruthyText(b.name) && TruthyText(b.category) && TruthyText(b.unit) ==> sku == NewSku(old(db.State()), b.category.value, rev)
    ensures Outcome(status, db.State()) == CreateOutcome(old(db.State()), user, b, sku)
  {
    if !(TruthyText(b.name) && TruthyText(b.category) && TruthyText(b.unit)) {
      return BadRequest, "";
    }
    var skus := db.AllSkus();
    sku := SkuByRevision(rev, b.category.value, skus);
    status := WriteProduct(db, user, b, sku, skus);
  }

  /** `createProduct` once the required fields are present and the SKU is
      picked: the product insert, then the inventory record and notifications. */
  method WriteProduct(db: Db, user: AuthUser, b: ProductBody, sku: string, skus: seq<string>) returns (status: Status)
    requires db.Valid() && skus == Skus(db.products, db.nextProduct)
    requires TruthyText(b.name) && TruthyText(b.category) && TruthyText(b.unit)
    modifies db
    ensures db.Valid()
    ensures Outcome(status, db.State()) == CreateOutcome(old(db.State()), user, b, sku)
  {
    ghost var t := db.State();
    var minStock := MinStock(b.defaultMinStock);
    if minStock.None? || sku in skus {
      return ServerError;
    }
    var st := InitialStatus(user.role, b.status, b.locationId);
    var pid := db.nextProduct;
    ghost var p := NewProduct(b, sku, st, minStock.value);
    db.InsertProduct(NewProduct(b, sku, st, minStock.value));
    assert db.State() == WithProduct(t, p);
    if !Truthy(b.locationId) {
      return Created;
    }
    var loc := ParseJs(b.locationId);
    if loc.None? || loc.value !in db.locations {
      return ServerError;
    }
    FreshProductHasNoSlot(t, loc.value);
    StockNewProduct(db, loc.value, pid, st);
    return Created;
  }

  /** The second half of `createProduct`: the empty record of the product just
      inserted at `loc`, then its notifications. */
  method StockNewProduct(db: Db, loc: int, pid: int, status: string)
    requires db.Valid() && loc in db.locations && pid in db.products && !HasSlot(db.inventory, loc, pid)
    modifies db
    ensures db.Valid()
    ensures db.State() == WithEmptyRecord(old(db.State()), loc, pid).(
              events := old(db.events) + CreationNotices(old(db.State()), status, loc))
  {
    db.InsertRecord(loc, pid, 0);
    if status == "PENDING_APPROVAL" {
      db.NotifyAdmins(Info, PendingProductsLink);
    } else {
      var r := ManagerOrEngineer(db.locations[loc]);
      if TruthyInt(r) {
        db.Append([Notice(r.value, Success, StoreProductsLink)]);
      }
    }
  }

  /** The contacts of a list of locations, null ones dropped. */
  function Recipients(locs: seq<int>, locations: map<int, Location>): (r: seq<int>)
    requires forall i :: 0 <= i < |locs| ==> locs[i] in locations
    ensures forall x :: x in r <==> exists l :: l in locs && ManagerOrEngineer(locations[l]) == Some(x)
  {
    if |locs| == 0 then []
    else
      var rest := Recipients(locs[1..], locations);
      var c := ManagerOrEngineer(locations[locs[0]]);
      assert forall l :: l in locs <==> l == locs[0] || l in locs[1..];
      (if c.Some? then [c.value] else []) + rest
  }

  predicate Distinct(xs: seq<int>) {
    forall i, j :: 0 <= i < j < |xs| ==> xs[i] != xs[j]
  }

  /** `[...new Set(xs)]`: each value once, at its first occurrence. */
  function Dedup(xs: seq<int>): (d: seq<int>)
    ensures forall x :: x in d <==> x in xs
    ensures Distinct(d)
    ensures |d| <= |xs|
  {
    if |xs| == 0 then []
    else
      var prev := Dedup(xs[..|xs| - 1]);
      var x := xs[|xs| - 1];
      assert forall y :: y in xs <==> y in xs[..|xs| - 1] || y == x;
      if x in prev then prev else prev + [x]
  }

  /** A list without repeats is its own de-duplication. */
  lemma {:induction false} DedupOfDistinct(xs: seq<int>)
    requires Distinct(xs)
    ensures Dedup(xs) == xs
  {
    if |xs| > 0 {
      var init := xs[..|xs| - 1];
      assert Distinct(init);
      DedupOfDistinct(init);
      assert xs[|xs| - 1] !in init;
      assert init + [xs[|xs| - 1]] == xs;
    }
  }

  /** Every location of a product's records exists in a well-formed database. */
  lemma RecordLocationsExist(t: Tables, pid: int)
    requires WellFormed(t)
    ensures forall i :: 0 <= i < |RecordLocations(t.inventory, pid, t.nextInventory)| ==>
              RecordLocations(t.inventory, pid, t.nextInventory)[i] in t.locations
  {
    var locs := RecordLocations(t.inventory, pid, t.nextInventory);
    forall i | 0 <= i < |locs| ensures locs[i] in t.locations {
      assert locs[i] in locs;
    }
  }

  /** The users told about a decision on product `pid`. */
  function DecisionRecipients(t: Tables, pid: int): seq<int>
    requires WellFormed(t)
  {
    RecordLocationsExist(t, pid);
    Dedup(Recipients(RecordLocations(t.inventory, pid, t.nextInventory), t.locations))
  }

  /** The recipients are exactly the contacts of the locations that hold a
      record of the product, each once. */
  lemma DecisionRecipientsAreContacts(t: Tables, pid: int)
    requires WellFormed(t)
    ensures var r := DecisionRecipients(t, pid);
            && Distinct(r)
            && forall x :: x in r <==> exists k :: k in t.inventory && t.inventory[k].productId == pid
                                                  && ManagerOrEngineer(t.locations[t.inventory[k].locationId]) == Some(x)
  {
    var locs := RecordLocations(t.inventory, pid, t.nextInventory);
    forall x ensures x in DecisionRecipients(t, pid) <==>
                     exists k :: k in t.inventory && t.inventory[k].productId == pid
                                 && ManagerOrEngineer(t.locations[t.inventory[k].locationId]) == Some(x)
    {
      if x in DecisionRecipients(t, pid) {
        var l :| l in locs && ManagerOrEngineer(t.locations[l]) == Some(x);
        var k :| 0 <= k < t.nextInventory && k in t.inventory && AtSlot(t.inventory[k], l, pid);
      }
      if exists k :: k in t.inventory && t.inventory[k].productId == pid
                     && ManagerOrEngineer(t.locations[t.inventory[k].locationId]) == Some(x) {
        var k :| k in t.inventory && t.inventory[k].productId == pid
                 && ManagerOrEngineer(t.locations[t.inventory[k].locationId]) == Some(x);
        assert t.inventory[k].locationId in locs;
      }
    }
  }

  /** `approveProduct` / `rejectProduct`: the new status, and the kind and link
      of the notification each recipient gets. */
  function DecisionOutcome(t: Tables, user: AuthUser, id: JsVal, newStatus: string, kind: NoticeKind, link: string): Outcome
    requires WellFormed(t)
  {
    var pid := ParseJs(id);
    if pid.None? then Outcome(BadRequest, t)
    else if user.role != SuperAdmin then Outcome(Forbidden, t)
    else if pid.value !in t.products then Outcome(ServerError, t)
    else
      Outcome(Ok, t.(products := t.products[pid.value := t.products[pid.value].(status := newStatus)],
                     events := t.events + Notices(DecisionRecipients(t, pid.value), kind, link)))
  }

  /** Only the super admin decides; a decision changes the product's status
      and nothing else of any table, and appends the notifications. */
  lemma DecisionChangesOnlyStatus(t: Tables, user: AuthUser, id: JsVal, newStatus: string, kind: NoticeKind, link: string)
    requires WellFormed(t)
    ensures var o := DecisionOutcome(t, user, id, newStatus, kind, link);
            && (o.status != Ok ==> o.after == t)
            && (user.role != SuperAdmin ==> o.status != Ok)
            && (o.status == Ok ==>
                  var pid := ParseJs(id).value;
                  && o.after.products.Keys == t.products.Keys
                  && o.after.products[pid].status == newStatus
                  && o.after.products[pid].(status := t.products[pid].status) == t.products[pid]
                  && (forall k :: k in t.products && k != pid ==> o.after.products[k] == t.products[k])
                  && o.after.inventory == t.inventory && o.after.locations == t.locations
                  && o.after.users == t.users && o.after.requests == t.requests
                  && o.after.events[..|t.events|] == t.events)
  {
    var o := DecisionOutcome(t, user, id, newStatus, kind, link);
    if o.status == Ok {
      var pid := ParseJs(id).value;
      var es := Notices(DecisionRecipients(t, pid), kind, link);
      assert o.after == t.(products := t.products[pid := t.products[pid].(status := newStatus)], events := t.events + es);
      assert (t.events + es)[..|t.events|] == t.events;
    }
  }

  /** The shared body of the two decision handlers. */
  method DecideProduct(db: Db, user: AuthUser, id: JsVal, newStatus: string, kind: NoticeKind, link: string)
    returns (status: Status)
    requires db.Valid()
    modifies db
    ensures db.Valid()
    ensures Outcome(status, db.State()) == DecisionOutcome(old(db.State()), user, id, newStatus, kind, link)
  {
    var pid := ParseJs(id);
    if pid.None? {
      return BadRequest;
    }
    if user.role != SuperAdmin {
      return Forbidden;
    }
    if pid.value !in db.products {
      return ServerError;
    }
    ghost var t := db.State();
    RecordLocationsExist(t, pid.value);
    var locs := db.ProductLocations(pid.value);
    var recipients := Dedup(Recipients(locs, db.locations));
    assert recipients == DecisionRecipients(t, pid.value);
    db.SetProduct(pid.value, db.products[pid.value].(status := newStatus));
    db.Append(Notices(recipients, kind, link));
    return Ok;
  }

  /** `approveProduct`. */
  method ApproveProduct(db: Db, user: AuthUser, id: JsVal) returns (status: Status)
    requires db.Valid()
    modifies db
    ensures db.Valid()
    ensures Outcome(status, db.State()) == DecisionOutcome(old(db.State()), user, id, "APPROVED", Success, StoreProductsLink)
  {
    status := DecideProduct(db, user, id, "APPROVED", Success, StoreProductsLink);
  }

  /** `rejectProduct`. */
  method RejectProduct(db: Db, user: AuthUser, id: JsVal) returns (status: Status)
    requires db.Valid()
    modifies db
    ensures db.Valid()
    ensures Outcome(status, db.State()) == DecisionOutcome(old(db.State()), user, id, "REJECTED", Warning, PendingStoreProductsLink)
  {
    status := DecideProduct(db, user, id, "REJECTED", Warning, PendingStoreProductsLink);
  }

  /** Whether a product passes the list filters of `getAllProducts`. */
  predicate Listed(p: Product, category: Option<string>, mainCategory: Option<string>, status: Option<string>, search: Option<string>) {
    && (TruthyText(category) ==> p.category == category.value)
    && (TruthyText(mainCategory) ==> p.mainCategory == mainCategory.value)
    && (TruthyText(status) ==> p.status == status.value)
    && (!TruthyText(status) ==> p.status == "ACTIVE" || p.status == "APPROVED")
    && (TruthyText(search) ==>
          Contains(p.name, search.value) || Contains(p.sku, search.value)
          || (p.description.Some? && Contains(p.description.value, search.value)))
  }

  /** The search condition over name, SKU and description. */
  lemma SearchHolds(p: Product, k: int, term: string)
    ensures Holds("OR", AnyContains(term, ["name", "sku", "description"]), ProductRow(k, p)) <==>
            Contains(p.name, term) || Contains(p.sku, term) || (p.description.Some? && Contains(p.description.value, term))
  {
    var row := ProductRow(k, p);
    var fs := ["name", "sku", "description"];
    assert row["name"] == StrV(p.name) && row["sku"] == StrV(p.sku);
    assert "description" in row <==> p.description.Some?;
    assert p.description.Some? ==> row["description"] == StrV(p.description.value);
    if Contains(p.name, term) {
      assert fs[0] in row && row[fs[0]].StrV? && Contains(row[fs[0]].s, term);
    } else if Contains(p.sku, term) {
      assert fs[1] in row && row[fs[1]].StrV? && Contains(row[fs[1]].s, term);
    } else if p.description.Some? && Contains(p.description.value, term) {
      assert fs[2] in row && row[fs[2]].StrV? && Contains(row[fs[2]].s, term);
    }
  }

  /** The keys `getAllProducts` sets: always the status, the others when given. */
  ghost predicate ProductFilterKeys(w: Where, category: Option<string>, mainCategory: Option<string>, search: Option<string>) {
    forall key :: key in w <==>
      (key == "status" || (key == "category" && TruthyText(category))
       || (key == "mainCategory" && TruthyText(mainCategory)) || (key == "OR" && TruthyText(search)))
  }

  /** A filter with exactly the keys `getAllProducts` sets selects exactly the
      listed products. */
  lemma ProductFilterSelects(w: Where, k: int, p: Product, category: Option<string>, mainCategory: Option<string>,
                             status: Option<string>, search: Option<string>)
    requires ProductFilterKeys(w, category, mainCategory, search)
    requires TruthyText(category) ==> w["category"] == Eq(StrV(category.value))
    requires TruthyText(mainCategory) ==> w["mainCategory"] == Eq(StrV(mainCategory.value))
    requires w["status"] == if TruthyText(status) then Eq(StrV(status.value)) else OneOf([StrV("ACTIVE"), StrV("APPROVED")])
    requires TruthyText(search) ==> w["OR"] == AnyContains(search.value, ["name", "sku", "description"])
    ensures Matches(w, ProductRow(k, p)) <==> Listed(p, category, mainCategory, status, search)
  {
    var row := ProductRow(k, p);
    assert "status" in row && "category" in row && "mainCategory" in row;
    assert row["status"] == StrV(p.status) && row["category"] == StrV(p.category) && row["mainCategory"] == StrV(p.mainCategory);
    if TruthyText(search) {
      SearchHolds(p, k, search.value);
    }
    RowFilterSelects(w, row, p, category, mainCategory, status, search);
  }

  /** The same over any row that shows the product's fields. */
  lemma RowFilterSelects(w: Where, row: Row, p: Product, category: Option<string>, mainCategory: Option<string>,
                         status: Option<string>, search: Option<string>)
    requires ProductFilterKeys(w, category, mainCategory, search)
    requires TruthyText(category) ==> w["category"] == Eq(StrV(category.value))
    requires TruthyText(mainCategory) ==> w["mainCategory"] == Eq(StrV(mainCategory.value))
    requires w["status"] == if TruthyText(status) then Eq(StrV(status.value)) else OneOf([StrV("ACTIVE"), StrV("APPROVED")])
    requires TruthyText(search) ==> w["OR"] == AnyContains(search.value, ["name", "sku", "description"])
    requires "status" in row && "category" in row && "mainCategory" in row
    requires row["status"] == StrV(p.status) && row["category"] == StrV(p.category) && row["mainCategory"] == StrV(p.mainCategory)
    requires TruthyText(search) ==>
               (Holds("OR", w["OR"], row) <==>
                Contains(p.name, search.value) || Contains(p.sku, search.value)
                || (p.description.Some? && Contains(p.description.value, search.value)))
    ensures Matches(w, row) <==> Listed(p, category, mainCategory, status, search)
  {
    MatchesProductKeys(w, row, category, mainCategory, search);
    assert Holds("status", w["status"], row) <==>
           (TruthyText(status) ==> p.status == status.value) && (!TruthyText(status) ==> p.status == "ACTIVE" || p.status == "APPROVED");
  }

  /** A filter with the keys of `getAllProducts` holds when the condition under
      each key it has holds. */
  lemma MatchesProductKeys(w: Where, row: Row, category: Option<string>, mainCategory: Option<string>, search: Option<string>)
    requires ProductFilterKeys(w, category, mainCategory, search)
    ensures Matches(w, row) <==>
            && Holds("status", w["status"], row)
            && (TruthyText(category) ==> Holds("category", w["category"], row))
            && (TruthyText(mainCategory) ==> Holds("mainCategory", w["mainCategory"], row))
            && (TruthyText(search) ==> Holds("OR", w["OR"], row))
  {
  }

  /** The `where` object of `getAllProducts`, built key by key: each filter
      that is given, and the status, which defaults to ACTIVE or APPROVED. */
  function ProductWhere(category: Option<string>, mainCategory: Option<string>, status: Option<string>,
                        search: Option<string>): Where
  {
    var w0: Where := map[];
    var w1 := if TruthyText(category) then w0["category" := Eq(StrV(category.value))] else w0;
    var w2 := if TruthyText(mainCategory) then w1["mainCategory" := Eq(StrV(mainCategory.value))] else w1;
    var w3 := w2["status" := if TruthyText(status) then Eq(StrV(status.value)) else OneOf([StrV("ACTIVE"), StrV("APPROVED")])];
    if TruthyText(search) then w3["OR" := AnyContains(search.value, ["name", "sku", "description"])] else w3
  }

  /** The filter has the status key and each given filter's key, with the
      condition the handler writes there, and no NaN. */
  lemma ProductWhereHas(category: Option<string>, mainCategory: Option<string>, status: Option<string>, search: Option<string>)
    ensures var w := ProductWhere(category, mainCategory, status, search);
            && ProductFilterKeys(w, category, mainCategory, search)
            && (TruthyText(category) ==> w["category"] == Eq(StrV(category.value)))
            && (TruthyText(mainCategory) ==> w["mainCategory"] == Eq(StrV(mainCategory.value)))
            && w["status"] == (if TruthyText(status) then Eq(StrV(status.value)) else OneOf([StrV("ACTIVE"), StrV("APPROVED")]))
            && (TruthyText(search) ==> w["OR"] == AnyContains(search.value, ["name", "sku", "description"]))
            && !HasNaN(w)
  {
    var w := ProductWhere(category, mainCategory, status, search);
    assert w.Keys == {"status"} + (if TruthyText(category) then {"category"} else {})
                     + (if TruthyText(mainCategory) then {"mainCategory"} else {}) + (if TruthyText(search) then {"OR"} else {});
  }

  /** `getAllProducts`: the filter built key by key, then 500 for a negative
      skip, otherwise the products it selects (the page slice of them is not
      modelled) and the pagination block. */
  method GetAllProducts(db: Db, page: JsVal, limit: JsVal, category: Option<string>, mainCategory: Option<string>,
                        status: Option<string>, search: Option<string>)
    returns (answer: Status, w: Where, ids: set<int>, pg: Pagination)
    requires db.Valid()
    ensures answer == Ok || answer == ServerError
    ensures answer == ServerError <==> SkipRefused(IntOr(page, 1), IntOr(limit, 20))
    ensures answer == ServerError ==> ids == {}
    ensures "status" in w
    ensures !TruthyText(status) ==> w["status"] == OneOf([StrV("ACTIVE"), StrV("APPROVED")])
    ensures !HasNaN(w)
    ensures answer == Ok ==> forall k :: k in ids <==> k in db.products && Listed(db.products[k], category, mainCategory, status, search)
    ensures answer == Ok ==> pg.page == IntOr(page, 1) && pg.limit == IntOr(limit, 20) && pg.total == |ids|
    ensures answer == Ok ==> pg.totalPages == CeilDiv(|ids|, pg.limit)
  {
    var pageNo := IntOr(page, 1);
    var size := IntOr(limit, 20);
    w := ProductWhere(category, mainCategory, status, search);
    ProductWhereHas(category, mainCategory, status, search);
    if SkipRefused(pageNo, size) {
      return ServerError, w, {}, Pagination(0, 0, 0, None);
    }
    ids := Selected(db.products, w, ProductRow);
    forall k | k in db.products
      ensures Matches(w, ProductRow(k, db.products[k])) <==> Listed(db.products[k], category, mainCategory, status, search)
    {
      ProductFilterSelects(w, k, db.products[k], category, mainCategory, status, search);
    }
    answer := Ok;
    pg := Pagination(pageNo, size, |ids|, CeilDiv(|ids|, size));
  }

  /** The fields of `updateProduct`: an absent field is left alone, and so are a
      falsy price and a falsy minimum stock. */
  function Patched(p: Product, b: ProductBody): Product
    requires MinStock(b.defaultMinStock).Some?
  {
    Product(
      if b.name.Some? then b.name.value else p.name,
      p.sku,
      if b.category.Some? then b.category.value else p.category,
      if b.mainCategory.Some? then b.mainCategory.value else p.mainCategory,
      if b.unit.Some? then b.unit.value else p.unit,
      if b.description.Some? then b.description else p.description,
      if Truthy(b.price) then ParsedPrice(b.price) else p.price,
      if Truthy(b.defaultMinStock) then MinStock(b.defaultMinStock).value else p.defaultMinStock,
      if b.status.Some? then b.status.value else p.status)
  }

  /** An update never changes the SKU, keeps price and minimum stock when they
      are given falsy, and applying the same update twice is applying it once. */
  lemma PatchedProperties(p: Product, b: ProductBody)
    requires MinStock(b.defaultMinStock).Some?
    ensures Patched(p, b).sku == p.sku
    ensures !Truthy(b.price) ==> Patched(p, b).price == p.price
    ensures !Truthy(b.defaultMinStock) ==> Patched(p, b).defaultMinStock == p.defaultMinStock
    ensures Patched(Patched(p, b), b) == Patched(p, b)
    ensures (b.name.None? && b.category.None? && b.mainCategory.None? && b.unit.None? && b.description.None?
             && !Truthy(b.price) && !Truthy(b.defaultMinStock) && b.status.None?) ==> Patched(p, b) == p
  {
  }

  /** `updateProduct`. */
  method UpdateProduct(db: Db, id: JsVal, b: ProductBody) returns (status: Status)
    requires db.Valid()
    modifies db
    ensures db.Valid()
    ensures status != Ok ==> db.State() == old(db.State())
    ensures ParseJs(id).None? ==> status == BadRequest
    ensures ParseJs(id).Some? ==>
      var pid := ParseJs(id).value;
      && (MinStock(b.defaultMinStock).None? || pid !in old(db.products) ==> status == ServerError)
      && (MinStock(b.defaultMinStock).Some? && pid in old(db.products) ==>
            status == Ok && db.State() == old(db.State()).(products := old(db.products)[pid := Patched(old(db.products)[pid], b)]))
  {
    var pid := ParseJs(id);
    if pid.None? {
      return BadRequest;
    }
    if MinStock(b.defaultMinStock).None? || pid.value !in db.products {
      return ServerError;
    }
    db.SetProduct(pid.value, Patched(db.products[pid.value], b));
    return Ok;
  }

  /** The soft delete: only the status changes. */
  function Deactivated(p: Product): (q: Product)
    ensures q.status == "INACTIVE"
    ensures q.(status := p.status) == p
  {
    p.(status := "INACTIVE")
  }

  /** `deleteProduct`: the row and its inventory stay. */
  method DeleteProduct(db: Db, id: JsVal) returns (status: Status)
    requires db.Valid()
    modifies db
    ensures db.Valid()
    ensures status != Ok ==> db.State() == old(db.State())
    ensures ParseJs(id).None? ==> status == BadRequest
    ensures ParseJs(id).Some? && ParseJs(id).value !in old(db.products) ==> status == ServerError
    ensures ParseJs(id).Some? && ParseJs(id).value in old(db.products) ==>
      var pid := ParseJs(id).value;
      status == Ok && db.State() == old(db.State()).(products := old(db.products)[pid := Deactivated(old(db.products)[pid])])
  {
    var pid := ParseJs(id);
    if pid.None? {
      return BadRequest;
    }
    if pid.value !in db.products {
      return ServerError;
    }
    db.SetProduct(pid.value, Deactivated(db.products[pid.value]));
    return Ok;
  }
}
