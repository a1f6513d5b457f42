/** The database the handlers work on: the location, user, product, inventory
    and inventory-request tables, the audit/notification entries, and the id
    counters that assign fresh autoincrement ids. */
module Database {
  import opened Optional
  import opened JsText
  import opened Domain
  import opened QueryHelpers

  /** A snapshot of every table. */
  datatype Tables = Tables(
    locations: map<int, Location>, users: map<int, User>, products: map<int, Product>,
    inventory: map<int, InventoryRecord>, requests: map<int, InventoryRequest>,
    events: seq<Event>,
    nextLocation: int, nextUser: int, nextProduct: int, nextInventory: int, nextRequest: int)

  /** What a handler answers and the tables it leaves behind. */
  datatype Outcome = Outcome(status: Status, after: Tables)

  predicate AtSlot(r: InventoryRecord, loc: int, pid: int) {
    r.locationId == loc && r.productId == pid
  }

  /** The unique index on (locationId, productId). */
  predicate SlotsUnique(inv: map<int, InventoryRecord>) {
    forall a, b :: a in inv && b in inv && AtSlot(inv[a], inv[b].locationId, inv[b].productId) ==> a == b
  }

  /** Some record holds product `pid` at location `loc`. */
  predicate HasSlot(inv: map<int, InventoryRecord>, loc: int, pid: int) {
    exists k :: k in inv && AtSlot(inv[k], loc, pid)
  }

  predicate KeysIn<T>(m: map<int, T>, next: int) {
    forall k :: k in m ==> 1 <= k < next
  }

  /** Every inventory record points at an existing location and product. */
  predicate InventoryLinked(t: Tables) {
    forall k :: k in t.inventory ==> t.inventory[k].locationId in t.locations && t.inventory[k].productId in t.products
  }

  /** The invariant every handler keeps: ids are below their counters, the
      inventory index is unique and its foreign keys resolve. */
  predicate WellFormed(t: Tables) {
    && t.nextLocation >= 1 && t.nextUser >= 1 && t.nextProduct >= 1 && t.nextInventory >= 1 && t.nextRequest >= 1
    && KeysIn(t.locations, t.nextLocation) && KeysIn(t.users, t.nextUser) && KeysIn(t.products, t.nextProduct)
    && KeysIn(t.inventory, t.nextInventory) && KeysIn(t.requests, t.nextRequest)
    && SlotsUnique(t.inventory) && InventoryLinked(t)
  }

  /** Which records an aggregate adds up. */
  datatype Scope = AllRecords | OfProduct(pid: int) | AtLocation(lid: int)

  predicate InScope(r: InventoryRecord, s: Scope) {
    match s
    case AllRecords => true
    case OfProduct(p) => r.productId == p
    case AtLocation(l) => r.locationId == l
  }

  function Contribution(inv: map<int, InventoryRecord>, s: Scope, k: int): int {
    if k in inv && InScope(inv[k], s) then inv[k].quantity else 0
  }

  /** The sum of the quantities of the records in scope with id below `n`. */
  function Total(inv: map<int, InventoryRecord>, s: Scope, n: nat): int {
    if n == 0 then 0 else Total(inv, s, n - 1) + Contribution(inv, s, n - 1)
  }

  /** The total of a scope over the whole table. */
  function Stock(t: Tables, s: Scope): int
    requires t.nextInventory >= 0
  {
    Total(t.inventory, s, t.nextInventory)
  }

  lemma {:induction false} TotalAgree(a: map<int, InventoryRecord>, b: map<int, InventoryRecord>, s: Scope, n: nat)
    requires forall k :: 0 <= k < n ==> Contribution(a, s, k) == Contribution(b, s, k)
    ensures Total(a, s, n) == Total(b, s, n)
  {
    if n > 0 {
      TotalAgree(a, b, s, n - 1);
    }
  }

  /** Overwriting one record below `n` changes the total by the difference of
      the two records' contributions. */
  lemma {:induction false} TotalAfterWrite(inv: map<int, InventoryRecord>, s: Scope, n: nat, id: int, r: InventoryRecord)
    requires 0 <= id < n
    ensures Total(inv[id := r], s, n)
         == Total(inv, s, n) - Contribution(inv, s, id) + (if InScope(r, s) then r.quantity else 0)
  {
    if id == n - 1 {
      TotalAgree(inv[id := r], inv, s, n - 1);
    } else {
      TotalAfterWrite(inv, s, n - 1, id, r);
    }
  }

  /** Inserting a record at the next fresh id adds its contribution. */
  lemma TotalAfterInsert(inv: map<int, InventoryRecord>, s: Scope, n: nat, r: InventoryRecord)
    ensures Total(inv[n := r], s, n + 1) == Total(inv, s, n) + (if InScope(r, s) then r.quantity else 0)
  {
    TotalAgree(inv[n := r], inv, s, n);
  }

  /** The result of "add q at (loc, pid), creating the record if absent": the
      new table and the new id counter. */
  datatype Upserted = Upserted(inv: map<int, InventoryRecord>, next: int)

  ghost function AddToSlot(inv: map<int, InventoryRecord>, next: int, loc: int, pid: int, q: int): Upserted {
    if HasSlot(inv, loc, pid) then
      var k :| k in inv && AtSlot(inv[k], loc, pid);
      Upserted(inv[k := inv[k].(quantity := inv[k].quantity + q)], next)
    else Upserted(inv[next := InventoryRecord(loc, pid, q)], next + 1)
  }

  /** Adding q at a slot raises every total whose scope covers that slot by q
      and leaves every other total alone. */
  lemma AddToSlotTotal(inv: map<int, InventoryRecord>, next: nat, loc: int, pid: int, q: int, s: Scope)
    requires KeysIn(inv, next) && SlotsUnique(inv)
    ensures var u := AddToSlot(inv, next, loc, pid, q);
            u.next >= 0 &&
            Total(u.inv, s, u.next) == Total(inv, s, next) + (if InScope(InventoryRecord(loc, pid, q), s) then q else 0)
  {
    if HasSlot(inv, loc, pid) {
      var k :| k in inv && AtSlot(inv[k], loc, pid);
      assert AddToSlot(inv, next, loc, pid, q).inv == inv[k := inv[k].(quantity := inv[k].quantity + q)];
      TotalAfterWrite(inv, s, next, k, inv[k].(quantity := inv[k].quantity + q));
    } else {
      TotalAfterInsert(inv, s, next, InventoryRecord(loc, pid, q));
    }
  }

  /** Adding at a slot keeps the index unique and the counter above every id. */
  lemma AddToSlotKeepsIndex(inv: map<int, InventoryRecord>, next: int, loc: int, pid: int, q: int)
    requires KeysIn(inv, next) && SlotsUnique(inv) && next >= 1
    ensures var u := AddToSlot(inv, next, loc, pid, q);
            KeysIn(u.inv, u.next) && SlotsUnique(u.inv) && HasSlot(u.inv, loc, pid)
            && u.inv.Keys >= inv.Keys && u.next >= next
  {
    var u := AddToSlot(inv, next, loc, pid, q);
    if HasSlot(inv, loc, pid) {
      var k :| k in inv && AtSlot(inv[k], loc, pid);
      assert k in u.inv && AtSlot(u.inv[k], loc, pid);
    } else {
      assert next in u.inv && AtSlot(u.inv[next], loc, pid);
    }
  }

  /** Every record's location and product are among the given keys. */
  predicate Linked(inv: map<int, InventoryRecord>, locations: set<int>, products: set<int>) {
    forall k :: k in inv ==> inv[k].locationId in locations && inv[k].productId in products
  }

  /** Changing only quantities keeps the slots, their uniqueness and the links. */
  lemma SameSlotsKeep(a: map<int, InventoryRecord>, b: map<int, InventoryRecord>, locations: set<int>, products: set<int>)
    requires a.Keys == b.Keys
    requires forall k :: k in a ==> AtSlot(b[k], a[k].locationId, a[k].productId)
    ensures SlotsUnique(a) ==> SlotsUnique(b)
    ensures Linked(a, locations, products) ==> Linked(b, locations, products)
    ensures forall loc, pid :: HasSlot(a, loc, pid) <==> HasSlot(b, loc, pid)
  {
    forall loc, pid ensures HasSlot(a, loc, pid) <==> HasSlot(b, loc, pid) {
      if HasSlot(a, loc, pid) {
        var k :| k in a && AtSlot(a[k], loc, pid);
        assert k in b && AtSlot(b[k], loc, pid);
      }
      if HasSlot(b, loc, pid) {
        var k :| k in b && AtSlot(b[k], loc, pid);
        assert k in a && AtSlot(a[k], loc, pid);
      }
    }
    if SlotsUnique(a) {
      forall x, y | x in b && y in b && AtSlot(b[x], b[y].locationId, b[y].productId) ensures x == y {
        assert AtSlot(a[x], a[y].locationId, a[y].productId);
      }
    }
  }

  /** Adding at a slot whose record exists, or whose location and product
      exist, keeps every record linked. */
  lemma AddToSlotLinks(inv: map<int, InventoryRecord>, next: int, loc: int, pid: int, q: int,
                       locations: set<int>, products: set<int>)
    requires Linked(inv, locations, products) && SlotsUnique(inv)
    requires HasSlot(inv, loc, pid) || (loc in locations && pid in products)
    ensures Linked(AddToSlot(inv, next, loc, pid, q).inv, locations, products)
  {
    if HasSlot(inv, loc, pid) {
      var k :| k in inv && AtSlot(inv[k], loc, pid);
      assert AddToSlot(inv, next, loc, pid, q).inv == inv[k := inv[k].(quantity := inv[k].quantity + q)];
    }
  }

  /** The location and product a record at (loc, pid) would point at exist. */
  predicate Resolves(t: Tables, loc: int, pid: int) {
    loc in t.locations && pid in t.products
  }

  /** In a well-formed database an existing slot resolves. */
  lemma SlotResolves(t: Tables, loc: int, pid: int)
    requires WellFormed(t) && HasSlot(t.inventory, loc, pid)
    ensures Resolves(t, loc, pid)
  {
    var k :| k in t.inventory && AtSlot(t.inventory[k], loc, pid);
  }

  /** A request after its decision: the new status, and the deciding user when
      one is known (an absent `approvedById` leaves the column as it was). */
  function Decided(reqs: map<int, InventoryRequest>, id: int, s: RequestStatus, approver: Option<int>): (d: map<int, InventoryRequest>)
    requires id in reqs
    ensures d.Keys == reqs.Keys && d[id].status == s
    ensures d[id].approvedById == (if approver.Some? then approver else reqs[id].approvedById)
    ensures forall k :: k in reqs && k != id ==> d[k] == reqs[k]
    ensures d[id].(status := reqs[id].status, approvedById := reqs[id].approvedById) == reqs[id]
  {
    reqs[id := reqs[id].(status := s, approvedById := if approver.Some? then approver else reqs[id].approvedById)]
  }

  /** The tables after request `id` is approved: it is marked APPROVED and its
      quantity is added at its (location, product) slot. */
  ghost function AfterApproval(t: Tables, id: int, approver: Option<int>): Tables
    requires id in t.requests
  {
    var r := t.requests[id];
    var u := AddToSlot(t.inventory, t.nextInventory, r.locationId, r.productId, r.quantity);
    t.(requests := Decided(t.requests, id, Approved, approver), inventory := u.inv, nextInventory := u.next)
  }

  /** An approval raises exactly the totals that cover the request's slot, by
      the request's quantity. */
  lemma AfterApprovalStock(t: Tables, id: int, approver: Option<int>, s: Scope)
    requires WellFormed(t) && id in t.requests
    ensures var r := t.requests[id];
            var t2 := AfterApproval(t, id, approver);
            t2.nextInventory >= 0 &&
            Stock(t2, s) == Stock(t, s) + (if InScope(InventoryRecord(r.locationId, r.productId, r.quantity), s) then r.quantity else 0)
  {
    var r := t.requests[id];
    AddToSlotTotal(t.inventory, t.nextInventory, r.locationId, r.productId, r.quantity, s);
  }

  /** An approval whose slot resolves keeps the database well formed and leaves
      a record at the slot. */
  lemma AfterApprovalWellFormed(t: Tables, id: int, approver: Option<int>)
    requires WellFormed(t) && id in t.requests
    requires Resolves(t, t.requests[id].locationId, t.requests[id].productId)
    ensures WellFormed(AfterApproval(t, id, approver))
    ensures HasSlot(AfterApproval(t, id, approver).inventory, t.requests[id].locationId, t.requests[id].productId)
  {
    var r := t.requests[id];
    assert Linked(t.inventory, t.locations.Keys, t.products.Keys);
    AddToSlotKeepsIndex(t.inventory, t.nextInventory, r.locationId, r.productId, r.quantity);
    AddToSlotLinks(t.inventory, t.nextInventory, r.locationId, r.productId, r.quantity, t.locations.Keys, t.products.Keys);
  }

  /** The ids below `n` of the SUPER_ADMIN users, ascending. */
  function AdminIds(users: map<int, User>, n: nat): seq<int> {
    if n == 0 then []
    else AdminIds(users, n - 1) + (if n - 1 in users && users[n - 1].role == SuperAdmin then [n - 1] else [])
  }

  /** The admin list is strictly ascending and holds exactly the super admins below `n`. */
  lemma {:induction false} AdminIdsAreTheAdmins(users: map<int, User>, n: nat)
    ensures var ids := AdminIds(users, n);
            && (forall i, j :: 0 <= i < j < |ids| ==> ids[i] < ids[j])
            && (forall k :: k in ids <==> 0 <= k < n && k in users && users[k].role == SuperAdmin)
  {
    if n > 0 {
      var prev := AdminIds(users, n - 1);
      AdminIdsAreTheAdmins(users, n - 1);
      forall i | 0 <= i < |prev| ensures prev[i] < n - 1 {
        assert prev[i] in prev;
      }
    }
  }

  /** The rows a filter selects from a table of rows. */
  function Selected<T>(m: map<int, T>, w: Where, rowOf: (int, T) -> Row): set<int> {
    set k | k in m && Matches(w, rowOf(k, m[k]))
  }

  function RequestRow(id: int, r: InventoryRequest): Row {
    map["id" := IntV(id), "locationId" := IntV(r.locationId), "productId" := IntV(r.productId),
        "status" := StrV(RequestStatusName(r.status))]
  }

  /** A product as a filter sees it; a null description has no value to match. */
  function ProductRow(id: int, p: Product): Row {
    var row := map["id" := IntV(id), "name" := StrV(p.name), "sku" := StrV(p.sku), "category" := StrV(p.category),
                   "mainCategory" := StrV(p.mainCategory), "status" := StrV(p.status)];
    if p.description.Some? then row["description" := StrV(p.description.value)] else row
  }

  function LocationRow(id: int, l: Location): Row {
    map["id" := IntV(id), "name" := StrV(l.name),
        "type" := StrV(if l.kind == Store then "STORE" else "SITE"), "status" := StrV(l.status)]
  }

  /** An inventory record as a filter sees it, with the related product's and
      location's fields under dotted names. */
  function InventoryRow(products: map<int, Product>, locations: map<int, Location>, id: int, r: InventoryRecord): Row {
    var base := map["id" := IntV(id), "locationId" := IntV(r.locationId), "productId" := IntV(r.productId),
                    "quantity" := IntV(r.quantity)];
    var withProduct := if r.productId in products then
      var p := products[r.productId];
      base["product.name" := StrV(p.name)]["product.sku" := StrV(p.sku)]["product.category" := StrV(p.category)]
      else base;
    if r.locationId in locations then withProduct["location.name" := StrV(locations[r.locationId].name)]
    else withProduct
  }

  lemma InventoryRowFields(products: map<int, Product>, locations: map<int, Location>, id: int, r: InventoryRecord)
    ensures var row := InventoryRow(products, locations, id, r);
            row["id"] == IntV(id) && row["locationId"] == IntV(r.locationId) && row["productId"] == IntV(r.productId)
  {
  }

  /** The SKUs of the products with id below `n`, in id order. */
  function Skus(products: map<int, Product>, n: nat): (skus: seq<string>)
    ensures forall k :: 0 <= k < n && k in products ==> products[k].sku in skus
    ensures forall s :: s in skus ==> exists k :: 0 <= k < n && k in products && products[k].sku == s
  {
    if n == 0 then []
    else
      var prev := Skus(products, n - 1);
      var last := if n - 1 in products then [products[n - 1].sku] else [];
      assert forall s :: s in prev + last <==> s in prev || s in last;
      prev + last
  }

  /** The locations of product `pid`'s records with id below `n`, in id order. */
  function RecordLocations(inv: map<int, InventoryRecord>, pid: int, n: nat): (locs: seq<int>)
    ensures forall l :: l in locs <==> exists k :: 0 <= k < n && k in inv && AtSlot(inv[k], l, pid)
  {
    if n == 0 then []
    else
      var prev := RecordLocations(inv, pid, n - 1);
      var last := if n - 1 in inv && inv[n - 1].productId == pid then [inv[n - 1].locationId] else [];
      assert forall l :: l in prev + last <==> l in prev || l in last;
      prev + last
  }

  /** In a well-formed database no record holds the product the next insert creates. */
  lemma FreshProductHasNoSlot(t: Tables, loc: int)
    requires WellFormed(t)
    ensures !HasSlot(t.inventory, loc, t.nextProduct)
  {
    forall k | k in t.inventory ensures t.inventory[k].productId != t.nextProduct {
      assert t.inventory[k].productId in t.products;
    }
  }

  /** The users at `loc` with role SITE_ENGINEER lose access; nothing else changes. */
  function EngineersDeactivated(users: map<int, User>, loc: int): (u: map<int, User>)
    ensures u.Keys == users.Keys
    ensures forall k :: k in users ==>
              u[k] == (if users[k].locationId == Some(loc) && users[k].role == SiteEngineer
                       then users[k].(isActive := false) else users[k])
  {
    map k | k in users :: if users[k].locationId == Some(loc) && users[k].role == SiteEngineer
                          then users[k].(isActive := false) else users[k]
  }

  /** The database as a mutable object; each table is a field the handlers reassign. */
  class Db {
    var locations: map<int, Location>
    var users: map<int, User>
    var products: map<int, Product>
    var inventory: map<int, InventoryRecord>
    var requests: map<int, InventoryRequest>
    var events: seq<Event>
    var nextLocation: int
    var nextUser: int
    var nextProduct: int
    var nextInventory: int
    var nextRequest: int

    function State(): Tables
      reads this
    {
      Tables(locations, users, products, inventory, requests, events,
             nextLocation, nextUser, nextProduct, nextInventory, nextRequest)
    }

    predicate Valid()
      reads this
    {
      WellFormed(State())
    }

    lemma ValidLinked()
      requires Valid()
      ensures Linked(inventory, locations.Keys, products.Keys)
    {
    }

    constructor ()
      ensures Valid()
      ensures State() == Tables(map[], map[], map[], map[], map[], [], 1, 1, 1, 1, 1)
    {
      locations, users, products, inventory, requests := map[], map[], map[], map[], map[];
      events := [];
      nextLocation, nextUser, nextProduct, nextInventory, nextRequest := 1, 1, 1, 1, 1;
    }

    /** `findFirst` / `findUnique` on (locationId, productId). */
    method FindSlot(loc: int, pid: int) returns (found: Option<int>)
      requires Valid()
      ensures found.Some? ==> found.value in inventory && AtSlot(inventory[found.value], loc, pid)
      ensures found.None? <==> !HasSlot(inventory, loc, pid)
    {
      var i := 1;
      while i < nextInventory
        invariant 1 <= i <= nextInventory
        invariant forall k :: k in inventory && k < i ==> !AtSlot(inventory[k], loc, pid)
      {
        if i in inventory && AtSlot(inventory[i], loc, pid) {
          return Some(i);
        }
        i := i + 1;
      }
      return None;
    }

    /** `inventory.aggregate({ where, _sum: { quantity } })`, with `_sum || 0`. */
    method SumQuantity(s: Scope) returns (sum: int)
      requires Valid()
      ensures sum == Stock(State(), s)
    {
      sum := 0;
      var i := 0;
      while i < nextInventory
        invariant 0 <= i <= nextInventory
        invariant sum == Total(inventory, s, i)
      {
        if i in inventory && InScope(inventory[i], s) {
          sum := sum + inventory[i].quantity;
        }
        i := i + 1;
      }
    }

    /** `inventory.count({ where: { locationId } })`, compared with 0. */
    method AnyInventoryAt(loc: int) returns (any: bool)
      requires Valid()
      ensures any <==> exists k :: k in inventory && inventory[k].locationId == loc
    {
      var i := 1;
      while i < nextInventory
        invariant 1 <= i <= nextInventory
        invariant forall k :: k in inventory && k < i ==> inventory[k].locationId != loc
      {
        if i in inventory && inventory[i].locationId == loc {
          return true;
        }
        i := i + 1;
      }
      return false;
    }

    /** The ids of every SUPER_ADMIN user, in id order. */
    method SuperAdminIds() returns (ids: seq<int>)
      requires Valid()
      ensures ids == AdminIds(users, nextUser)
    {
      ids := [];
      var i := 0;
      while i < nextUser
        invariant 0 <= i <= nextUser
        invariant ids == AdminIds(users, i)
      {
        if i in users && users[i].role == SuperAdmin {
          ids := ids + [i];
        }
        i := i + 1;
      }
    }

    /** Append audit entries or notifications. */
    method Append(es: seq<Event>)
      requires Valid()
      modifies this
      ensures Valid()
      ensures State() == old(State()).(events := old(events) + es)
    {
      events := events + es;
    }

    /** One notification per super admin, appended in id order. */
    method NotifyAdmins(kind: NoticeKind, link: string)
      requires Valid()
      modifies this
      ensures Valid()
      ensures State() == old(State()).(events := old(events) + Notices(AdminIds(users, nextUser), kind, link))
    {
      var admins := SuperAdminIds();
      events := events + Notices(admins, kind, link);
    }

    /** Whether some location of `kind` other than `except` is called `name`. */
    method NameTaken(name: string, kind: LocationType, except: Option<int>) returns (taken: bool)
      requires Valid()
      ensures taken <==> exists k :: k in locations && locations[k].kind == kind && locations[k].name == name
                                        && Some(k) != except
    {
      var i := 1;
      while i < nextLocation
        invariant 1 <= i <= nextLocation
        invariant forall k :: k in locations && k < i ==>
                    !(locations[k].kind == kind && locations[k].name == name && Some(k) != except)
      {
        if i in locations && locations[i].kind == kind && locations[i].name == name && Some(i) != except {
          return true;
        }
        i := i + 1;
      }
      return false;
    }

    /** Whether some user already has `email` (the column is unique). */
    method EmailTaken(email: string) returns (taken: bool)
      requires Valid()
      ensures taken <==> exists k :: k in users && users[k].email == email
    {
      var i := 1;
      while i < nextUser
        invariant 1 <= i <= nextUser
        invariant forall k :: k in users && k < i ==> users[k].email != email
      {
        if i in users && users[i].email == email {
          return true;
        }
        i := i + 1;
      }
      return false;
    }

    /** The approval transaction: mark request `id` APPROVED and add its
        quantity at its slot. */
    method Approve(id: int, approver: Option<int>)
      requires Valid() && id in requests
      requires Resolves(State(), requests[id].locationId, requests[id].productId)
      modifies this
      ensures Valid()
      ensures State() == AfterApproval(old(State()), id, approver)
    {
      AfterApprovalWellFormed(State(), id, approver);
      var r := requests[id];
      requests := Decided(requests, id, Approved, approver);
      AddQuantity(r.locationId, r.productId, r.quantity);
    }

    /** `inventoryRequest.create`: insert `r` under the next request id. */
    method InsertRequest(r: InventoryRequest)
      requires Valid()
      modifies this
      ensures Valid()
      ensures State() == old(State()).(requests := old(requests)[old(nextRequest) := r], nextRequest := old(nextRequest) + 1)
    {
      requests := requests[nextRequest := r];
      nextRequest := nextRequest + 1;
    }

    /** `product.create`: insert `p` under the next product id. */
    method InsertProduct(p: Product)
      requires Valid()
      modifies this
      ensures Valid()
      ensures State() == old(State()).(products := old(products)[old(nextProduct) := p], nextProduct := old(nextProduct) + 1)
    {
      products := products[nextProduct := p];
      nextProduct := nextProduct + 1;
    }

    /** `product.update` of an existing row. */
    method SetProduct(id: int, p: Product)
      requires Valid() && id in products
      modifies this
      ensures Valid()
      ensures State() == old(State()).(products := old(products)[id := p])
    {
      products := products[id := p];
    }

    /** `inventory.create` at a slot that is free and whose keys resolve. */
    method InsertRecord(loc: int, pid: int, q: int)
      requires Valid() && Resolves(State(), loc, pid) && !HasSlot(inventory, loc, pid)
      modifies this
      ensures Valid()
      ensures State() == old(State()).(inventory := old(inventory)[old(nextInventory) := InventoryRecord(loc, pid, q)],
                                       nextInventory := old(nextInventory) + 1)
    {
      inventory := inventory[nextInventory := InventoryRecord(loc, pid, q)];
      nextInventory := nextInventory + 1;
    }

    /** `user.create`: insert `u` under the next user id. */
    method InsertUser(u: User)
      requires Valid()
      modifies this
      ensures Valid()
      ensures State() == old(State()).(users := old(users)[old(nextUser) := u], nextUser := old(nextUser) + 1)
    {
      users := users[nextUser := u];
      nextUser := nextUser + 1;
    }

    /** `user.update` of an existing row. */
    method SetUser(id: int, u: User)
      requires Valid() && id in users
      modifies this
      ensures Valid()
      ensures State() == old(State()).(users := old(users)[id := u])
    {
      users := users[id := u];
    }

    /** `location.create`: insert `l` under the next location id. */
    method InsertLocation(l: Location)
      requires Valid()
      modifies this
      ensures Valid()
      ensures State() == old(State()).(locations := old(locations)[old(nextLocation) := l], nextLocation := old(nextLocation) + 1)
    {
      locations := locations[nextLocation := l];
      nextLocation := nextLocation + 1;
    }

    /** `location.update` of an existing row. */
    method SetLocation(id: int, l: Location)
      requires Valid() && id in locations
      modifies this
      ensures Valid()
      ensures State() == old(State()).(locations := old(locations)[id := l])
    {
      locations := locations[id := l];
    }

    /** `location.delete` of a location no inventory record points at. */
    method DeleteLocation(id: int)
      requires Valid() && forall k :: k in inventory ==> inventory[k].locationId != id
      modifies this
      ensures Valid()
      ensures State() == old(State()).(locations := old(locations) - {id})
    {
      locations := locations - {id};
    }

    /** The SKUs of every product, in id order. */
    method AllSkus() returns (skus: seq<string>)
      requires Valid()
      ensures skus == Skus(products, nextProduct)
    {
      skus := [];
      var i := 0;
      while i < nextProduct
        invariant 0 <= i <= nextProduct
        invariant skus == Skus(products, i)
      {
        if i in products {
          skus := skus + [products[i].sku];
        }
        i := i + 1;
      }
    }

    /** The locations of a product's inventory records, in record id order. */
    method ProductLocations(pid: int) returns (locs: seq<int>)
      requires Valid()
      ensures locs == RecordLocations(inventory, pid, nextInventory)
    {
      locs := [];
      var i := 0;
      while i < nextInventory
        invariant 0 <= i <= nextInventory
        invariant locs == RecordLocations(inventory, pid, i)
      {
        if i in inventory && inventory[i].productId == pid {
          locs := locs + [inventory[i].locationId];
        }
        i := i + 1;
      }
    }

    /** `user.updateMany({ where: { locationId: loc, role: SITE_ENGINEER }, data: { isActive: false } })`. */
    method DeactivateEngineers(loc: int)
      requires Valid()
      modifies this
      ensures Valid()
      ensures State() == old(State()).(users := EngineersDeactivated(old(users), loc))
    {
      var before, n := users, nextUser;
      var m := before;
      var i := 0;
      while i < n
        invariant 0 <= i <= n
        invariant m.Keys == before.Keys
        invariant forall k :: k in before ==>
                    m[k] == (if k < i && before[k].locationId == Some(loc) && before[k].role == SiteEngineer
                             then before[k].(isActive := false) else before[k])
      {
        if i in m && m[i].locationId == Some(loc) && m[i].role == SiteEngineer {
          m := m[i := m[i].(isActive := false)];
        }
        i := i + 1;
      }
      assert m == EngineersDeactivated(before, loc);
      users := m;
    }

    /** Add `q` to the record at (loc, pid), or create it with `q`. */
    method AddQuantity(loc: int, pid: int, q: int)
      requires Valid() && loc in locations && pid in products
      modifies this
      ensures Valid()
      ensures var u := AddToSlot(old(inventory), old(nextInventory), loc, pid, q);
              State() == old(State()).(inventory := u.inv, nextInventory := u.next)
    {
      var found := FindSlot(loc, pid);
      AddToSlotKeepsIndex(inventory, nextInventory, loc, pid, q);
      ghost var u := AddToSlot(inventory, nextInventory, loc, pid, q);
      match found
      case Some(k) =>
        ghost var k' :| k' in inventory && AtSlot(inventory[k'], loc, pid);
        assert k' == k;
        inventory := inventory[k := inventory[k].(quantity := inventory[k].quantity + q)];
      case None =>
        inventory := inventory[nextInventory := InventoryRecord(loc, pid, q)];
        nextInventory := nextInventory + 1;
    }
  }
}
