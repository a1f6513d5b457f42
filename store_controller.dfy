/** The store handlers (backend/src/controllers/storeController.ts): the shared
    location lifecycle for kind STORE, the detail view and the inventory of a
    store. */
module StoreController {
  import opened Optional
  import opened JsText
  import opened Domain
  import opened QueryHelpers
  import opened Database
  import opened Paging
  import opened LocationLifecycle

  /** `createStore`. */
  method CreateStore(db: Db, b: LocationBody) returns (status: Status)
    requires db.Valid()
    modifies db
    ensures db.Valid()
    ensures Outcome(status, db.State()) == CreateOutcome(old(db.State()), Store, b)
  {
    status := CreateLocation(db, Store, b);
  }

  /** `getAllStores`: only a store manager with a location is confined to it. */
  method GetAllStores(db: Db, user: Option<AuthUser>, page: JsVal, limit: JsVal) returns (status: Status, ids: set<int>, pg: Pagination)
    requires db.Valid()
    ensures status == Ok || status == ServerError
    ensures status == ServerError <==> SkipRefused(IntOr(page, 1), IntOr(limit, 10))
    ensures status == ServerError ==> ids == {}
    ensures status == Ok ==> forall k :: k in ids <==>
              k in db.locations && db.locations[k].kind == Store
              && (user.Some? && user.value.role == StoreManager && TruthyInt(user.value.locationId) ==> k == user.value.locationId.value)
    ensures status == Ok ==> pg.page == IntOr(page, 1) && pg.limit == IntOr(limit, 10) && pg.total == |ids|
    ensures status == Ok ==> pg.totalPages == CeilDiv(|ids|, pg.limit)
  {
    status, ids, pg := ListLocations(db, Store, user, page, limit);
  }

  /** `getStoreById`: the access gate, then a missing store is a 404. */
  function StoreDetail(locations: map<int, Location>, user: Option<AuthUser>, id: Option<int>): Reply {
    var g := DetailGate(user, id, "Store", "Attempted to access store details without permission");
    if g.Answer? then Reply(g.status, g.log)
    else if id.value in locations && locations[id.value].kind == Store then Reply(Ok, [])
    else Reply(NotFound, [])
  }

  /** A store is shown exactly to a caller the access check admits; a refused
      caller gets 403 and one LOCATION_VIOLATION entry. */
  lemma StoreDetailShown(locations: map<int, Location>, user: Option<AuthUser>, id: Option<int>)
    ensures var r := StoreDetail(locations, user, id);
            && (r.status == Ok <==>
                  id.Some? && user.Some? && ValidateLocationAccess(user.value, id.value)
                  && id.value in locations && locations[id.value].kind == Store)
            && (r.status == Unauthorized <==> id.Some? && user.None?)
            && (|r.log| > 0 <==> r.status == Forbidden)
            && (r.status == Forbidden ==>
                  |r.log| == 1 && r.log[0].action == LocationViolation
                  && r.log[0].resource == "Store:" + IntToString(id.value))
  {
  }

  method GetStoreById(db: Db, user: Option<AuthUser>, id: JsVal) returns (status: Status)
    requires db.Valid()
    modifies db
    ensures db.Valid()
    ensures status == StoreDetail(old(db.locations), user, ParseJs(id)).status
    ensures db.State() == old(db.State()).(events := old(db.events) + StoreDetail(old(db.locations), user, ParseJs(id)).log)
  {
    status := ShowStore(db, user, ParseJs(id));
  }

  method ShowStore(db: Db, user: Option<AuthUser>, id: Option<int>) returns (status: Status)
    requires db.Valid()
    modifies db
    ensures db.Valid()
    ensures status == StoreDetail(old(db.locations), user, id).status
    ensures db.State() == old(db.State()).(events := old(db.events) + StoreDetail(old(db.locations), user, id).log)
  {
    var g := DetailGate(user, id, "Store", "Attempted to access store details without permission");
    if g.Answer? {
      db.events := db.events + g.log;
      return g.status;
    }
    var sid := id.value;
    if sid in db.locations && db.locations[sid].kind == Store {
      return Ok;
    }
    return NotFound;
  }

  /** `getStoreInventory`: behind the same gate, the records at the id, which
      is not checked to be a store. */
  method GetStoreInventory(db: Db, user: Option<AuthUser>, id: JsVal) returns (status: Status, ids: set<int>)
    requires db.Valid()
    modifies db
    ensures db.Valid()
    ensures var g := DetailGate(user, ParseJs(id), "StoreInventory", "Attempted to access store inventory without permission");
            && (g.Answer? ==> status == g.status && ids == {}
                              && db.State() == old(db.State()).(events := old(db.events) + g.log))
            && (g == Next ==>
                  status == Ok && db.State() == old(db.State())
                  && forall k :: k in ids <==> k in db.inventory && db.inventory[k].locationId == ParseJs(id).value)
  {
    status, ids := StoreInventoryAt(db, user, ParseJs(id));
  }

  method StoreInventoryAt(db: Db, user: Option<AuthUser>, id: Option<int>) returns (status: Status, ids: set<int>)
    requires db.Valid()
    modifies db
    ensures db.Valid()
    ensures var g := DetailGate(user, id, "StoreInventory", "Attempted to access store inventory without permission");
            && (g.Answer? ==> status == g.status && ids == {}
                              && db.State() == old(db.State()).(events := old(db.events) + g.log))
            && (g == Next ==>
                  status == Ok && db.State() == old(db.State())
                  && forall k :: k in ids <==> k in db.inventory && db.inventory[k].locationId == id.value)
  {
    var g := DetailGate(user, id, "StoreInventory", "Attempted to access store inventory without permission");
    if g.Answer? {
      db.events := db.events + g.log;
      return g.status, {};
    }
    var sid := id.value;
    var w: Where := map["locationId" := Eq(IntV(sid))];
    var products, locations := db.products, db.locations;
    ids := Selected(db.inventory, w, (k, r) => InventoryRow(products, locations, k, r));
    forall k | k in db.inventory
      ensures Matches(w, InventoryRow(products, locations, k, db.inventory[k])) <==> db.inventory[k].locationId == sid
    {
      InventoryRowFields(products, locations, k, db.inventory[k]);
      assert Holds("locationId", w["locationId"], InventoryRow(products, locations, k, db.inventory[k]))
             <==> db.inventory[k].locationId == sid;
    }
    return Ok, ids;
  }

  /** `updateStore`. */
  method UpdateStore(db: Db, id: JsVal, b: LocationBody) returns (status: Status)
    requires db.Valid()
    modifies db
    ensures db.Valid()
    ensures Outcome(status, db.State()) == UpdateOutcome(old(db.State()), Store, ParseJs(id), b)
  {
    status := UpdateLocation(db, Store, id, b);
  }

  /** `deleteStore`. */
  method DeleteStore(db: Db, id: JsVal) returns (status: Status)
    requires db.Valid()
    modifies db
    ensures db.Valid()
    ensures Outcome(status, db.State()) == DeleteOutcome(old(db.State()), Store, ParseJs(id))
  {
    status := DeleteLocation(db, Store, id);
  }
}
