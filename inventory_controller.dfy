/** Deducting consumables from a record and moving stock between locations
    (backend/src/controllers/inventoryController.ts). */
module InventoryController {
  import opened Optional
  import opened JsText
  import opened Domain
  import opened QueryHelpers
  import opened Database

  /** The quantity a transfer moves, as the handler computes and checks it:
      `quantity || 1`, refused (None) when the source holds less. */
  function TransferCheckAsWritten(stock: int, quantity: Option<int>): (r: Option<int>)
    ensures r.Some? ==> r.value <= stock
  {
    var q := if TruthyInt(quantity) then quantity.value else 1;
    if stock < q then None else Some(q)
  }

  /** A negative quantity passes both checks as written: a source holding 3
      "transfers" -5, so the source grows and the target is created at -5. */
  lemma TransferNegativeQuantityAsWritten()
    ensures TransferCheckAsWritten(3, Some(-5)) == Some(-5)
    ensures AddToSlot(map[], 1, 2, 1, -5).inv[1].quantity < 0
  {
    assert !HasSlot(map[], 2, 1);
  }

  /** The corrected check: a negative quantity is refused like an excessive one,
      absent or 0 still means 1. */
  function TransferCheck(stock: int, quantity: Option<int>): (r: Option<int>)
    ensures r.Some? ==> 1 <= r.value <= stock
    ensures r.Some? <==> (if TruthyInt(quantity) then 0 < quantity.value <= stock else 1 <= stock)
  {
    var q := if TruthyInt(quantity) then quantity.value else 1;
    if q < 0 || stock < q then None else Some(q)
  }

  /** Where both checks accept, they move the same quantity. */
  lemma TransferCheckAgreesOnPositive(stock: int, quantity: Option<int>)
    requires quantity.None? || quantity.value >= 0
    ensures TransferCheck(stock, quantity) == TransferCheckAsWritten(stock, quantity)
  {
  }

  /** The two checks differ exactly on a negative quantity the stock covers:
      the code as written moves it, the corrected check refuses it. */
  lemma ChecksDifferOnNegative(stock: int, quantity: Option<int>)
    ensures TransferCheckAsWritten(stock, quantity) != TransferCheck(stock, quantity) <==>
            quantity.Some? && quantity.value < 0 && quantity.value <= stock
    ensures TransferCheckAsWritten(stock, quantity) != TransferCheck(stock, quantity) ==>
            TransferCheckAsWritten(stock, quantity) == quantity && TransferCheck(stock, quantity).None?
  {
  }

  /** The check a transfer applies: the handler's own, or the corrected one. */
  function QuantityCheck(rev: Revision, stock: int, quantity: Option<int>): Option<int> {
    match rev
    case AsWritten => TransferCheckAsWritten(stock, quantity)
    case Corrected => TransferCheck(stock, quantity)
  }

  /** The audit entry of a deduction. */
  function AdjustEntry(user: AuthUser, id: int, q: int, p: Product, reason: JsVal): Event {
    ActivityLog(user.id, "INVENTORY_ADJUSTMENT", IntToString(id),
      "Deducted " + IntToString(q) + " " + p.unit + " of " + p.name + ". Reason: " + OrString(reason, "Usage"))
  }

  /** The audit entry of a transfer; the target is rendered as the body gave it. */
  function TransferEntry(user: AuthUser, pid: int, q: int, p: Product, from: int, target: JsVal, reason: JsVal): Event {
    ActivityLog(user.id, "ASSET_TRANSFER", IntToString(pid),
      "Transferred " + IntToString(q) + " " + p.unit + " from Loc:" + IntToString(from)
      + " to Loc:" + Render(target) + ". Reason: " + Render(reason))
  }

  function Decremented(inv: map<int, InventoryRecord>, id: int, q: int): map<int, InventoryRecord>
    requires id in inv
  {
    inv[id := inv[id].(quantity := inv[id].quantity - q)]
  }

  /** Lowering one record by q lowers exactly the totals that cover it, by q. */
  lemma DecrementedTotal(inv: map<int, InventoryRecord>, n: nat, id: int, q: int, s: Scope)
    requires id in inv && 0 <= id < n
    ensures Total(Decremented(inv, id, q), s, n) == Total(inv, s, n) - (if InScope(inv[id], s) then q else 0)
  {
    TotalAfterWrite(inv, s, n, id, inv[id].(quantity := inv[id].quantity - q));
  }

  /** A transfer of q of the source's product to `tgt` leaves that product's
      total stock, and the grand total, unchanged; the source location loses q
      and the target location gains q. */
  lemma TransferConserves(inv: map<int, InventoryRecord>, next: nat, src: int, tgt: int, q: int, s: Scope)
    requires KeysIn(inv, next) && SlotsUnique(inv) && src in inv
    ensures var r := inv[src];
            var u := AddToSlot(Decremented(inv, src, q), next, tgt, r.productId, q);
            u.next >= 0 &&
            Total(u.inv, s, u.next) == Total(inv, s, next)
              - (if InScope(r, s) then q else 0)
              + (if InScope(InventoryRecord(tgt, r.productId, q), s) then q else 0)
  {
    var d := Decremented(inv, src, q);
    DecrementedTotal(inv, next, src, q, s);
    assert SlotsUnique(d) by {
      forall a, b | a in d && b in d && AtSlot(d[a], d[b].locationId, d[b].productId) ensures a == b {
        assert AtSlot(inv[a], inv[b].locationId, inv[b].productId);
      }
    }
    AddToSlotTotal(d, next, tgt, inv[src].productId, q, s);
  }

  /** The product's total is conserved by every transfer. */
  lemma TransferConservesProduct(inv: map<int, InventoryRecord>, next: nat, src: int, tgt: int, q: int)
    requires KeysIn(inv, next) && SlotsUnique(inv) && src in inv
    ensures var pid := inv[src].productId;
            var u := AddToSlot(Decremented(inv, src, q), next, tgt, pid, q);
            u.next >= 0 && Total(u.inv, OfProduct(pid), u.next) == Total(inv, OfProduct(pid), next)
            && Total(u.inv, AllRecords, u.next) == Total(inv, AllRecords, next)
  {
    TransferConserves(inv, next, src, tgt, q, OfProduct(inv[src].productId));
    TransferConserves(inv, next, src, tgt, q, AllRecords);
  }

  /** `adjustQuantity`: deduct `quantity` from record `inventoryId`. */
  method AdjustQuantity(db: Db, user: AuthUser, inventoryId: Option<int>, quantity: Option<int>, reason: JsVal)
    returns (status: Status)
    requires db.Valid()
    modifies db
    ensures db.Valid()
    ensures status != Ok ==> db.State() == old(db.State())
    ensures !(TruthyInt(inventoryId) && TruthyInt(quantity) && quantity.value > 0) ==> status == BadRequest
    ensures TruthyInt(inventoryId) && TruthyInt(quantity) && quantity.value > 0 ==>
      var id, q := inventoryId.value, quantity.value;
      && (id !in old(db.inventory) ==> status == NotFound)
      && (id in old(db.inventory) ==>
            var r := old(db.inventory)[id];
            && (!ValidateLocationAccess(user, r.locationId) ==> status == Forbidden)
            && (ValidateLocationAccess(user, r.locationId) && r.quantity < q ==> status == BadRequest)
            && (ValidateLocationAccess(user, r.locationId) && r.quantity >= q ==>
                  && status == Ok
                  && db.State() == old(db.State()).(
                       inventory := Decremented(old(db.inventory), id, q),
                       events := old(db.events) + [AdjustEntry(user, id, q, old(db.products)[r.productId], reason)])
                  && id in db.inventory && db.inventory[id].quantity >= 0))
  {
    if !TruthyInt(inventoryId) || !TruthyInt(quantity) || quantity.value <= 0 {
      return BadRequest;
    }
    var id, q := inventoryId.value, quantity.value;
    if id !in db.inventory {
      return NotFound;
    }
    var r := db.inventory[id];
    if user.role != SuperAdmin && !ValidateLocationAccess(user, r.locationId) {
      return Forbidden;
    }
    if r.quantity < q {
      return BadRequest;
    }
    db.inventory := Decremented(db.inventory, id, q);
    var p := db.products[r.productId];
    db.Append([AdjustEntry(user, id, q, p, reason)]);
    return Ok;
  }

  /** The tables after a committed transfer of q from record `id` to location `tgt`. */
  ghost function Transferred(t: Tables, user: AuthUser, id: int, tgt: int, q: int, target: JsVal, reason: JsVal): Tables
    requires WellFormed(t) && id in t.inventory
  {
    var r := t.inventory[id];
    var u := AddToSlot(Decremented(t.inventory, id, q), t.nextInventory, tgt, r.productId, q);
    t.(inventory := u.inv, nextInventory := u.next,
       events := t.events + [TransferEntry(user, r.productId, q, t.products[r.productId], r.locationId, target, reason)])
  }

  /** Whether the transaction throws: the target does not parse, or the record it
      would create points at a missing location. */
  predicate TransferThrows(t: Tables, pid: int, tgt: Option<int>) {
    tgt.None? || (!HasSlot(t.inventory, tgt.value, pid) && tgt.value !in t.locations)
  }

  /** A committed transfer conserves the product's stock and the grand total,
      and moves q from the source location to a different target location. */
  lemma TransferredStock(t: Tables, user: AuthUser, id: int, tgt: int, q: int, target: JsVal, reason: JsVal)
    requires WellFormed(t) && id in t.inventory
    ensures var t2 := Transferred(t, user, id, tgt, q, target, reason);
            var r := t.inventory[id];
            && t2.nextInventory >= 0
            && Stock(t2, OfProduct(r.productId)) == Stock(t, OfProduct(r.productId))
            && Stock(t2, AllRecords) == Stock(t, AllRecords)
            && (tgt != r.locationId ==>
                  Stock(t2, AtLocation(r.locationId)) == Stock(t, AtLocation(r.locationId)) - q
                  && Stock(t2, AtLocation(tgt)) == Stock(t, AtLocation(tgt)) + q)
  {
    var r := t.inventory[id];
    TransferConservesProduct(t.inventory, t.nextInventory, id, tgt, q);
    TransferConserves(t.inventory, t.nextInventory, id, tgt, q, AtLocation(r.locationId));
    TransferConserves(t.inventory, t.nextInventory, id, tgt, q, AtLocation(tgt));
  }

  /** A transfer whose transaction does not throw keeps the tables well formed. */
  lemma TransferredWellFormed(t: Tables, user: AuthUser, id: int, tgt: int, q: int, target: JsVal, reason: JsVal)
    requires WellFormed(t) && id in t.inventory
    requires !TransferThrows(t, t.inventory[id].productId, Some(tgt))
    ensures WellFormed(Transferred(t, user, id, tgt, q, target, reason))
  {
    var r := t.inventory[id];
    var d := Decremented(t.inventory, id, q);
    assert Linked(t.inventory, t.locations.Keys, t.products.Keys);
    SameSlotsKeep(t.inventory, d, t.locations.Keys, t.products.Keys);
    AddToSlotKeepsIndex(d, t.nextInventory, tgt, r.productId, q);
    AddToSlotLinks(d, t.nextInventory, tgt, r.productId, q, t.locations.Keys, t.products.Keys);
  }

  /** `transferAsset`: move stock of the source record's product to
      `targetLocationId`. With `AsWritten` it is the handler as the source has
      it, which lets a negative quantity through; with `Corrected` the quantity
      check refuses one. */
  method TransferAsset(db: Db, user: AuthUser, inventoryId: Option<int>, targetLocationId: JsVal,
                       quantity: Option<int>, reason: JsVal, rev: Revision)
    returns (status: Status)
    requires db.Valid()
    modifies db
    ensures db.Valid()
    ensures status != Ok ==> db.State() == old(db.State())
    ensures !TruthyInt(inventoryId) || !Truthy(targetLocationId) ==> status == BadRequest
    ensures TruthyInt(inventoryId) && Truthy(targetLocationId) ==>
      var id := inventoryId.value;
      && (id !in old(db.inventory) ==> status == NotFound)
      && (id in old(db.inventory) ==>
            var r := old(db.inventory)[id];
            var check := QuantityCheck(rev, r.quantity, quantity);
            var tgt := ParseJs(targetLocationId);
            && (!ValidateLocationAccess(user, r.locationId) ==> status == Forbidden)
            && (ValidateLocationAccess(user, r.locationId) && check.None? ==> status == BadRequest)
            && ((ValidateLocationAccess(user, r.locationId) && check.Some? && TransferThrows(old(db.State()), r.productId, tgt))
                  ==> status == ServerError)
            && ((ValidateLocationAccess(user, r.locationId) && check.Some? && !TransferThrows(old(db.State()), r.productId, tgt))
                  ==> status == Ok
                      && db.State() == Transferred(old(db.State()), user, id, tgt.value, check.value, targetLocationId, reason)))
  {
    if !TruthyInt(inventoryId) || !Truthy(targetLocationId) {
      return BadRequest;
    }
    var id := inventoryId.value;
    if id !in db.inventory {
      return NotFound;
    }
    var r := db.inventory[id];
    if user.role != SuperAdmin && !ValidateLocationAccess(user, r.locationId) {
      return Forbidden;
    }
    var check := QuantityCheck(rev, r.quantity, quantity);
    if check.None? {
      return BadRequest;
    }
    // The transaction: a step that throws rolls back the steps before it.
    var tgt := ParseJs(targetLocationId);
    if tgt.None? {
      return ServerError;
    }
    var existing := db.FindSlot(tgt.value, r.productId);
    if existing.None? && tgt.value !in db.locations {
      return ServerError;
    }
    ApplyTransfer(db, user, id, tgt.value, check.value, targetLocationId, reason);
    return Ok;
  }

  /** The body of the transfer transaction. */
  method ApplyTransfer(db: Db, user: AuthUser, id: int, tgt: int, q: int, target: JsVal, reason: JsVal)
    requires db.Valid() && id in db.inventory
    requires !TransferThrows(db.State(), db.inventory[id].productId, Some(tgt))
    modifies db
    ensures db.Valid()
    ensures db.State() == Transferred(old(db.State()), user, id, tgt, q, target, reason)
  {
    ghost var before := db.State();
    TransferredWellFormed(before, user, id, tgt, q, target, reason);
    var r := db.inventory[id];
    var p := db.products[r.productId];
    db.ValidLinked();
    SameSlotsKeep(db.inventory, Decremented(db.inventory, id, q), db.locations.Keys, db.products.Keys);
    db.inventory := Decremented(db.inventory, id, q);
    db.AddQuantity(tgt, r.productId, q);
    db.Append([TransferEntry(user, r.productId, q, p, r.locationId, target, reason)]);
  }
}
