/** The deduct and transfer dialogs (frontend/app/components/InventoryActionModals.tsx):
    whether they show, what they send to the server, and the list of places
    stock can be transferred to. */
module ActionModals {
  import opened Optional
  import opened JsText
  import opened Domain
  import opened InventoryTable
  import opened InventoryController

  predicate IsFixedAsset(item: Item) { item.mainCategory == "FIXED_ASSET" }

  /** What the deduct dialog shows: its title, the largest quantity the number
      field accepts and the quantity it starts at. */
  datatype DeductView = DeductView(title: string, maxQuantity: int, initialQuantity: int)

  /** `DeductModal` renders nothing when it is closed or has no item. */
  function DeductModal(isOpen: bool, item: Option<Item>): (v: Option<DeductView>)
    ensures v.Some? <==> isOpen && item.Some?
    ensures v.Some? ==> v.value.maxQuantity == item.value.quantity && v.value.initialQuantity == 1
  {
    if !isOpen || item.None? then None
    else Some(DeductView("Deduct / Usage: " + item.value.name, item.value.quantity, 1))
  }

  /** The body of `inventory.adjust`; a NaN quantity is sent as null (None). */
  datatype AdjustBody = AdjustBody(inventoryId: int, quantity: Option<int>, reason: string)

  /** The deduct dialog sends the item's id, the quantity as entered and parsed,
      and the reason. */
  function DeductPayload(item: Item, entered: Option<int>, reason: string): (b: AdjustBody)
    ensures b.inventoryId == item.id && b.quantity == entered && b.reason == reason
  {
    AdjustBody(item.id, entered, reason)
  }

  /** The number field's constraints (`min="1"`, `max={quantity}`, `required`):
      the browser submits only a whole number in that range. */
  predicate DeductSubmittable(item: Item, entered: Option<int>) {
    entered.Some? && 1 <= entered.value <= item.quantity
  }

  /** A deduction the form lets through passes the server's input check
      (an id and a positive quantity) and, while the row is current, its stock
      check; a field left unparsable reaches the server as null and is refused. */
  lemma DeductReachesServer(item: Item, entered: Option<int>, reason: string)
    ensures var b := DeductPayload(item, entered, reason);
            DeductSubmittable(item, entered) ==> TruthyInt(b.quantity) && b.quantity.value > 0 && b.quantity.value <= item.quantity
    ensures entered.None? ==> !TruthyInt(DeductPayload(item, entered, reason).quantity)
  {
  }

  /** What the transfer dialog shows: its title, and whether it asks for a
      quantity (not for a fixed asset, which always moves as one unit). */
  datatype TransferView = TransferView(title: string, showsQuantity: bool, maxQuantity: int)

  /** `TransferModal` renders nothing when it is closed or has no item. */
  function TransferModal(isOpen: bool, item: Option<Item>): (v: Option<TransferView>)
    ensures v.Some? <==> isOpen && item.Some?
    ensures v.Some? ==> (v.value.showsQuantity <==> !IsFixedAsset(item.value)) && v.value.maxQuantity == item.value.quantity
  {
    if !isOpen || item.None? then None
    else
      var fixed := IsFixedAsset(item.value);
      Some(TransferView("Transfer " + (if fixed then "Asset" else "Inventory") + ": " + item.value.name, !fixed, item.value.quantity))
  }

  /** The quantity sent: 1 for a fixed asset, else `parseInt` of the field. */
  function TransferQuantity(item: Item, entered: string): (q: Option<int>)
    ensures IsFixedAsset(item) ==> q == Some(1)
    ensures !IsFixedAsset(item) ==> q == ParseInt(entered)
  {
    if IsFixedAsset(item) then Some(1) else ParseInt(entered)
  }

  /** The body of `inventory.transfer`; a NaN is sent as null (None). */
  datatype TransferBody = TransferBody(inventoryId: int, targetLocationId: Option<int>, quantity: Option<int>, reason: string)

  function TransferPayload(item: Item, target: string, entered: string, reason: string): (b: TransferBody)
    ensures b.inventoryId == item.id && b.targetLocationId == ParseInt(target) && b.reason == reason
    ensures b.quantity == TransferQuantity(item, entered)
  {
    TransferBody(item.id, ParseInt(target), TransferQuantity(item, entered), reason)
  }

  /** The dialog asks for a quantity exactly when it sends the one entered. */
  lemma QuantityFieldMatchesPayload(item: Item, entered: string, target: string, reason: string)
    ensures var v := TransferModal(true, Some(item)).value;
            var b := TransferPayload(item, target, entered, reason);
            (v.showsQuantity ==> b.quantity == ParseInt(entered)) && (!v.showsQuantity ==> b.quantity == Some(1))
  {
  }

  /** What the server moves for a dialog's transfer, with the handler as
      written or corrected: a fixed asset moves one unit whatever the hidden
      field holds, and an unparsable quantity (sent as null) is also moved as
      one unit. */
  lemma TransferMovesOnServer(item: Item, stock: int, entered: string, target: string, reason: string, rev: Revision)
    ensures IsFixedAsset(item) ==>
              QuantityCheck(rev, stock, TransferPayload(item, target, entered, reason).quantity) == (if stock >= 1 then Some(1) else None)
    ensures !IsFixedAsset(item) && ParseInt(entered).None? ==>
              QuantityCheck(rev, stock, TransferPayload(item, target, entered, reason).quantity) == (if stock >= 1 then Some(1) else None)
  {
  }

  /** A location as the store and site lists return it. */
  datatype Place = Place(id: int, name: string)

  /** A destination of the select: the place and the tag it was given. */
  datatype Destination = Destination(id: int, name: string, kind: LocationType)

  function Tagged(ps: seq<Place>, kind: LocationType): (ds: seq<Destination>)
    ensures |ds| == |ps|
    ensures forall i :: 0 <= i < |ps| ==> ds[i] == Destination(ps[i].id, ps[i].name, kind)
  {
    if |ps| == 0 then [] else [Destination(ps[0].id, ps[0].name, kind)] + Tagged(ps[1..], kind)
  }

  /** `.filter(loc => loc.id !== inventoryItem.locationId)`. */
  function Except(ds: seq<Destination>, current: int): (r: seq<Destination>)
    ensures |r| <= |ds|
    ensures forall d :: d in r <==> d in ds && d.id != current
  {
    if |ds| == 0 then []
    else
      var rest := Except(ds[1..], current);
      assert forall d :: d in ds <==> d == ds[0] || d in ds[1..];
      if ds[0].id != current then [ds[0]] + rest else rest
  }

  function OrEmpty(ps: Option<seq<Place>>): seq<Place> {
    if ps.Some? then ps.value else []
  }

  /** The destinations: the stores tagged STORE, then the sites tagged SITE,
      without the item's own location; a list that did not come back counts as empty. */
  function Destinations(stores: Option<seq<Place>>, sites: Option<seq<Place>>, current: int): seq<Destination> {
    Except(Tagged(OrEmpty(stores), Store) + Tagged(OrEmpty(sites), Site), current)
  }

  /** Every destination is a listed store or site other than the item's own
      location, and every such store and site is offered. */
  lemma DestinationsAre(stores: Option<seq<Place>>, sites: Option<seq<Place>>, current: int, d: Destination)
    ensures d in Destinations(stores, sites, current) <==>
            d.id != current
            && ((d.kind == Store && Place(d.id, d.name) in OrEmpty(stores)) || (d.kind == Site && Place(d.id, d.name) in OrEmpty(sites)))
  {
    var a, b := Tagged(OrEmpty(stores), Store), Tagged(OrEmpty(sites), Site);
    assert d in a + b <==> d in a || d in b;
    TaggedHas(OrEmpty(stores), Store, d);
    TaggedHas(OrEmpty(sites), Site, d);
  }

  lemma TaggedHas(ps: seq<Place>, kind: LocationType, d: Destination)
    ensures d in Tagged(ps, kind) <==> d.kind == kind && Place(d.id, d.name) in ps
  {
    var ds := Tagged(ps, kind);
    if d in ds {
      var i :| 0 <= i < |ds| && ds[i] == d;
      assert ps[i] == Place(d.id, d.name);
    }
    if d.kind == kind && Place(d.id, d.name) in ps {
      var i :| 0 <= i < |ps| && ps[i] == Place(d.id, d.name);
      assert ds[i] == d;
    }
  }

  /** The filter keeps the list's order: store destinations come before site ones. */
  predicate StoresFirst(ds: seq<Destination>) {
    forall i, j :: 0 <= i < j < |ds| && ds[j].kind == Store ==> ds[i].kind == Store
  }

  lemma {:induction false} ExceptKeepsStoresFirst(ds: seq<Destination>, current: int)
    requires StoresFirst(ds)
    ensures StoresFirst(Except(ds, current))
  {
    if |ds| > 0 {
      ExceptKeepsStoresFirst(ds[1..], current);
      var rest := Except(ds[1..], current);
      if ds[0].id != current && ds[0].kind == Site {
        forall j | 0 < j < |rest| + 1
          ensures ([ds[0]] + rest)[j].kind == Site
        {
          assert rest[j - 1] in ds[1..];
          var k :| 0 <= k < |ds[1..]| && ds[1..][k] == rest[j - 1];
          assert ds[k + 1] == rest[j - 1];
        }
      }
    }
  }

  lemma DestinationsStoresFirst(stores: Option<seq<Place>>, sites: Option<seq<Place>>, current: int)
    ensures StoresFirst(Destinations(stores, sites, current))
  {
    var a, b := Tagged(OrEmpty(stores), Store), Tagged(OrEmpty(sites), Site);
    var ds: seq<Destination> := a + b;
    forall k | 0 <= k < |ds|
      ensures ds[k].kind == Store <==> k < |a|
    {
      if k >= |a| {
        assert ds[k] == b[k - |a|];
      }
    }
    ExceptKeepsStoresFirst(ds, current);
  }
}
