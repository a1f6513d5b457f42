/** The inventory-request workflow of the super admin and the location staff:
    a request is created PENDING and then approved (its quantity is added to
    the location's stock) or rejected
    (backend/src/controllers/inventoryRequestController.ts). */
module RequestController {
  import opened Optional
  import opened JsText
  import opened Domain
  import opened QueryHelpers
  import opened Database
  import opened Paging

  /** `req.user?.id` is truthy. */
  predicate Identified(user: Option<AuthUser>) {
    user.Some? && user.value.id != 0
  }

  /** The request a successful `createRequest` inserts. */
  function NewRequest(pid: int, loc: int, q: int, requester: int): (r: InventoryRequest)
    ensures r.status == Pending && r.approvedById.None?
    ensures r.productId == pid && r.locationId == loc && r.quantity == q && r.requestedById == requester
  {
    InventoryRequest(pid, loc, q, requester, Pending, None)
  }

  /** `createRequest`: the body values are parsed with `parseInt`; a NaN or a
      product or location that does not exist makes the insert throw. */
  method CreateRequest(db: Db, user: Option<AuthUser>, productId: JsVal, locationId: JsVal, quantity: JsVal)
    returns (status: Status)
    requires db.Valid()
    modifies db
    ensures db.Valid()
    ensures status != Created ==> db.State() == old(db.State())
    ensures !(Truthy(productId) && Truthy(locationId) && Truthy(quantity)) ==> status == BadRequest
    ensures Truthy(productId) && Truthy(locationId) && Truthy(quantity) && !Identified(user) ==> status == Unauthorized
    ensures Truthy(productId) && Truthy(locationId) && Truthy(quantity) && Identified(user) ==>
      var p, l, q := ParseJs(productId), ParseJs(locationId), ParseJs(quantity);
      && (p.None? || l.None? || q.None? || !Resolves(old(db.State()), l.value, p.value) ==> status == ServerError)
      && (p.Some? && l.Some? && q.Some? && Resolves(old(db.State()), l.value, p.value) ==>
            status == Created
            && db.State() == old(db.State()).(
                 requests := old(db.requests)[old(db.nextRequest) := NewRequest(p.value, l.value, q.value, user.value.id)],
                 nextRequest := old(db.nextRequest) + 1))
  {
    if !Truthy(productId) || !Truthy(locationId) || !Truthy(quantity) {
      return BadRequest;
    }
    if !Identified(user) {
      return Unauthorized;
    }
    var p, l, q := ParseJs(productId), ParseJs(locationId), ParseJs(quantity);
    if p.None? || l.None? || q.None? || l.value !in db.locations || p.value !in db.products {
      return ServerError;
    }
    db.InsertRequest(NewRequest(p.value, l.value, q.value, user.value.id));
    return Created;
  }

  /** The caller's own location restricts the list: a manager or engineer
      with a location. */
  predicate ScopedToOwnLocation(user: Option<AuthUser>) {
    user.Some? && IsManagerOrEngineer(user.value.role) && TruthyInt(user.value.locationId)
  }

  /** `getAllRequests`: the filter is built key by key; a negative skip is a
      500, otherwise `ids` are the requests it selects (the page slice of them is
      not modelled) and `pg` the pagination block. A caller without a location
      is not restricted at all. */
  method GetAllRequests(db: Db, user: Option<AuthUser>, status: JsVal, page: JsVal, limit: JsVal)
    returns (answer: Status, w: Where, ids: set<int>, pg: Pagination)
    requires db.Valid()
    ensures answer == Ok || answer == ServerError
    ensures answer == ServerError <==> SkipRefused(IntOr(page, 1), IntOr(limit, 20))
    ensures answer == ServerError ==> ids == {}
    ensures "locationId" in w <==> ScopedToOwnLocation(user)
    ensures ScopedToOwnLocation(user) ==> w["locationId"] == Eq(IntV(user.value.locationId.value))
    ensures "status" in w <==> Truthy(status)
    ensures !HasNaN(w)
    ensures answer == Ok ==> forall k :: k in ids <==>
              k in db.requests
              && (Truthy(status) ==> RequestStatusName(db.requests[k].status) == Render(status))
              && (ScopedToOwnLocation(user) ==> db.requests[k].locationId == user.value.locationId.value)
    ensures answer == Ok ==> pg.page == IntOr(page, 1) && pg.limit == IntOr(limit, 20) && pg.total == |ids|
    ensures answer == Ok ==> pg.totalPages == CeilDiv(|ids|, pg.limit) && pg.totalPages.Some?
  {
    var pageNo := IntOr(page, 1);
    var size := IntOr(limit, 20);
    w := RequestWhere(user, status);
    if SkipRefused(pageNo, size) {
      return ServerError, w, {}, Pagination(0, 0, 0, None);
    }
    ids := Selected(db.requests, w, RequestRow);
    forall k | k in db.requests
      ensures Matches(w, RequestRow(k, db.requests[k])) <==>
              (Truthy(status) ==> RequestStatusName(db.requests[k].status) == Render(status))
              && (ScopedToOwnLocation(user) ==> db.requests[k].locationId == user.value.locationId.value)
    {
      RequestWhereSelects(user, status, k, db.requests[k]);
    }
    answer := Ok;
    pg := Pagination(pageNo, size, |ids|, CeilDiv(|ids|, size));
  }

  /** The filter of `getAllRequests`: the status when one is given, and the
      caller's own location when the list is scoped to it. */
  function RequestWhere(user: Option<AuthUser>, status: JsVal): (w: Where)
    ensures "locationId" in w <==> ScopedToOwnLocation(user)
    ensures ScopedToOwnLocation(user) ==> w["locationId"] == Eq(IntV(user.value.locationId.value))
    ensures "status" in w <==> Truthy(status)
    ensures Truthy(status) ==> w["status"] == Eq(StrV(Render(status)))
    ensures w.Keys <= {"status", "locationId"}
    ensures !HasNaN(w)
  {
    var w0: Where := if Truthy(status) then map["status" := Eq(StrV(Render(status)))] else map[];
    if ScopedToOwnLocation(user) then w0["locationId" := Eq(IntV(user.value.locationId.value))] else w0
  }

  /** The filter selects a request exactly when its status and its location are the ones asked for. */
  lemma RequestWhereSelects(user: Option<AuthUser>, status: JsVal, k: int, r: InventoryRequest)
    ensures Matches(RequestWhere(user, status), RequestRow(k, r)) <==>
              (Truthy(status) ==> RequestStatusName(r.status) == Render(status))
              && (ScopedToOwnLocation(user) ==> r.locationId == user.value.locationId.value)
  {
    var w, row := RequestWhere(user, status), RequestRow(k, r);
    if Matches(w, row) {
      if Truthy(status) {
        assert Holds("status", w["status"], row);
      }
      if ScopedToOwnLocation(user) {
        assert Holds("locationId", w["locationId"], row);
      }
    }
  }

  /** `getRequestById`. */
  method GetRequestById(db: Db, user: Option<AuthUser>, id: JsVal) returns (status: Status)
    requires db.Valid()
    ensures ParseJs(id).None? ==> status == BadRequest
    ensures ParseJs(id).Some? && ParseJs(id).value !in db.requests ==> status == NotFound
    ensures ParseJs(id).Some? && ParseJs(id).value in db.requests ==>
      var r := db.requests[ParseJs(id).value];
      && (status == Forbidden <==>
            user.Some? && IsManagerOrEngineer(user.value.role) && user.value.locationId != Some(r.locationId))
      && (status == Ok <==> !(status == Forbidden))
      && (status == Ok && user.Some? && IsManagerOrEngineer(user.value.role) && r.locationId != 0 ==>
            ValidateLocationAccess(user.value, r.locationId))
  {
    var rid := ParseJs(id);
    if rid.None? {
      return BadRequest;
    }
    if rid.value !in db.requests {
      return NotFound;
    }
    var r := db.requests[rid.value];
    if user.Some? && IsManagerOrEngineer(user.value.role) && user.value.locationId != Some(r.locationId) {
      return Forbidden;
    }
    return Ok;
  }

  /** Whether the caller may approve or reject a request of `r`'s location:
      a super admin, or a caller assigned to exactly that location. */
  predicate MayDecide(user: AuthUser, r: InventoryRequest) {
    user.role == SuperAdmin || user.locationId == Some(r.locationId)
  }

  /** For a manager or engineer, deciding agrees with the location access check. */
  lemma MayDecideIsAccess(user: AuthUser, r: InventoryRequest)
    requires user.role != OtherRole && r.locationId != 0
    ensures MayDecide(user, r) <==> ValidateLocationAccess(user, r.locationId)
  {
  }

  /** `approveRequest`. */
  method ApproveRequest(db: Db, user: Option<AuthUser>, id: JsVal) returns (status: Status)
    requires db.Valid()
    modifies db
    ensures db.Valid()
    ensures status != Ok ==> db.State() == old(db.State())
    ensures ParseJs(id).None? ==> status == BadRequest
    ensures ParseJs(id).Some? && !Identified(user) ==> status == Unauthorized
    ensures ParseJs(id).Some? && Identified(user) ==>
      var rid := ParseJs(id).value;
      && (rid !in old(db.requests) ==> status == NotFound)
      && (rid in old(db.requests) ==>
            var r := old(db.requests)[rid];
            && (r.status != Pending ==> status == BadRequest)
            && (r.status == Pending && !MayDecide(user.value, r) ==> status == Forbidden)
            && ((r.status == Pending && MayDecide(user.value, r) && !Resolves(old(db.State()), r.locationId, r.productId))
                  ==> status == ServerError)
            && ((r.status == Pending && MayDecide(user.value, r) && Resolves(old(db.State()), r.locationId, r.productId))
                  ==> status == Ok && db.State() == AfterApproval(old(db.State()), rid, Some(user.value.id))))
  {
    var rid := ParseJs(id);
    if rid.None? {
      return BadRequest;
    }
    if !Identified(user) {
      return Unauthorized;
    }
    if rid.value !in db.requests {
      return NotFound;
    }
    var r := db.requests[rid.value];
    if r.status != Pending {
      return BadRequest;
    }
    if !MayDecide(user.value, r) {
      return Forbidden;
    }
    // The transaction: the upsert's insert throws on a dangling slot.
    var existing := db.FindSlot(r.locationId, r.productId);
    if existing.Some? {
      SlotResolves(db.State(), r.locationId, r.productId);
    } else if r.locationId !in db.locations || r.productId !in db.products {
      return ServerError;
    }
    db.Approve(rid.value, Some(user.value.id));
    return Ok;
  }

  /** An approved request is no longer pending and every other request is as it
      was, so a second approval of it is answered 400 (or earlier) and changes
      nothing: inventory is never incremented twice for one request. */
  lemma ApprovalIsFinal(t: Tables, id: int, approver: Option<int>)
    requires WellFormed(t) && id in t.requests
    ensures var t2 := AfterApproval(t, id, approver);
            && id in t2.requests && t2.requests[id].status == Approved
            && t2.requests[id].quantity == t.requests[id].quantity
            && (forall k :: k in t.requests && k != id ==> k in t2.requests && t2.requests[k] == t.requests[k])
            && t2.locations == t.locations && t2.products == t.products && t2.users == t.users
  {
  }

  /** `rejectRequest`: the same guards, then REJECTED; inventory is not touched. */
  method RejectRequest(db: Db, user: Option<AuthUser>, id: JsVal) returns (status: Status)
    requires db.Valid()
    modifies db
    ensures db.Valid()
    ensures status != Ok ==> db.State() == old(db.State())
    ensures db.inventory == old(db.inventory) && db.nextInventory == old(db.nextInventory)
    ensures ParseJs(id).None? ==> status == BadRequest
    ensures ParseJs(id).Some? && !Identified(user) ==> status == Unauthorized
    ensures ParseJs(id).Some? && Identified(user) ==>
      var rid := ParseJs(id).value;
      && (rid !in old(db.requests) ==> status == NotFound)
      && (rid in old(db.requests) ==>
            var r := old(db.requests)[rid];
            && (r.status != Pending ==> status == BadRequest)
            && (r.status == Pending && !MayDecide(user.value, r) ==> status == Forbidden)
            && (r.status == Pending && MayDecide(user.value, r) ==>
                  status == Ok
                  && db.State() == old(db.State()).(requests := Decided(old(db.requests), rid, Rejected, Some(user.value.id)))))
  {
    var rid := ParseJs(id);
    if rid.None? {
      return BadRequest;
    }
    if !Identified(user) {
      return Unauthorized;
    }
    if rid.value !in db.requests {
      return NotFound;
    }
    var r := db.requests[rid.value];
    if r.status != Pending {
      return BadRequest;
    }
    if !MayDecide(user.value, r) {
      return Forbidden;
    }
    db.requests := Decided(db.requests, rid.value, Rejected, Some(user.value.id));
    return Ok;
  }

  /** `getPendingRequestsForUser`: the PENDING requests of the caller's
      location, oldest (lowest id) first; nothing without a location. */
  method GetPendingRequestsForUser(db: Db, user: Option<AuthUser>) returns (ids: seq<int>)
    requires db.Valid()
    ensures !(user.Some? && TruthyInt(user.value.locationId)) ==> ids == []
    ensures forall i, j :: 0 <= i < j < |ids| ==> ids[i] < ids[j]
    ensures forall k :: k in ids <==>
              user.Some? && TruthyInt(user.value.locationId) && k in db.requests
              && db.requests[k].locationId == user.value.locationId.value && db.requests[k].status == Pending
  {
    ids := [];
    if user.None? || !TruthyInt(user.value.locationId) {
      return;
    }
    var loc := user.value.locationId.value;
    var i := 1;
    while i < db.nextRequest
      invariant 1 <= i <= db.nextRequest
      invariant forall a, b :: 0 <= a < b < |ids| ==> ids[a] < ids[b]
      invariant forall a :: 0 <= a < |ids| ==> ids[a] < i
      invariant forall k :: k in ids <==>
                  k in db.requests && db.requests[k].locationId == loc && db.requests[k].status == Pending && k < i
    {
      if i in db.requests && db.requests[i].locationId == loc && db.requests[i].status == Pending {
        ids := ids + [i];
      }
      i := i + 1;
    }
  }
}
