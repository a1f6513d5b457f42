/** Product assignment requests raised by location staff and decided by the
    super admin (backend/src/controllers/assignmentController.ts). They share
    the request table with the inventory-request workflow but differ from it:
    the request is always for the caller's own location, a caller without a
    location sees nothing, and a decision checks no location access. */
module AssignmentController {
  import opened Optional
  import opened JsText
  import opened Domain
  import opened QueryHelpers
  import opened Database
  import opened RequestController

  const AssignmentsLink := "/dashboard/superadmin/assignments"

  /** `req.user?.id`, which Prisma leaves unwritten when it is undefined. */
  function CallerId(user: Option<AuthUser>): (o: Option<int>)
    ensures o.Some? <==> user.Some?
    ensures o.Some? ==> o.value == user.value.id
  {
    if user.Some? then Some(user.value.id) else None
  }

  /** `createAssignment`: a PENDING request for the caller's own location,
      then one INFO notification per super admin. */
  method CreateAssignment(db: Db, user: Option<AuthUser>, productId: JsVal, quantity: JsVal)
    returns (status: Status)
    requires db.Valid()
    modifies db
    ensures db.Valid()
    ensures status != Created ==> db.State() == old(db.State())
    ensures !(Truthy(productId) && Truthy(quantity) && user.Some? && TruthyInt(user.value.locationId)) ==> status == BadRequest
    ensures Truthy(productId) && Truthy(quantity) && user.Some? && TruthyInt(user.value.locationId) ==>
      var p, q, loc := ParseJs(productId), ParseJs(quantity), user.value.locationId.value;
      && (p.None? || q.None? || !Resolves(old(db.State()), loc, p.value) ==> status == ServerError)
      && (p.Some? && q.Some? && Resolves(old(db.State()), loc, p.value) ==>
            status == Created
            && db.State() == old(db.State()).(
                 requests := old(db.requests)[old(db.nextRequest) := NewRequest(p.value, loc, q.value, user.value.id)],
                 nextRequest := old(db.nextRequest) + 1,
                 events := old(db.events) + Notices(AdminIds(old(db.users), old(db.nextUser)), Info, AssignmentsLink)))
  {
    if !Truthy(productId) || !Truthy(quantity) || user.None? || !TruthyInt(user.value.locationId) {
      return BadRequest;
    }
    var p, q, loc := ParseJs(productId), ParseJs(quantity), user.value.locationId.value;
    if p.None? || q.None? || loc !in db.locations || p.value !in db.products {
      return ServerError;
    }
    db.InsertRequest(NewRequest(p.value, loc, q.value, user.value.id));
    db.NotifyAdmins(Info, AssignmentsLink);
    return Created;
  }

  /** Every super admin, and nobody else, is notified of a new assignment, each once. */
  lemma AssignmentNoticesReachAdmins(users: map<int, User>, next: nat)
    ensures var es := Notices(AdminIds(users, next), Info, AssignmentsLink);
            && (forall i :: 0 <= i < |es| ==> es[i].Notice? && es[i].link == AssignmentsLink
                                              && es[i].recipient in users && users[es[i].recipient].role == SuperAdmin)
            && (forall k :: 0 <= k < next && k in users && users[k].role == SuperAdmin ==>
                  exists i :: 0 <= i < |es| && es[i].recipient == k)
            && (forall i, j :: 0 <= i < j < |es| ==> es[i].recipient != es[j].recipient)
  {
    var ids := AdminIds(users, next);
    AdminIdsAreTheAdmins(users, next);
    var es := Notices(ids, Info, AssignmentsLink);
    forall k | 0 <= k < next && k in users && users[k].role == SuperAdmin
      ensures exists i :: 0 <= i < |es| && es[i].recipient == k
    {
      var i :| 0 <= i < |ids| && ids[i] == k;
      assert es[i].recipient == k;
    }
    forall i | 0 <= i < |es|
      ensures es[i].recipient in users && users[es[i].recipient].role == SuperAdmin
    {
      assert ids[i] in ids;
    }
  }

  /** `getAssignments`: the requests the caller sees. A caller other than a
      super admin who has no location gets an empty list. */
  method GetAssignments(db: Db, user: Option<AuthUser>, status: JsVal) returns (ids: set<int>)
    requires db.Valid()
    ensures !(user.Some? && user.value.role == SuperAdmin) && !(user.Some? && TruthyInt(user.value.locationId)) ==> ids == {}
    ensures forall k :: k in ids <==>
              k in db.requests
              && (Truthy(status) ==> RequestStatusName(db.requests[k].status) == Render(status))
              && (!(user.Some? && user.value.role == SuperAdmin) ==>
                    user.Some? && TruthyInt(user.value.locationId) && db.requests[k].locationId == user.value.locationId.value)
  {
    var w: Where := map[];
    if Truthy(status) {
      w := w["status" := Eq(StrV(Render(status)))];
    }
    var admin := user.Some? && user.value.role == SuperAdmin;
    if !admin {
      if user.Some? && TruthyInt(user.value.locationId) {
        w := w["locationId" := Eq(IntV(user.value.locationId.value))];
      } else {
        return {};
      }
    }
    assert Truthy(status) ==> w["status"] == Eq(StrV(Render(status)));
    assert !admin ==> w["locationId"] == Eq(IntV(user.value.locationId.value));
    ids := Selected(db.requests, w, RequestRow);
    forall k | k in db.requests
      ensures Matches(w, RequestRow(k, db.requests[k])) <==>
              (Truthy(status) ==> RequestStatusName(db.requests[k].status) == Render(status))
              && (!admin ==> db.requests[k].locationId == user.value.locationId.value)
    {
      var row := RequestRow(k, db.requests[k]);
      if Matches(w, row) {
        if Truthy(status) {
          assert Holds("status", w["status"], row);
        }
        if !admin {
          assert Holds("locationId", w["locationId"], row);
        }
      }
    }
  }

  /** The dashboard an approval notification links to. */
  function DashboardLink(kind: LocationType): string {
    if kind == Store then "/dashboard/store" else "/dashboard/site"
  }

  /** `approveAssignment`: unlike `approveRequest` it checks neither the caller
      nor the caller's location; a NaN id makes the lookup throw. */
  method ApproveAssignment(db: Db, user: Option<AuthUser>, id: JsVal) returns (status: Status)
    requires db.Valid()
    modifies db
    ensures db.Valid()
    ensures status != Ok ==> db.State() == old(db.State())
    ensures ParseJs(id).None? ==> status == ServerError
    ensures ParseJs(id).Some? ==>
      var rid := ParseJs(id).value;
      && (rid !in old(db.requests) || old(db.requests)[rid].status != Pending ==> status == BadRequest)
      && (rid in old(db.requests) && old(db.requests)[rid].status == Pending ==>
            var r := old(db.requests)[rid];
            && (!Resolves(old(db.State()), r.locationId, r.productId) ==> status == ServerError)
            && (Resolves(old(db.State()), r.locationId, r.productId) ==>
                  status == Ok
                  && db.State() == AfterApproval(old(db.State()), rid, CallerId(user)).(
                       events := old(db.events) + [Notice(r.requestedById, Success, DashboardLink(old(db.locations)[r.locationId].kind))])))
  {
    var rid := ParseJs(id);
    if rid.None? {
      return ServerError;
    }
    if rid.value !in db.requests || db.requests[rid.value].status != Pending {
      return BadRequest;
    }
    var r := db.requests[rid.value];
    // The transaction: a dangling location or product throws and rolls back.
    if r.locationId !in db.locations || r.productId !in db.products {
      return ServerError;
    }
    var kind := db.locations[r.locationId].kind;
    db.Approve(rid.value, CallerId(user));
    db.Append([Notice(r.requestedById, Success, DashboardLink(kind))]);
    return Ok;
  }

  /** `rejectAssignment`: REJECTED, an ERROR notification to the requester,
      and no change to inventory. */
  method RejectAssignment(db: Db, user: Option<AuthUser>, id: JsVal) returns (status: Status)
    requires db.Valid()
    modifies db
    ensures db.Valid()
    ensures status != Ok ==> db.State() == old(db.State())
    ensures db.inventory == old(db.inventory) && db.nextInventory == old(db.nextInventory)
    ensures ParseJs(id).None? ==> status == ServerError
    ensures ParseJs(id).Some? ==>
      var rid := ParseJs(id).value;
      && (rid !in old(db.requests) || old(db.requests)[rid].status != Pending ==> status == BadRequest)
      && (rid in old(db.requests) && old(db.requests)[rid].status == Pending ==>
            var r := old(db.requests)[rid];
            && (r.productId !in old(db.products) ==> status == ServerError)
            && (r.productId in old(db.products) ==>
                  status == Ok
                  && db.State() == old(db.State()).(
                       requests := Decided(old(db.requests), rid, Rejected, CallerId(user)),
                       events := old(db.events) + [Notice(r.requestedById, Error, "#")])))
  {
    var rid := ParseJs(id);
    if rid.None? {
      return ServerError;
    }
    if rid.value !in db.requests || db.requests[rid.value].status != Pending {
      return BadRequest;
    }
    var r := db.requests[rid.value];
    if r.productId !in db.products {
      return ServerError;
    }
    db.requests := Decided(db.requests, rid.value, Rejected, CallerId(user));
    db.Append([Notice(r.requestedById, Error, "#")]);
    return Ok;
  }
}
