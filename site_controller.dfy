/** The site handlers (backend/src/controllers/siteController.ts): the shared
    location lifecycle for kind SITE, the detail view that hides a finished site
    from everybody but a super admin, and the finish workflow. */
module SiteController {
  import opened Optional
  import opened JsText
  import opened Domain
  import opened QueryHelpers
  import opened Database
  import opened Paging
  import opened LocationLifecycle

  /** `createSite`. */
  method CreateSite(db: Db, b: LocationBody) returns (status: Status)
    requires db.Valid()
    modifies db
    ensures db.Valid()
    ensures Outcome(status, db.State()) == CreateOutcome(old(db.State()), Site, b)
  {
    status := CreateLocation(db, Site, b);
  }

  /** `getAllSites`: only a site engineer with a location is confined to it. */
  method GetAllSites(db: Db, user: Option<AuthUser>, page: JsVal, limit: JsVal) returns (status: Status, ids: set<int>, pg: Pagination)
    requires db.Valid()
    ensures status == Ok || status == ServerError
    ensures status == ServerError <==> SkipRefused(IntOr(page, 1), IntOr(limit, 10))
    ensures status == ServerError ==> ids == {}
    ensures status == Ok ==> forall k :: k in ids <==>
              k in db.locations && db.locations[k].kind == Site
              && (user.Some? && user.value.role == SiteEngineer && TruthyInt(user.value.locationId) ==> k == user.value.locationId.value)
    ensures status == Ok ==> pg.page == IntOr(page, 1) && pg.limit == IntOr(limit, 10) && pg.total == |ids|
    ensures status == Ok ==> pg.totalPages == CeilDiv(|ids|, pg.limit)
  {
    status, ids, pg := ListLocations(db, Site, user, page, limit);
  }

  predicate IsSite(locations: map<int, Location>, id: int) {
    id in locations && locations[id].kind == Site
  }

  /** `getSiteById`: the access gate, then a finished site is refused to
      everybody but a super admin, then a missing site is a 404. */
  function SiteDetail(locations: map<int, Location>, user: Option<AuthUser>, id: Option<int>): Reply {
    var g := DetailGate(user, id, "Site", "Attempted to access site details without permission");
    if g.Answer? then Reply(g.status, g.log)
    else
      var sid := id.value;
      if IsSite(locations, sid) && locations[sid].status == "COMPLETED" && user.value.role != SuperAdmin then Reply(Forbidden, [])
      else if !IsSite(locations, sid) then Reply(NotFound, [])
      else Reply(Ok, [])
  }

  /** A site is shown exactly to a caller the access check admits, and when it
      is finished only to a super admin; only a refused access writes to the log. */
  lemma SiteDetailShown(locations: map<int, Location>, user: Option<AuthUser>, id: Option<int>)
    ensures var r := SiteDetail(locations, user, id);
            && (r.status == Ok <==>
                  id.Some? && user.Some? && ValidateLocationAccess(user.value, id.value)
                  && IsSite(locations, id.value)
                  && (locations[id.value].status == "COMPLETED" ==> user.value.role == SuperAdmin))
            && (|r.log| > 0 <==>
                  id.Some? && user.Some? && !ValidateLocationAccess(user.value, id.value))
            && (|r.log| > 0 ==> r.status == Forbidden && |r.log| == 1 && r.log[0].resource == "Site:" + IntToString(id.value))
  {
    var g := DetailGate(user, id, "Site", "Attempted to access site details without permission");
    if g.Answer? {
      DetailGateOrder(user, id, "Site", "Attempted to access site details without permission");
      assert SiteDetail(locations, user, id) == Reply(g.status, g.log);
    } else {
      assert |SiteDetail(locations, user, id).log| == 0;
    }
  }

  method GetSiteById(db: Db, user: Option<AuthUser>, id: JsVal) returns (status: Status)
    requires db.Valid()
    modifies db
    ensures db.Valid()
    ensures status == SiteDetail(old(db.locations), user, ParseJs(id)).status
    ensures db.State() == old(db.State()).(events := old(db.events) + SiteDetail(old(db.locations), user, ParseJs(id)).log)
  {
    status := ShowSite(db, user, ParseJs(id));
  }

  method ShowSite(db: Db, user: Option<AuthUser>, id: Option<int>) returns (status: Status)
    requires db.Valid()
    modifies db
    ensures db.Valid()
    ensures status == SiteDetail(old(db.locations), user, id).status
    ensures db.State() == old(db.State()).(events := old(db.events) + SiteDetail(old(db.locations), user, id).log)
  {
    var g := DetailGate(user, id, "Site", "Attempted to access site details without permission");
    if g.Answer? {
      db.events := db.events + g.log;
      return g.status;
    }
    var sid := id.value;
    if IsSite(db.locations, sid) && db.locations[sid].status == "COMPLETED" && user.value.role != SuperAdmin {
      return Forbidden;
    }
    if !IsSite(db.locations, sid) {
      return NotFound;
    }
    return Ok;
  }

  /** `updateSite`. */
  method UpdateSite(db: Db, id: JsVal, b: LocationBody) returns (status: Status)
    requires db.Valid()
    modifies db
    ensures db.Valid()
    ensures Outcome(status, db.State()) == UpdateOutcome(old(db.State()), Site, ParseJs(id), b)
  {
    status := UpdateLocation(db, Site, id, b);
  }

  /** `deleteSite`. */
  method DeleteSite(db: Db, id: JsVal) returns (status: Status)
    requires db.Valid()
    modifies db
    ensures db.Valid()
    ensures Outcome(status, db.State()) == DeleteOutcome(old(db.State()), Site, ParseJs(id))
  {
    status := DeleteLocation(db, Site, id);
  }

  /** `finishSite`: refused while the location's quantities add up to more
      than 0; otherwise the location becomes COMPLETED and its site engineers
      lose access, in one transaction. The location's type is not checked, and
      a missing location makes the update throw. */
  ghost function FinishOutcome(t: Tables, id: Option<int>): Outcome
    requires t.nextInventory >= 0
  {
    if id.None? then Outcome(BadRequest, t)
    else
      var lid := id.value;
      if Stock(t, AtLocation(lid)) > 0 then Outcome(BadRequest, t)
      else if lid !in t.locations then Outcome(ServerError, t)
      else Outcome(Ok, t.(locations := t.locations[lid := t.locations[lid].(status := "COMPLETED")],
                          users := EngineersDeactivated(t.users, lid)))
  }

  method FinishSite(db: Db, id: JsVal) returns (status: Status)
    requires db.Valid()
    modifies db
    ensures db.Valid()
    ensures Outcome(status, db.State()) == FinishOutcome(old(db.State()), ParseJs10(id))
  {
    var lid := ParseJs10(id);
    if lid.None? {
      return BadRequest;
    }
    var total := db.SumQuantity(AtLocation(lid.value));
    if total > 0 {
      return BadRequest;
    }
    if lid.value !in db.locations {
      return ServerError;
    }
    db.SetLocation(lid.value, db.locations[lid.value].(status := "COMPLETED"));
    db.DeactivateEngineers(lid.value);
    return Ok;
  }

  /** A refused finish changes nothing, and a location holding stock is refused. */
  lemma FinishRejects(t: Tables, id: Option<int>)
    requires WellFormed(t)
    ensures FinishOutcome(t, id).status != Ok ==> FinishOutcome(t, id).after == t
    ensures id.Some? && Stock(t, AtLocation(id.value)) > 0 ==>
              FinishOutcome(t, id) == Outcome(BadRequest, t)
    ensures FinishOutcome(t, id).status == Ok <==>
              id.Some? && Stock(t, AtLocation(id.value)) <= 0 && id.value in t.locations
  {
  }

  /** A finish sets COMPLETED on that location only, deactivates exactly the
      site engineers assigned to it and touches no other table. */
  lemma FinishEffects(t: Tables, id: Option<int>)
    requires WellFormed(t)
    requires FinishOutcome(t, id).status == Ok
    ensures var lid := id.value;
            var a := FinishOutcome(t, id).after;
            && a.locations == t.locations[lid := t.locations[lid].(status := "COMPLETED")]
            && a.users.Keys == t.users.Keys
            && (forall k :: k in t.users ==>
                  a.users[k].(isActive := t.users[k].isActive) == t.users[k]
                  && (a.users[k].isActive <==>
                        t.users[k].isActive && !(t.users[k].locationId == Some(lid) && t.users[k].role == SiteEngineer)))
            && a.inventory == t.inventory && a.products == t.products && a.requests == t.requests && a.events == t.events
  {
  }

  /** After a finish the location holds no stock. */
  lemma FinishLeavesNoStock(t: Tables, id: Option<int>)
    requires WellFormed(t)
    requires FinishOutcome(t, id).status == Ok
    ensures Stock(FinishOutcome(t, id).after, AtLocation(id.value)) <= 0
  {
    var a := FinishOutcome(t, id).after;
    assert a.inventory == t.inventory && a.nextInventory == t.nextInventory;
  }

  /** Finishing a finished location again succeeds and changes nothing. */
  lemma FinishIdempotent(t: Tables, id: Option<int>)
    requires WellFormed(t)
    requires FinishOutcome(t, id).status == Ok
    ensures FinishOutcome(FinishOutcome(t, id).after, id) == FinishOutcome(t, id)
  {
    var lid := id.value;
    var a := FinishOutcome(t, id).after;
    assert a.inventory == t.inventory && a.nextInventory == t.nextInventory;
    assert Stock(a, AtLocation(lid)) == Stock(t, AtLocation(lid));
    assert EngineersDeactivated(a.users, lid) == a.users;
    assert a.locations[lid := a.locations[lid].(status := "COMPLETED")] == a.locations;
  }

  /** Once a site is finished, a caller other than a super admin is refused its details. */
  lemma FinishedSiteHidden(t: Tables, id: Option<int>, user: AuthUser)
    requires WellFormed(t)
    requires FinishOutcome(t, id).status == Ok
    requires user.role != SuperAdmin
    ensures SiteDetail(FinishOutcome(t, id).after.locations, Some(user), id).status != Ok
  {
    var locations := FinishOutcome(t, id).after.locations;
    assert id.Some? && id.value in locations && locations[id.value].status == "COMPLETED";
    CompletedSiteHidden(locations, user, id.value);
  }

  /** A finished location's details are refused to any caller but a super admin. */
  lemma CompletedSiteHidden(locations: map<int, Location>, user: AuthUser, lid: int)
    requires lid in locations && locations[lid].status == "COMPLETED"
    requires user.role != SuperAdmin
    ensures SiteDetail(locations, Some(user), Some(lid)).status != Ok
  {
    SiteDetailShown(locations, Some(user), Some(lid));
  }
}
