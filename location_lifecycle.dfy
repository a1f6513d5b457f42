/** What the site and store handlers share
    (backend/src/controllers/siteController.ts and
    backend/src/controllers/storeController.ts). Both kinds of location live in
    one table and differ in their `type`, in the staff column that names their
    person in charge (a store's manager, a site's engineer) and in the role that
    person has. Each handler here takes the kind; the two controllers fix it. */
module LocationLifecycle {
  import opened Optional
  import opened JsText
  import opened Domain
  import opened QueryHelpers
  import opened Database
  import opened Paging

  function TypeName(kind: LocationType): string {
    if kind == Store then "STORE" else "SITE"
  }

  /** The role of the person a location of `kind` is run by. */
  function StaffRole(kind: LocationType): Role {
    if kind == Store then StoreManager else SiteEngineer
  }

  /** The name a newly hired person gets when the body gives none. */
  function DefaultStaffName(kind: LocationType): string {
    if kind == Store then "Store Manager" else "Site Engineer"
  }

  /** The staff column of a location of `kind`: `managerId` or `engineerId`. */
  function StaffOf(l: Location, kind: LocationType): Option<int> {
    if kind == Store then l.managerId else l.engineerId
  }

  /** The `newManager` / `newEngineer` object of a create body. */
  datatype StaffBody = StaffBody(email: Option<string>, password: Option<string>, name: Option<string>)

  /** The fields a create or update body may carry; `staffId` is `managerId` or
      `engineerId`, `newStaff` is `newManager` or `newEngineer`. */
  datatype LocationBody = LocationBody(
    name: Option<string>, region: Option<string>, description: Option<string>, address: Option<string>,
    status: Option<string>, staffId: JsVal, newStaff: Option<StaffBody>)

  /** The body asks for a new person to be created: an object with a truthy
      email and a truthy password. */
  predicate Hires(b: LocationBody) {
    b.newStaff.Some? && TruthyText(b.newStaff.value.email) && TruthyText(b.newStaff.value.password)
  }

  /** Some location of `kind` other than `except` is called `name`. */
  ghost predicate NameUsed(locations: map<int, Location>, name: string, kind: LocationType, except: Option<int>) {
    exists k :: k in locations && locations[k].kind == kind && locations[k].name == name && Some(k) != except
  }

  ghost predicate EmailUsed(users: map<int, User>, email: string) {
    exists k :: k in users && users[k].email == email
  }

  /** No two locations of `kind` share a name. */
  ghost predicate NamesUnique(locations: map<int, Location>, kind: LocationType) {
    forall a, b ::
      (a in locations && b in locations && locations[a].kind == kind && locations[b].kind == kind
       && locations[a].name == locations[b].name) ==> a == b
  }

  /** The email column is unique. */
  ghost predicate EmailsUnique(users: map<int, User>) {
    forall a, b :: a in users && b in users && users[a].email == users[b].email ==> a == b
  }

  /** The person hired with a new location: active, of the kind's role and not
      yet at any location. */
  function NewStaff(kind: LocationType, s: StaffBody): (u: User)
    requires s.email.Some?
    ensures u.role == StaffRole(kind) && u.isActive && u.locationId.None? && u.email == s.email.value
    ensures TruthyText(s.name) ==> u.name == s.name.value
    ensures !TruthyText(s.name) ==> u.name == DefaultStaffName(kind)
  {
    User(s.email.value, TextOr(s.name, DefaultStaffName(kind)), StaffRole(kind), None, true)
  }

  /** The new location row; an absent status becomes ACTIVE and `staff` goes
      into the kind's staff column (the other one stays null). */
  function NewLocation(kind: LocationType, b: LocationBody, staff: Option<int>): (l: Location)
    requires b.name.Some?
    ensures l.name == b.name.value && l.kind == kind && StaffOf(l, kind) == staff
    ensures l.status == (if TruthyText(b.status) then b.status.value else "ACTIVE")
    ensures l.region == b.region && l.description == b.description && l.address == b.address
    ensures l.managerId.None? || l.engineerId.None?
  {
    Location(b.name.value, kind, TextOr(b.status, "ACTIVE"), b.region, b.description, b.address,
             if kind == Store then staff else None, if kind == Site then staff else None)
  }

  /** The location insert, then the link from `staff` back to it. A staff id
      with no user makes the update throw, and the transaction rolls back to `t0`. */
  ghost function Placed(t0: Tables, t1: Tables, kind: LocationType, b: LocationBody, staff: Option<int>): Outcome
    requires b.name.Some?
  {
    var lid := t1.nextLocation;
    var t2 := t1.(locations := t1.locations[lid := NewLocation(kind, b, staff)], nextLocation := lid + 1);
    if !TruthyInt(staff) then Outcome(Created, t2)
    else if staff.value !in t2.users then Outcome(ServerError, t0)
    else Outcome(Created, t2.(users := t2.users[staff.value := t2.users[staff.value].(locationId := Some(lid))]))
  }

  /** The tables with the hired person inserted. */
  ghost function WithStaff(t: Tables, kind: LocationType, s: StaffBody): Tables
    requires s.email.Some?
  {
    t.(users := t.users[t.nextUser := NewStaff(kind, s)], nextUser := t.nextUser + 1)
  }

  /** `createStore` / `createSite`. */
  ghost function CreateOutcome(t: Tables, kind: LocationType, b: LocationBody): Outcome {
    if !TruthyText(b.name) then Outcome(BadRequest, t)
    else if NameUsed(t.locations, b.name.value, kind, None) then Outcome(BadRequest, t)
    else StaffedOutcome(t, kind, b)
  }

  /** The creation once the name is known to be free: hire or look up the
      staff member, then place the location. */
  ghost function StaffedOutcome(t: Tables, kind: LocationType, b: LocationBody): Outcome
    requires b.name.Some?
  {
    if Hires(b) then
      if EmailUsed(t.users, b.newStaff.value.email.value) then Outcome(ServerError, t)
      else Placed(t, WithStaff(t, kind, b.newStaff.value), kind, b, Some(t.nextUser))
    else if Truthy(b.staffId) && ParseJs(b.staffId).None? then Outcome(ServerError, t)
    else Placed(t, t, kind, b, if Truthy(b.staffId) then ParseJs(b.staffId) else None)
  }

  /** The creation transaction. */
  method CreateLocation(db: Db, kind: LocationType, b: LocationBody) returns (status: Status)
    requires db.Valid()
    modifies db
    ensures db.Valid()
    ensures Outcome(status, db.State()) == CreateOutcome(old(db.State()), kind, b)
  {
    if !TruthyText(b.name) {
      return BadRequest;
    }
    var taken := db.NameTaken(b.name.value, kind, None);
    if taken {
      return BadRequest;
    }
    status := HireAndPlace(db, kind, b);
  }

  /** The creation after the name check. Checking for a missing staff member
      before the inserts leaves the same tables as the rollback does. */
  method HireAndPlace(db: Db, kind: LocationType, b: LocationBody) returns (status: Status)
    requires db.Valid() && b.name.Some?
    modifies db
    ensures db.Valid()
    ensures Outcome(status, db.State()) == StaffedOutcome(old(db.State()), kind, b)
  {
    var staff: Option<int>;
    if Hires(b) {
      var used := db.EmailTaken(b.newStaff.value.email.value);
      if used {
        return ServerError;
      }
      staff := Some(db.nextUser);
      db.InsertUser(NewStaff(kind, b.newStaff.value));
    } else if Truthy(b.staffId) {
      staff := ParseJs(b.staffId);
      if staff.None? {
        return ServerError;
      }
    } else {
      staff := None;
    }
    if TruthyInt(staff) && staff.value !in db.users {
      return ServerError;
    }
    Place(db, kind, b, staff);
    return Created;
  }

  /** The second half of the creation: insert the location and link its staff member. */
  method Place(db: Db, kind: LocationType, b: LocationBody, staff: Option<int>)
    requires db.Valid() && b.name.Some?
    requires TruthyInt(staff) ==> staff.value in db.users
    modifies db
    ensures db.Valid()
    ensures Outcome(Created, db.State()) == Placed(old(db.State()), old(db.State()), kind, b, staff)
  {
    var lid := db.nextLocation;
    db.InsertLocation(NewLocation(kind, b, staff));
    if TruthyInt(staff) {
      db.SetUser(staff.value, db.users[staff.value].(locationId := Some(lid)));
    }
  }

  /** A failed creation changes nothing: a missing or taken name is a 400, a
      taken email of the person to hire a 500. */
  lemma CreateRejects(t: Tables, kind: LocationType, b: LocationBody)
    ensures CreateOutcome(t, kind, b).status != Created ==> CreateOutcome(t, kind, b).after == t
    ensures !TruthyText(b.name) ==> CreateOutcome(t, kind, b) == Outcome(BadRequest, t)
    ensures TruthyText(b.name) && NameUsed(t.locations, b.name.value, kind, None) ==>
              CreateOutcome(t, kind, b) == Outcome(BadRequest, t)
    ensures (TruthyText(b.name) && !NameUsed(t.locations, b.name.value, kind, None) && Hires(b)
             && EmailUsed(t.users, b.newStaff.value.email.value)) ==> CreateOutcome(t, kind, b) == Outcome(ServerError, t)
  {
  }

  /** A successful placement adds exactly the new row, and links exactly the
      named staff member to it. */
  lemma PlacedAdds(t0: Tables, t1: Tables, kind: LocationType, b: LocationBody, staff: Option<int>)
    requires b.name.Some?
    requires Placed(t0, t1, kind, b, staff).status == Created
    ensures var a := Placed(t0, t1, kind, b, staff).after;
            var lid := t1.nextLocation;
            && a == t1.(locations := a.locations, nextLocation := lid + 1, users := a.users)
            && a.locations == t1.locations[lid := NewLocation(kind, b, staff)]
            && (TruthyInt(staff) ==>
                  (staff.value in t1.users
                   && a.users == t1.users[staff.value := t1.users[staff.value].(locationId := Some(lid))]))
            && (!TruthyInt(staff) ==> a.users == t1.users)
  {
  }

  /** After a creation the new location and its staff member point at each
      other, the location has the given name and kind and an ACTIVE default
      status, and a hired person is the new active user of the kind's role. */
  lemma CreateLinks(t: Tables, kind: LocationType, b: LocationBody)
    requires WellFormed(t)
    requires CreateOutcome(t, kind, b).status == Created
    ensures var a := CreateOutcome(t, kind, b).after;
            var lid := t.nextLocation;
            && a.nextLocation == lid + 1 && a.locations == t.locations[lid := NewLocation(kind, b, StaffOf(a.locations[lid], kind))]
            && (TruthyInt(StaffOf(a.locations[lid], kind)) ==>
                  StaffOf(a.locations[lid], kind).value in a.users
                  && a.users[StaffOf(a.locations[lid], kind).value].locationId == Some(lid))
            && (Hires(b) ==>
                  StaffOf(a.locations[lid], kind) == Some(t.nextUser) && a.nextUser == t.nextUser + 1
                  && a.users[t.nextUser] == NewStaff(kind, b.newStaff.value).(locationId := Some(lid)))
            && (!Hires(b) ==> StaffOf(a.locations[lid], kind) == (if Truthy(b.staffId) then ParseJs(b.staffId) else None)
                              && a.nextUser == t.nextUser)
            && a.products == t.products && a.inventory == t.inventory && a.requests == t.requests && a.events == t.events
  {
    if Hires(b) {
      PlacedAdds(t, WithStaff(t, kind, b.newStaff.value), kind, b, Some(t.nextUser));
    } else {
      PlacedAdds(t, t, kind, b, if Truthy(b.staffId) then ParseJs(b.staffId) else None);
    }
  }

  /** A creation keeps location names unique per kind. */
  lemma CreateKeepsNamesUnique(t: Tables, kind: LocationType, b: LocationBody, other: LocationType)
    requires WellFormed(t) && NamesUnique(t.locations, other)
    ensures NamesUnique(CreateOutcome(t, kind, b).after.locations, other)
  {
    var o := CreateOutcome(t, kind, b);
    if o.status == Created {
      CreateLinks(t, kind, b);
      var lid := t.nextLocation;
      assert lid !in t.locations;
      assert !NameUsed(t.locations, b.name.value, kind, None);
      InsertKeepsNamesUnique(t.locations, lid, o.after.locations[lid], other);
    }
  }

  /** Inserting a row under a fresh key keeps names unique when no row of the
      same kind has its name. */
  lemma InsertKeepsNamesUnique(locations: map<int, Location>, lid: int, l: Location, other: LocationType)
    requires lid !in locations && NamesUnique(locations, other)
    requires l.kind == other ==> !NameUsed(locations, l.name, other, None)
    ensures NamesUnique(locations[lid := l], other)
  {
    var a := locations[lid := l];
    forall x, y | x in a && y in a && a[x].kind == other && a[y].kind == other && a[x].name == a[y].name
      ensures x == y
    {
    }
  }

  /** Linking a staff member to a location changes no email. */
  lemma PlacedKeepsEmailsUnique(t0: Tables, t1: Tables, kind: LocationType, b: LocationBody, staff: Option<int>)
    requires b.name.Some? && EmailsUnique(t1.users)
    requires Placed(t0, t1, kind, b, staff).status == Created
    ensures EmailsUnique(Placed(t0, t1, kind, b, staff).after.users)
  {
    PlacedAdds(t0, t1, kind, b, staff);
    var a := Placed(t0, t1, kind, b, staff).after.users;
    assert a.Keys == t1.users.Keys;
    assert forall k :: k in a ==> a[k].email == t1.users[k].email;
  }

  /** Hiring adds a user whose email nobody has. */
  lemma WithStaffKeepsEmailsUnique(t: Tables, kind: LocationType, s: StaffBody)
    requires KeysIn(t.users, t.nextUser) && EmailsUnique(t.users)
    requires s.email.Some? && !EmailUsed(t.users, s.email.value)
    ensures EmailsUnique(WithStaff(t, kind, s).users)
  {
    var a := WithStaff(t, kind, s).users;
    forall x, y | x in a && y in a && a[x].email == a[y].email
      ensures x == y
    {
    }
  }

  /** A creation keeps emails unique. */
  lemma CreateKeepsEmailsUnique(t: Tables, kind: LocationType, b: LocationBody)
    requires WellFormed(t) && EmailsUnique(t.users)
    ensures EmailsUnique(CreateOutcome(t, kind, b).after.users)
  {
    if CreateOutcome(t, kind, b).status == Created {
      if Hires(b) {
        WithStaffKeepsEmailsUnique(t, kind, b.newStaff.value);
        PlacedKeepsEmailsUnique(t, WithStaff(t, kind, b.newStaff.value), kind, b, Some(t.nextUser));
      } else {
        PlacedKeepsEmailsUnique(t, t, kind, b, if Truthy(b.staffId) then ParseJs(b.staffId) else None);
      }
    }
  }

  /** The fields of an update: an absent field is left alone, a truthy staff id
      replaces the kind's staff column. */
  function Revised(l: Location, kind: LocationType, b: LocationBody): (r: Location)
    requires !Truthy(b.staffId) || ParseJs(b.staffId).Some?
  {
    var staff := if Truthy(b.staffId) then ParseJs(b.staffId) else StaffOf(l, kind);
    Location(
      if b.name.Some? then b.name.value else l.name,
      l.kind,
      if b.status.Some? then b.status.value else l.status,
      if b.region.Some? then b.region else l.region,
      if b.description.Some? then b.description else l.description,
      if b.address.Some? then b.address else l.address,
      if kind == Store then staff else l.managerId,
      if kind == Site then staff else l.engineerId)
  }

  /** `updateStore` / `updateSite`. */
  ghost function UpdateOutcome(t: Tables, kind: LocationType, id: Option<int>, b: LocationBody): Outcome {
    if id.None? then Outcome(BadRequest, t)
    else
      var lid := id.value;
      if lid !in t.locations || t.locations[lid].kind != kind then Outcome(NotFound, t)
      else if TruthyText(b.name) && b.name.value != t.locations[lid].name
              && NameUsed(t.locations, b.name.value, kind, Some(lid)) then Outcome(BadRequest, t)
      else if Truthy(b.staffId) && ParseJs(b.staffId).None? then Outcome(ServerError, t)
      else Outcome(Ok, t.(locations := t.locations[lid := Revised(t.locations[lid], kind, b)]))
  }

  method UpdateLocation(db: Db, kind: LocationType, id: JsVal, b: LocationBody) returns (status: Status)
    requires db.Valid()
    modifies db
    ensures db.Valid()
    ensures Outcome(status, db.State()) == UpdateOutcome(old(db.State()), kind, ParseJs(id), b)
  {
    var lid := ParseJs(id);
    if lid.None? {
      return BadRequest;
    }
    status := UpdateAt(db, kind, lid.value, b);
  }

  /** The update of the location whose id parsed to `lid`. */
  method UpdateAt(db: Db, kind: LocationType, lid: int, b: LocationBody) returns (status: Status)
    requires db.Valid()
    modifies db
    ensures db.Valid()
    ensures Outcome(status, db.State()) == UpdateOutcome(old(db.State()), kind, Some(lid), b)
  {
    if lid !in db.locations || db.locations[lid].kind != kind {
      return NotFound;
    }
    if TruthyText(b.name) && b.name.value != db.locations[lid].name {
      var conflict := db.NameTaken(b.name.value, kind, Some(lid));
      if conflict {
        return BadRequest;
      }
    }
    if Truthy(b.staffId) && ParseJs(b.staffId).None? {
      return ServerError;
    }
    db.SetLocation(lid, Revised(db.locations[lid], kind, b));
    return Ok;
  }

  /** An update touches no table but the location's row, whose kind and id it
      keeps; in particular the staff member's own location is not relinked.
      Keeping the location's own name is never a conflict. */
  lemma UpdateTouchesOneRow(t: Tables, kind: LocationType, id: Option<int>, b: LocationBody)
    ensures var o := UpdateOutcome(t, kind, id, b);
            && (o.status != Ok ==> o.after == t)
            && o.after.users == t.users && o.after.inventory == t.inventory && o.after.products == t.products
            && o.after.locations.Keys == t.locations.Keys
            && (forall k :: k in t.locations && Some(k) != id ==> o.after.locations[k] == t.locations[k])
            && (o.status == Ok ==> o.after.locations[id.value].kind == kind)
    ensures id.Some? && id.value in t.locations && t.locations[id.value].kind == kind
            && b.name == Some(t.locations[id.value].name) && (!Truthy(b.staffId) || ParseJs(b.staffId).Some?) ==>
              UpdateOutcome(t, kind, id, b).status == Ok
  {
  }

  /** An update keeps location names unique per kind, provided the new name is
      not empty (an empty name is written without the conflict check). */
  lemma UpdateKeepsNamesUnique(t: Tables, kind: LocationType, id: Option<int>, b: LocationBody, other: LocationType)
    requires NamesUnique(t.locations, other)
    requires b.name != Some("")
    ensures NamesUnique(UpdateOutcome(t, kind, id, b).after.locations, other)
  {
    var o := UpdateOutcome(t, kind, id, b);
    if o.status == Ok {
      var lid := id.value;
      var a := o.after.locations;
      forall x, y | x in a && y in a && a[x].kind == other && a[y].kind == other && a[x].name == a[y].name
        ensures x == y
      {
        if x == lid && y != lid && b.name.Some? && b.name.value != t.locations[lid].name {
          assert NameUsed(t.locations, b.name.value, kind, Some(lid));
        } else if y == lid && x != lid && b.name.Some? && b.name.value != t.locations[lid].name {
          assert NameUsed(t.locations, b.name.value, kind, Some(lid));
        }
      }
    }
  }

  /** `deleteStore` / `deleteSite`. */
  ghost function DeleteOutcome(t: Tables, kind: LocationType, id: Option<int>): Outcome {
    if id.None? then Outcome(BadRequest, t)
    else
      var lid := id.value;
      if lid !in t.locations || t.locations[lid].kind != kind then Outcome(NotFound, t)
      else if exists k :: k in t.inventory && t.inventory[k].locationId == lid then Outcome(BadRequest, t)
      else Outcome(Ok, t.(locations := t.locations - {lid}))
  }

  method DeleteLocation(db: Db, kind: LocationType, id: JsVal) returns (status: Status)
    requires db.Valid()
    modifies db
    ensures db.Valid()
    ensures Outcome(status, db.State()) == DeleteOutcome(old(db.State()), kind, ParseJs(id))
  {
    var lid := ParseJs(id);
    if lid.None? {
      return BadRequest;
    }
    if lid.value !in db.locations || db.locations[lid.value].kind != kind {
      return NotFound;
    }
    var any := db.AnyInventoryAt(lid.value);
    if any {
      return BadRequest;
    }
    db.DeleteLocation(lid.value);
    return Ok;
  }

  /** A location with any inventory record, even one of quantity 0, is not
      deleted; a deletion removes only that location and keeps the tables well formed. */
  lemma DeleteBlockedByRecords(t: Tables, kind: LocationType, id: Option<int>, k: int)
    requires WellFormed(t)
    requires id.Some? && id.value in t.locations && t.locations[id.value].kind == kind
    ensures k in t.inventory && t.inventory[k].locationId == id.value ==>
              DeleteOutcome(t, kind, id) == Outcome(BadRequest, t)
    ensures DeleteOutcome(t, kind, id).status == Ok ==>
              var a := DeleteOutcome(t, kind, id).after;
              && a.locations.Keys == t.locations.Keys - {id.value}
              && WellFormed(a) && a.inventory == t.inventory && a.users == t.users
  {
  }

  /** The list filter: the kind, and for the kind's own staff role with a
      (truthy) location, that location's id. */
  predicate ScopedToOwn(user: Option<AuthUser>, kind: LocationType) {
    user.Some? && user.value.role == StaffRole(kind) && TruthyInt(user.value.locationId)
  }

  /** The list filter selects a location exactly when it is of the kind and,
      for a caller confined to their own location, is that location. */
  lemma LocationFilterSelects(w: Where, k: int, l: Location, kind: LocationType, user: Option<AuthUser>)
    requires w == if ScopedToOwn(user, kind) then map["type" := Eq(StrV(TypeName(kind))), "id" := Eq(IntV(user.value.locationId.value))]
                  else map["type" := Eq(StrV(TypeName(kind)))]
    ensures Matches(w, LocationRow(k, l)) <==> l.kind == kind && (ScopedToOwn(user, kind) ==> k == user.value.locationId.value)
  {
    var row := LocationRow(k, l);
    assert Holds("type", w["type"], row) <==> l.kind == kind;
    if ScopedToOwn(user, kind) {
      assert Holds("id", w["id"], row) <==> k == user.value.locationId.value;
    }
  }

  /** `getAllStores` / `getAllSites`: 500 for a negative skip, otherwise the
      selected rows (their page slice and order are not modelled) and the
      pagination block with a default limit of 10. */
  method ListLocations(db: Db, kind: LocationType, user: Option<AuthUser>, page: JsVal, limit: JsVal)
    returns (status: Status, ids: set<int>, pg: Pagination)
    requires db.Valid()
    ensures status == Ok || status == ServerError
    ensures status == ServerError <==> SkipRefused(IntOr(page, 1), IntOr(limit, 10))
    ensures status == ServerError ==> ids == {}
    ensures status == Ok ==> forall k :: k in ids <==>
              k in db.locations && db.locations[k].kind == kind
              && (ScopedToOwn(user, kind) ==> k == user.value.locationId.value)
    ensures status == Ok ==> pg.page == IntOr(page, 1) && pg.limit == IntOr(limit, 10) && pg.total == |ids|
    ensures status == Ok ==> pg.totalPages == CeilDiv(|ids|, pg.limit)
  {
    var pageNo := IntOr(page, 1);
    var size := IntOr(limit, 10);
    if SkipRefused(pageNo, size) {
      return ServerError, {}, Pagination(0, 0, 0, None);
    }
    var w: Where := map["type" := Eq(StrV(TypeName(kind)))];
    if ScopedToOwn(user, kind) {
      w := w["id" := Eq(IntV(user.value.locationId.value))];
    }
    ids := Selected(db.locations, w, LocationRow);
    forall k | k in db.locations
      ensures Matches(w, LocationRow(k, db.locations[k])) <==>
              db.locations[k].kind == kind && (ScopedToOwn(user, kind) ==> k == user.value.locationId.value)
    {
      LocationFilterSelects(w, k, db.locations[k], kind, user);
    }
    status := Ok;
    pg := Pagination(pageNo, size, |ids|, CeilDiv(|ids|, size));
  }

  /** What a read handler answers and the audit entries it writes. */
  datatype Reply = Reply(status: Status, log: seq<Event>)

  /** The checks a detail handler runs before its lookup: a NaN id is a 400, a
      missing caller a 401, and a caller the access check refuses a 403 after one
      LOCATION_VIOLATION entry on `<prefix>:<id>`. */
  function DetailGate(user: Option<AuthUser>, id: Option<int>, prefix: string, details: string): (g: Gate)
    ensures g.Answer? ==> (|g.log| > 0 <==> g.status == Forbidden)
    ensures g == Next <==> id.Some? && user.Some? && ValidateLocationAccess(user.value, id.value)
  {
    if id.None? then Answer(BadRequest, [])
    else if user.None? then Answer(Unauthorized, [])
    else if !ValidateLocationAccess(user.value, id.value) then
      Answer(Forbidden, [SecurityLog(user.value.id, LocationViolation, prefix + ":" + IntToString(id.value), details)])
    else Next
  }

  /** The gate's refusals, in order, with the one entry a refused access writes. */
  lemma DetailGateOrder(user: Option<AuthUser>, id: Option<int>, prefix: string, details: string)
    ensures id.None? ==> DetailGate(user, id, prefix, details) == Answer(BadRequest, [])
    ensures id.Some? && user.None? ==> DetailGate(user, id, prefix, details) == Answer(Unauthorized, [])
    ensures id.Some? && user.Some? && !ValidateLocationAccess(user.value, id.value) ==>
              var g := DetailGate(user, id, prefix, details);
              g.status == Forbidden && |g.log| == 1 && g.log[0].action == LocationViolation
              && g.log[0].userId == user.value.id && g.log[0].resource == prefix + ":" + IntToString(id.value)
  {
  }
}
