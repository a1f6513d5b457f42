/** Row-level security helpers: the location-scoped query filter, the
    location access decision, the accessible-location list, the extraction of
    a target location from a request and the integer-id validation
    (backend/src/utils/queryHelpers.ts). */
module QueryHelpers {
  import opened Optional
  import opened JsText
  import opened Domain

  /** A scalar in a query filter or a row. `NaNValue` is what `parseInt` of a
      non-numeric string puts into a filter; the query layer rejects it. */
  datatype Value = IntV(i: int) | StrV(s: string) | NaNValue

  /** `parseInt` result as a filter value. */
  function ParsedValue(o: Option<int>): Value {
    match o
    case Some(n) => IntV(n)
    case None => NaNValue
  }

  /** The condition a filter places under one key:
      equality; `{ in: [...] }`; an `OR` of `contains` over several fields
      (the key is then `OR`); equality on a field of a related row
      (`product: { category }`, stored under the related row's dotted name). */
  datatype Cond =
    | Eq(v: Value)
    | OneOf(vs: seq<Value>)
    | AnyContains(term: string, fields: seq<string>)
    | Related(field: string, v: Value)

  /** A `where` object: one condition per key, all of which must hold. */
  type Where = map<string, Cond>

  /** A row as the filter sees it: column (or dotted relation field) to value. */
  type Row = map<string, Value>

  predicate Holds(key: string, c: Cond, row: Row) {
    match c
    case Eq(v) => key in row && row[key] == v
    case OneOf(vs) => key in row && row[key] in vs
    case AnyContains(term, fields) =>
      exists i :: 0 <= i < |fields| && fields[i] in row && row[fields[i]].StrV? && Contains(row[fields[i]].s, term)
    case Related(f, v) => f in row && row[f] == v
  }

  /** The rows a `where` selects. */
  predicate Matches(w: Where, row: Row) {
    forall k :: k in w ==> Holds(k, w[k], row)
  }

  predicate CondHasNaN(c: Cond) {
    match c
    case Eq(v) => v.NaNValue?
    case OneOf(vs) => NaNValue in vs
    case AnyContains(_, _) => false
    case Related(_, v) => v.NaNValue?
  }

  /** A filter the query layer refuses (it throws, and the handler answers 500). */
  predicate HasNaN(w: Where) {
    exists k :: k in w && CondHasNaN(w[k])
  }

  /** Setting one key replaces its condition and keeps every other one. */
  lemma MatchesAfterSet(w: Where, k: string, c: Cond, row: Row)
    ensures Matches(w[k := c], row) <==> Matches(w - {k}, row) && Holds(k, c, row)
  {
    if Matches(w - {k}, row) && Holds(k, c, row) {
      forall j | j in w && j != k ensures Holds(j, w[j], row) {
        assert j in w - {k};
      }
    }
    if Matches(w[k := c], row) {
      assert k in w[k := c];
      forall j | j in w - {k} ensures Holds(j, (w - {k})[j], row) {
        assert j in w[k := c];
      }
    }
  }

  /** `buildLocationScopedWhere(user, baseWhere)`. */
  function LocationScopedWhere(user: AuthUser, base: Where): (w: Where)
    ensures forall k :: k in base && k != "id" && k != "locationId" ==> k in w && w[k] == base[k]
  {
    if user.role == SuperAdmin then base
    else if !TruthyInt(user.locationId) then base["id" := Eq(IntV(-1))]
    else if IsManagerOrEngineer(user.role) then base["locationId" := Eq(IntV(user.locationId.value))]
    else base
  }

  /** A row of a table keyed by positive ids. */
  predicate HasPositiveId(row: Row) {
    "id" in row && row["id"].IntV? && row["id"].i >= 1
  }

  /** For a super admin the scoped filter selects what the base filter selects. */
  lemma ScopedWhereOfAdmin(user: AuthUser, base: Where, row: Row)
    requires user.role == SuperAdmin
    ensures Matches(LocationScopedWhere(user, base), row) <==> Matches(base, row)
  {
  }

  /** A caller other than a super admin without a location selects no row, and
      every other key of the base filter is kept. */
  lemma ScopedWhereFailsClosed(user: AuthUser, base: Where, row: Row)
    requires user.role != SuperAdmin && !TruthyInt(user.locationId)
    requires HasPositiveId(row)
    ensures !Matches(LocationScopedWhere(user, base), row)
    ensures forall k :: k in base && k != "id" ==> LocationScopedWhere(user, base)[k] == base[k]
  {
    var w := LocationScopedWhere(user, base);
    assert "id" in w && !Holds("id", w["id"], row);
  }

  /** For a manager or engineer with a location, the scoped filter selects
      exactly the rows of that location that the rest of the base selects:
      whatever location the base asked for is overridden. */
  lemma ScopedWhereConfines(user: AuthUser, base: Where, row: Row)
    requires IsManagerOrEngineer(user.role) && TruthyInt(user.locationId)
    ensures Matches(LocationScopedWhere(user, base), row) <==>
            Matches(base - {"locationId"}, row) && "locationId" in row && row["locationId"] == IntV(user.locationId.value)
  {
    MatchesAfterSet(base, "locationId", Eq(IntV(user.locationId.value)), row);
  }

  /** A caller of a role outside the three known ones, with a location, gets the
      base filter unrestricted although the access check denies them every location. */
  lemma ScopedWhereOfUnknownRole(user: AuthUser, base: Where, t: int)
    requires user.role == OtherRole && TruthyInt(user.locationId)
    ensures LocationScopedWhere(user, base) == base
    ensures !ValidateLocationAccess(user, t)
  {
  }

  /** `validateLocationAccess(user, targetLocationId)`. */
  function ValidateLocationAccess(user: AuthUser, target: int): bool {
    if user.role == SuperAdmin then true
    else if IsManagerOrEngineer(user.role) then
      if !TruthyInt(user.locationId) then false else user.locationId.value == target
    else false
  }

  /** Access is granted to a super admin everywhere, to a manager or engineer
      exactly at their assigned (truthy) location, and to nobody else. */
  lemma ValidateLocationAccessIff(user: AuthUser, target: int)
    ensures ValidateLocationAccess(user, target) <==>
            user.role == SuperAdmin
            || (IsManagerOrEngineer(user.role) && TruthyInt(user.locationId) && user.locationId.value == target)
  {
  }

  /** Every row the scoped filter admits for a known role is at a location the
      access check grants: the filter and the check agree. */
  lemma ScopedWhereImpliesAccess(user: AuthUser, base: Where, row: Row, t: int)
    requires user.role != OtherRole
    requires HasPositiveId(row) && "locationId" in row && row["locationId"] == IntV(t)
    requires Matches(LocationScopedWhere(user, base), row)
    ensures ValidateLocationAccess(user, t)
  {
    if user.role != SuperAdmin && !TruthyInt(user.locationId) {
      ScopedWhereFailsClosed(user, base, row);
      assert false;
    } else if user.role != SuperAdmin {
      ScopedWhereConfines(user, base, row);
    }
  }

  /** `getAccessibleLocationIds(user)`: None is `null`, unrestricted. */
  function AccessibleLocationIds(user: AuthUser): (ids: Option<seq<int>>)
    ensures ids.Some? ==> |ids.value| <= 1
  {
    if user.role == SuperAdmin then None
    else if IsManagerOrEngineer(user.role) then
      if TruthyInt(user.locationId) then Some([user.locationId.value]) else Some([])
    else Some([])
  }

  /** The accessible-location list and the access check agree on every location. */
  lemma AccessibleIdsAgreeWithAccess(user: AuthUser, t: int)
    ensures var ids := AccessibleLocationIds(user);
            ValidateLocationAccess(user, t) <==> ids.None? || t in ids.value
  {
  }

  /** The places a request can carry a location id, as the helper reads them. */
  datatype RequestParts = RequestParts(
    paramsId: JsVal, queryLocationId: JsVal, bodyLocationId: JsVal,
    bodyStoreId: JsVal, bodySiteId: JsVal, queryStoreId: JsVal, querySiteId: JsVal)

  /** One source: taken when truthy and it parses. */
  function TryParse(v: JsVal): Option<int> {
    if Truthy(v) then ParseJs(v) else None
  }

  /** `extractTargetLocationId(req)`. */
  function ExtractTargetLocationId(req: RequestParts): Option<int> {
    if TryParse(req.paramsId).Some? then TryParse(req.paramsId)
    else if TryParse(req.queryLocationId).Some? then TryParse(req.queryLocationId)
    else if TryParse(req.bodyLocationId).Some? then TryParse(req.bodyLocationId)
    else if TryParse(req.bodyStoreId).Some? then TryParse(req.bodyStoreId)
    else if TryParse(req.bodySiteId).Some? then TryParse(req.bodySiteId)
    else if TryParse(req.queryStoreId).Some? then TryParse(req.queryStoreId)
    else if TryParse(req.querySiteId).Some? then TryParse(req.querySiteId)
    else None
  }

  /** The sources in the order they are tried. */
  function Sources(req: RequestParts): seq<JsVal> {
    [req.paramsId, req.queryLocationId, req.bodyLocationId, req.bodyStoreId,
     req.bodySiteId, req.queryStoreId, req.querySiteId]
  }

  /** The value of the first of `vs` that `parse` accepts. */
  function FirstAccepted(vs: seq<JsVal>, parse: JsVal -> Option<int>): (r: Option<int>)
    ensures r.Some? <==> exists i :: 0 <= i < |vs| && parse(vs[i]).Some?
  {
    if |vs| == 0 then None
    else if parse(vs[0]).Some? then parse(vs[0])
    else
      var r := FirstAccepted(vs[1..], parse);
      assert forall i :: 1 <= i < |vs| ==> vs[i] == vs[1..][i - 1];
      r
  }

  /** Reference rule: the first source in the list that is truthy and parses. */
  function FirstParsed(vs: seq<JsVal>): (r: Option<int>)
    ensures r.Some? <==> exists i :: 0 <= i < |vs| && TryParse(vs[i]).Some?
  {
    FirstAccepted(vs, TryParse)
  }

  /** The first accepted value decides, and every earlier one was skipped. */
  lemma {:induction false} FirstAcceptedIsFirst(vs: seq<JsVal>, parse: JsVal -> Option<int>, id: int)
    requires FirstAccepted(vs, parse) == Some(id)
    ensures exists i :: 0 <= i < |vs| && parse(vs[i]) == Some(id)
                        && forall j :: 0 <= j < i ==> parse(vs[j]).None?
  {
    if parse(vs[0]).Some? {
      assert parse(vs[0]) == Some(id);
    } else {
      var tail := vs[1..];
      FirstAcceptedIsFirst(tail, parse, id);
      var i :| 0 <= i < |tail| && parse(tail[i]) == Some(id)
               && forall j :: 0 <= j < i ==> parse(tail[j]).None?;
      assert vs[i + 1] == tail[i];
      assert forall j :: 1 <= j < i + 1 ==> vs[j] == tail[j - 1];
    }
  }

  /** The first source that parses decides, and every earlier one was skipped. */
  lemma FirstParsedIsFirst(vs: seq<JsVal>, id: int)
    requires FirstParsed(vs) == Some(id)
    ensures exists i :: 0 <= i < |vs| && TryParse(vs[i]) == Some(id)
                        && forall j :: 0 <= j < i ==> TryParse(vs[j]).None?
  {
    FirstAcceptedIsFirst(vs, TryParse, id);
  }

  /** The helper's chain of checks is the first-that-parses rule over the seven
      sources in their documented order. */
  lemma ExtractIsFirstParsed(req: RequestParts)
    ensures ExtractTargetLocationId(req) == FirstParsed(Sources(req))
  {
    FirstOfSeven(req.paramsId, req.queryLocationId, req.bodyLocationId, req.bodyStoreId,
                 req.bodySiteId, req.queryStoreId, req.querySiteId, TryParse);
  }

  /** Over seven values the rule is the chain of checks in their order. */
  lemma FirstOfSeven(a: JsVal, b: JsVal, c: JsVal, d: JsVal, e: JsVal, f: JsVal, g: JsVal, parse: JsVal -> Option<int>)
    ensures FirstAccepted([a, b, c, d, e, f, g], parse) ==
            if parse(a).Some? then parse(a)
            else if parse(b).Some? then parse(b)
            else if parse(c).Some? then parse(c)
            else if parse(d).Some? then parse(d)
            else if parse(e).Some? then parse(e)
            else if parse(f).Some? then parse(f)
            else if parse(g).Some? then parse(g)
            else None
  {
    var s := [a, b, c, d, e, f, g];
    FirstAcceptedCons(s, parse);
    FirstAcceptedCons(s[1..], parse);
    FirstAcceptedCons(s[2..], parse);
    FirstAcceptedCons(s[3..], parse);
    FirstAcceptedCons(s[4..], parse);
    FirstAcceptedCons(s[5..], parse);
    FirstAcceptedCons(s[6..], parse);
    assert s[7..] == [];
  }

  lemma FirstAcceptedCons(vs: seq<JsVal>, parse: JsVal -> Option<int>)
    requires |vs| > 0
    ensures FirstAccepted(vs, parse) == if parse(vs[0]).Some? then parse(vs[0]) else FirstAccepted(vs[1..], parse)
  {
  }

  /** The helper never yields NaN: a result is a parsed number or None (`null`). */
  lemma ExtractedIsParsed(req: RequestParts, id: int)
    requires ExtractTargetLocationId(req) == Some(id)
    ensures exists i :: 0 <= i < 7 && Truthy(Sources(req)[i]) && ParseJs(Sources(req)[i]) == Some(id)
  {
    ExtractIsFirstParsed(req);
    FirstParsedIsFirst(Sources(req), id);
  }

  /** `validateIntegerId(value)`: the id, or None where the helper throws. */
  function ValidateIntegerId(v: JsVal): (r: Option<int>)
    ensures r.Some? ==> r.value >= 1
  {
    match ParseJs(v)
    case Some(id) => if id < 1 then None else Some(id)
    case None => None
  }

  /** A positive id, as a number or as its decimal text, validates to itself;
      anything else that parses is refused. */
  lemma ValidateIntegerIdRoundTrip(n: int)
    ensures ValidateIntegerId(Num(n)) == (if n >= 1 then Some(n) else None)
    ensures ValidateIntegerId(Str(IntToString(n))) == (if n >= 1 then Some(n) else None)
  {
    ParseIntOfIntToString(n);
  }
}
