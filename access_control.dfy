/** The location gates run before a handler
    (backend/src/middleware/accessControlMiddleware.ts). A gate either hands
    the request on or answers it, possibly after writing a security log entry. */
module AccessControl {
  import opened Optional
  import opened JsText
  import opened Domain
  import opened QueryHelpers

  /** `${user.locationId || 'none'}`. */
  function AssignedText(loc: Option<int>): string {
    if TruthyInt(loc) then IntToString(loc.value) else "none"
  }

  /** The security log entry of a refused location access. */
  function LocationViolationEntry(user: AuthUser, target: int): Event {
    SecurityLog(user.id, LocationViolation, "Location:" + IntToString(target),
      "User attempted to access location " + IntToString(target)
      + " but is assigned to location " + AssignedText(user.locationId))
  }

  /** `authorizeLocationAccess`. */
  function AuthorizeLocationAccess(user: Option<AuthUser>, req: RequestParts): (g: Gate)
    ensures g.Answer? ==> g.status in {BadRequest, Unauthorized, Forbidden}
    ensures g.Answer? ==> (|g.log| > 0 <==> g.status == Forbidden)
  {
    if user.None? then Answer(Unauthorized, [])
    else if user.value.role == SuperAdmin then Next
    else
      var t := ExtractTargetLocationId(req);
      if t.None? || t.value == 0 then Next
      else if t.value < 1 then Answer(BadRequest, [])
      else if !ValidateLocationAccess(user.value, t.value) then
        Answer(Forbidden, [LocationViolationEntry(user.value, t.value)])
      else Next
  }

  /** A request the gate hands on, whose target the extraction found and that is
      not 0, targets a location the caller may access. */
  lemma AuthorizeIsSound(user: Option<AuthUser>, req: RequestParts)
    requires AuthorizeLocationAccess(user, req) == Next
    requires ExtractTargetLocationId(req).Some? && ExtractTargetLocationId(req).value != 0
    ensures user.Some?
    ensures ValidateLocationAccess(user.value, ExtractTargetLocationId(req).value)
  {
  }

  /** Without a caller the gate answers 401 and logs nothing, whatever the request. */
  lemma AuthorizeWithoutUser(req: RequestParts)
    ensures AuthorizeLocationAccess(None, req) == Answer(Unauthorized, [])
  {
  }

  /** A super admin passes whatever the request carries. */
  lemma AuthorizeAdmin(user: AuthUser, req: RequestParts)
    requires user.role == SuperAdmin
    ensures AuthorizeLocationAccess(Some(user), req) == Next
  {
  }

  /** No target, or target 0, is left to the handler. */
  lemma AuthorizeWithoutTarget(user: AuthUser, req: RequestParts)
    requires ExtractTargetLocationId(req).None? || ExtractTargetLocationId(req) == Some(0)
    ensures AuthorizeLocationAccess(Some(user), req) == Next
  {
  }

  /** A negative target is a 400 for a caller other than a super admin. */
  lemma AuthorizeNegativeTarget(user: AuthUser, req: RequestParts)
    requires user.role != SuperAdmin
    requires ExtractTargetLocationId(req).Some? && ExtractTargetLocationId(req).value < 0
    ensures AuthorizeLocationAccess(Some(user), req) == Answer(BadRequest, [])
  {
  }

  /** A refused access is answered 403 after exactly one LOCATION_VIOLATION entry
      that names the target and the caller's location (or "none"). */
  lemma AuthorizeDenied(user: AuthUser, req: RequestParts, t: int)
    requires user.role != SuperAdmin
    requires ExtractTargetLocationId(req) == Some(t) && t >= 1
    requires !ValidateLocationAccess(user, t)
    ensures AuthorizeLocationAccess(Some(user), req) == Answer(Forbidden, [LocationViolationEntry(user, t)])
    ensures LocationViolationEntry(user, t).action == LocationViolation
    ensures LocationViolationEntry(user, t).resource == "Location:" + IntToString(t)
  {
  }

  /** `requireLocationAssignment`. */
  function RequireLocationAssignment(user: Option<AuthUser>): (g: Gate)
    ensures g == Next <==> user.Some? && (!IsManagerOrEngineer(user.value.role) || TruthyInt(user.value.locationId))
  {
    if user.None? then Answer(Unauthorized, [])
    else if user.value.role == SuperAdmin then Next
    else if IsManagerOrEngineer(user.value.role) && !TruthyInt(user.value.locationId) then
      Answer(Forbidden, [SecurityLog(user.value.id, PermissionViolation, "LocationRequired",
        "User attempted to access location-specific resource without location assignment")])
    else Next
  }

  /** Only a manager or engineer lacking a location is refused with 403, and
      that refusal writes one PERMISSION_VIOLATION entry. */
  lemma LocationAssignmentDenial(user: AuthUser)
    ensures RequireLocationAssignment(Some(user)).Answer? <==>
            IsManagerOrEngineer(user.role) && !TruthyInt(user.locationId)
    ensures RequireLocationAssignment(Some(user)).Answer? ==>
            var g := RequireLocationAssignment(Some(user));
            g.status == Forbidden && |g.log| == 1 && g.log[0].SecurityLog? && g.log[0].action == PermissionViolation
            && g.log[0].resource == "LocationRequired"
  {
  }
}
