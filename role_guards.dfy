/** The role guards put in front of routes (backend/src/middleware/roleMiddleware.ts). */
module RoleGuards {
  import opened Optional
  import opened Domain

  /** A role guard: 401 without a caller, 403 when the role is not admitted. */
  function RoleGuard(user: Option<AuthUser>, admitted: set<Role>): (g: Gate)
    ensures g == Next <==> user.Some? && user.value.role in admitted
    ensures g.Answer? ==> g.log == [] && (g.status == Unauthorized <==> user.None?)
  {
    if user.None? then Answer(Unauthorized, [])
    else if user.value.role !in admitted then Answer(Forbidden, [])
    else Next
  }

  /** `requireSuperAdmin`. */
  function RequireSuperAdmin(user: Option<AuthUser>): Gate {
    RoleGuard(user, {SuperAdmin})
  }

  /** `requireStoreManager`. */
  function RequireStoreManager(user: Option<AuthUser>): Gate {
    RoleGuard(user, {StoreManager, SuperAdmin})
  }

  /** `requireSiteEngineer`. */
  function RequireSiteEngineer(user: Option<AuthUser>): Gate {
    RoleGuard(user, {SiteEngineer, SuperAdmin})
  }

  /** `requireManagerOrEngineer`. */
  function RequireManagerOrEngineer(user: Option<AuthUser>): Gate {
    RoleGuard(user, {StoreManager, SiteEngineer, SuperAdmin})
  }

  /** Every guard answers 401 without a caller. */
  lemma GuardsWithoutUser()
    ensures RequireSuperAdmin(None) == Answer(Unauthorized, [])
    ensures RequireStoreManager(None) == Answer(Unauthorized, [])
    ensures RequireSiteEngineer(None) == Answer(Unauthorized, [])
    ensures RequireManagerOrEngineer(None) == Answer(Unauthorized, [])
  {
  }

  /** What each guard admits, role by role; a super admin passes all of them,
      and the admin guard is the strictest. */
  lemma GuardsAdmit(user: AuthUser)
    ensures RequireSuperAdmin(Some(user)) == Next <==> user.role == SuperAdmin
    ensures RequireStoreManager(Some(user)) == Next <==> user.role == StoreManager || user.role == SuperAdmin
    ensures RequireSiteEngineer(Some(user)) == Next <==> user.role == SiteEngineer || user.role == SuperAdmin
    ensures RequireManagerOrEngineer(Some(user)) == Next <==> user.role != OtherRole
    ensures RequireSuperAdmin(Some(user)) == Next ==>
              RequireStoreManager(Some(user)) == Next && RequireSiteEngineer(Some(user)) == Next
              && RequireManagerOrEngineer(Some(user)) == Next
    ensures RequireStoreManager(Some(user)) == Next || RequireSiteEngineer(Some(user)) == Next ==>
              RequireManagerOrEngineer(Some(user)) == Next
  {
  }
}
