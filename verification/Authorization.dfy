/**
 From a user's direct roles to an authorization decision: the resolver composed with the
 policy engine.
 */
module Authorization {
  import opened Wrappers
  import opened RbacEvaluator
  import opened RoleGraph
  import opened RoleStore
  import opened PermissionResolver

  /** Some role the user holds, or an ancestor of one, has a grant that matches. */
  ghost predicate Entitled(db: RoleDb, directRoles: seq<string>, required: string) {
    exists d, n, g :: d in directRoles && Reachable(db.roles, d, n) && Grants(db, n, g) && MatchPermission(g, required)
  }

  /** A decision over resolved permissions is sound and complete for entitlement. */
  lemma {:induction false} DecisionsAreExact(
      db: RoleDb, directRoles: seq<string>, required: string, several: seq<string>)
    ensures RequirePermission(EffectivePermissions(db, directRoles), required) <==> Entitled(db, directRoles, required)
    ensures RequireAll(EffectivePermissions(db, directRoles), several) <==>
            forall r :: r in several ==> Entitled(db, directRoles, r)
    ensures RequireAny(EffectivePermissions(db, directRoles), several) <==>
            exists r :: r in several && Entitled(db, directRoles, r)
    ensures RequireRole(EffectiveRoles(db.roles, directRoles), required) <==> Inherited(db.roles, directRoles, required)
    ensures Not(EffectivePermissions(db, directRoles), required) <==> !Entitled(db, directRoles, required)
  {
    EffectiveRolesExact(db.roles, directRoles);
    var resolved := EffectivePermissions(db, directRoles);
    forall r
      ensures HasPermission(resolved, r) <==> Entitled(db, directRoles, r)
    {
      DecisionIsExact(db, directRoles, r);
    }
  }

  lemma {:induction false} DecisionIsExact(db: RoleDb, directRoles: seq<string>, required: string)
    ensures HasPermission(EffectivePermissions(db, directRoles), required) <==> Entitled(db, directRoles, required)
  {
    var resolved := EffectivePermissions(db, directRoles);
    EffectivePermissionsExact(db, directRoles);
    if HasPermission(resolved, required) {
      var g :| g in resolved && MatchPermission(g, required);
      var d, n :| d in directRoles && Reachable(db.roles, d, n) && Grants(db, n, g);
    }
    if Entitled(db, directRoles, required) {
      var d, n, g :| d in directRoles && Reachable(db.roles, d, n) && Grants(db, n, g) && MatchPermission(g, required);
      assert InheritsGrant(db, directRoles, g);
      assert g in resolved;
    }
  }

  /** Resolving the permissions of already resolved roles gives the same permissions in the same order. */
  lemma {:induction false} ResolvingResolvedRoles(db: RoleDb, directRoles: seq<string>)
    ensures EffectivePermissions(db, EffectiveRoles(db.roles, directRoles)) == EffectivePermissions(db, directRoles)
  {
    EffectiveRolesIdempotent(db.roles, directRoles);
  }

  /** The permissions of the roles a user holds directly, with no inheritance. */
  ghost predicate DirectPermission(db: RoleDb, directRoles: seq<string>, permission: string) {
    exists d :: d in directRoles && Grants(db, d, permission)
  }

  /** Inheritance only adds: resolution keeps every direct permission, and more roles lose none. */
  lemma {:induction false} ResolutionKeepsDirectPermissions(
      db: RoleDb, directRoles: seq<string>, more: seq<string>, p: string)
    requires forall d :: d in directRoles ==> d in more
    ensures DirectPermission(db, directRoles, p) ==> p in EffectivePermissions(db, directRoles)
    ensures p in EffectivePermissions(db, directRoles) ==> p in EffectivePermissions(db, more)
  {
    EffectivePermissionsExact(db, directRoles);
    EffectivePermissionsExact(db, more);
    if d :| d in directRoles && Grants(db, d, p) {
      ReachableSelf(db.roles, d);
      assert InheritsGrant(db, directRoles, p);
    }
    if InheritsGrant(db, directRoles, p) {
      var d, n :| d in directRoles && Reachable(db.roles, d, n) && Grants(db, n, p);
      assert d in more;
    }
  }

  /** A role is resolved to at least everything its parent is resolved to. */
  lemma {:induction false} ChildInheritsParentPermissions(db: RoleDb, child: string, parent: string, p: string)
    requires ParentName(db.roles, child) == Some(parent)
    ensures p in EffectivePermissions(db, [parent]) ==> p in EffectivePermissions(db, [child])
  {
    EffectivePermissionsExact(db, [parent]);
    EffectivePermissionsExact(db, [child]);
    if InheritsGrant(db, [parent], p) {
      var d, n :| d in [parent] && Reachable(db.roles, d, n) && Grants(db, n, p);
      ReachableFromParent(db.roles, child, parent, n);
      assert child in [child];
    }
  }
}
