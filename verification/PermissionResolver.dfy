/**
 The resolver itself: the recursive traversal that fills a captured set, and the loop that
 gathers the permissions of the roles found. Each resolution reads one state of the tables.
 */
module PermissionResolver {
  import opened RoleGraph
  import opened RoleStore
  import opened RoleServices

  /** How many of these names have a parent to walk on to. */
  function ParentCount(roles: seq<Role>, names: seq<string>): (count: nat)
    ensures count <= |names|
  {
    if names == [] then 0
    else ParentCount(roles, names[..|names| - 1]) + if ParentName(roles, names[|names| - 1]).Some? then 1 else 0
  }

  /** The variables the nested traversal closes over; the set of visited names keeps insertion order. */
  class RoleCollector {
    const roles: seq<Role>
    const roleMap: map<string, Role>
    var effectiveRoles: seq<string>
    ghost var calls: nat

    constructor (roles: seq<Role>, roleMap: map<string, Role>)
      ensures this.roles == roles && this.roleMap == roleMap
      ensures effectiveRoles == [] && calls == 0
    {
      this.roles, this.roleMap := roles, roleMap;
      effectiveRoles, calls := [], 0;
    }

    /** One call for the name asked for, and one for each collected name that has a parent. */
    method CollectRoles(currentRoleName: string)
      requires roleMap == NameIndex(roles)
      modifies this
      ensures effectiveRoles == Collect(roles, old(effectiveRoles), currentRoleName)
      ensures calls + ParentCount(roles, old(effectiveRoles)) == old(calls) + 1 + ParentCount(roles, effectiveRoles)
      decreases Unvisited(roles, effectiveRoles)
    {
      calls := calls + 1;
      if currentRoleName in effectiveRoles {
        return;
      }
      if currentRoleName !in roleMap {
        return;
      }
      var role := roleMap[currentRoleName];
      ghost var visited := effectiveRoles;
      effectiveRoles := effectiveRoles + [currentRoleName];
      assert effectiveRoles[..|visited|] == visited;
      assert currentRoleName in Unvisited(roles, visited) && currentRoleName !in Unvisited(roles, effectiveRoles);
      if role.parentId.Some? && role.parentId.value != "" {
        var parentRole := FindById(roles, role.parentId.value);
        if parentRole.Some? {
          CollectRoles(parentRole.value.name);
        }
      }
    }
  }

  method BuildRoleMap(roles: seq<Role>) returns (roleMap: map<string, Role>)
    ensures roleMap == NameIndex(roles)
  {
    roleMap := map[];
    for i := 0 to |roles|
      invariant roleMap == NameIndex(roles[..i])
    {
      assert roles[..i + 1][..i] == roles[..i];
      roleMap := roleMap[roles[i].name := roles[i]];
    }
    assert roles[..|roles|] == roles;
  }

  /**
   Returns each inherited role once and nothing else, on any table, after exactly one call
   per request plus one per returned role with a parent: never more than requests plus results.
   */
  method ResolveEffectiveRoles(roleNames: seq<string>, roles: seq<Role>)
    returns (effective: seq<string>, ghost calls: nat)
    ensures effective == EffectiveRoles(roles, roleNames)
    ensures NoDuplicates(effective)
    ensures forall n :: n in effective <==> Inherited(roles, roleNames, n)
    ensures calls == |roleNames| + ParentCount(roles, effective)
    ensures calls <= |roleNames| + |effective|
  {
    var roleMap := BuildRoleMap(roles);
    var collector := new RoleCollector(roles, roleMap);
    for i := 0 to |roleNames|
      invariant collector.roles == roles && collector.roleMap == NameIndex(roles)
      invariant collector.effectiveRoles == EffectiveRoles(roles, roleNames[..i])
      invariant collector.calls == i + ParentCount(roles, collector.effectiveRoles)
    {
      assert roleNames[..i + 1] == roleNames[..i] + [roleNames[i]];
      CollectAllConcat(roles, [], roleNames[..i], [roleNames[i]]);
      collector.CollectRoles(roleNames[i]);
      assert CollectAll(roles, collector.effectiveRoles, []) == collector.effectiveRoles;
    }
    assert roleNames[..|roleNames|] == roleNames;
    effective, calls := collector.effectiveRoles, collector.calls;
    EffectiveRolesExact(roles, roleNames);
  }

  /** Adds to an insertion-ordered set of strings. */
  function AddAll(gathered: seq<string>, added: seq<string>): (r: seq<string>)
    ensures forall p :: p in r <==> p in gathered || p in added
    ensures NoDuplicates(gathered) ==> NoDuplicates(r)
    decreases added
  {
    if added == [] then gathered
    else if added[0] in gathered then AddAll(gathered, added[1..])
    else AddAll(gathered + [added[0]], added[1..])
  }

  function GatherPermissions(db: RoleDb, gathered: seq<string>, names: seq<string>): seq<string>
    decreases names
  {
    if names == [] then gathered
    else if !Known(db.roles, names[0]) then GatherPermissions(db, gathered, names[1..])
    else GatherPermissions(db, AddAll(gathered, PermissionNames(db, NameIndex(db.roles)[names[0]].id)), names[1..])
  }

  function EffectivePermissions(db: RoleDb, roleNames: seq<string>): seq<string> {
    GatherPermissions(db, [], EffectiveRoles(db.roles, roleNames))
  }

  /** The role stored under this name holds a grant of this permission. */
  ghost predicate Grants(db: RoleDb, roleName: string, permission: string) {
    Known(db.roles, roleName) && permission in PermissionNames(db, NameIndex(db.roles)[roleName].id)
  }

  /** After a removal a role grants a permission exactly if another of its grant rows carries that name. */
  lemma {:induction false} RemovalUngrants(db: RoleDb, roleName: string, permissionId: string, p: string)
    requires Known(db.roles, roleName)
    ensures var roleId := NameIndex(db.roles)[roleName].id;
            Grants(RemoveGrant(db, roleId, permissionId), roleName, p) <==>
            exists g :: g in db.grants && g.roleId == roleId && g.permissionId != permissionId &&
                        g.permissionId in db.permissions && db.permissions[g.permissionId] == p
  {
    GrantsMinusRows(db.grants, Grant(NameIndex(db.roles)[roleName].id, permissionId));
  }

  /** After an assignment a role grants what it did before and the permission assigned. */
  lemma {:induction false} AssignmentGrants(db: RoleDb, roleName: string, permissionId: string, p: string)
    requires Known(db.roles, roleName) && permissionId in db.permissions
    ensures var after := UpsertGrant(db, NameIndex(db.roles)[roleName].id, permissionId);
            && after.Ok?
            && (Grants(after.value, roleName, p) <==> Grants(db, roleName, p) || db.permissions[permissionId] == p)
  {
    var roleId := NameIndex(db.roles)[roleName].id;
    var added := Grant(roleId, permissionId);
    var after := UpsertGrant(db, roleId, permissionId).value;
    assert added in after.grants;
    assert forall g :: g in after.grants <==> g in db.grants || g == added;
  }

  lemma {:induction false} GatherExact(db: RoleDb, gathered: seq<string>, names: seq<string>)
    requires NoDuplicates(gathered)
    ensures NoDuplicates(GatherPermissions(db, gathered, names))
    ensures forall p :: p in GatherPermissions(db, gathered, names) <==>
              p in gathered || exists n :: n in names && Grants(db, n, p)
    decreases names
  {
    if names != [] {
      assert names == [names[0]] + names[1..];
      var next := if !Known(db.roles, names[0]) then gathered
                  else AddAll(gathered, PermissionNames(db, NameIndex(db.roles)[names[0]].id));
      GatherExact(db, next, names[1..]);
      forall p
        ensures p in next <==> p in gathered || Grants(db, names[0], p)
      {
      }
    }
  }

  ghost predicate InheritsGrant(db: RoleDb, roleNames: seq<string>, permission: string) {
    exists d, n :: d in roleNames && Reachable(db.roles, d, n) && Grants(db, n, permission)
  }

  /** The resolved permissions are exactly the grants of the requested roles and their ancestors, each once. */
  lemma {:induction false} EffectivePermissionsExact(db: RoleDb, roleNames: seq<string>)
    ensures NoDuplicates(EffectivePermissions(db, roleNames))
    ensures forall p :: p in EffectivePermissions(db, roleNames) <==> InheritsGrant(db, roleNames, p)
  {
    var effective := EffectiveRoles(db.roles, roleNames);
    EffectiveRolesExact(db.roles, roleNames);
    GatherExact(db, [], effective);
    forall p
      ensures p in EffectivePermissions(db, roleNames) <==> InheritsGrant(db, roleNames, p)
    {
      if n :| n in effective && Grants(db, n, p) {
        var d :| d in roleNames && Reachable(db.roles, d, n);
      }
      if d, n :| d in roleNames && Reachable(db.roles, d, n) && Grants(db, n, p) {
        assert Inherited(db.roles, roleNames, n);
      }
    }
  }

  method ResolveEffectivePermissions(repository: RoleRepository, roleNames: seq<string>)
    returns (permissions: seq<string>)
    ensures permissions == EffectivePermissions(repository.Db(), roleNames)
    ensures NoDuplicates(permissions)
    ensures forall p :: p in permissions <==> InheritsGrant(repository.Db(), roleNames, p)
  {
    var roles := repository.FindAll();
    var roleMap := BuildRoleMap(roles);
    var effectiveRoles, _ := ResolveEffectiveRoles(roleNames, roles);
    ghost var db := repository.Db();
    permissions := [];
    for i := 0 to |effectiveRoles|
      invariant GatherPermissions(db, permissions, effectiveRoles[i..]) == GatherPermissions(db, [], effectiveRoles)
    {
      var name := effectiveRoles[i];
      assert effectiveRoles[i..][1..] == effectiveRoles[i + 1..];
      if name in roleMap {
        var perms := repository.FindPermissions(roleMap[name].id);
        ghost var before := permissions;
        for j := 0 to |perms|
          invariant AddAll(permissions, perms[j..]) == AddAll(before, perms)
        {
          assert perms[j..][1..] == perms[j + 1..];
          if perms[j] !in permissions {
            permissions := permissions + [perms[j]];
          }
        }
        assert perms[|perms|..] == [];
      }
    }
    assert effectiveRoles[|effectiveRoles|..] == [];
    EffectivePermissionsExact(db, roleNames);
  }

  // ---------------------------------------------------------------------------------------
  // Resolution while the tables change

  /** Each role's permissions are read from the tables as they are when its turn comes. */
  function GatherAcross(roles: seq<Role>, states: seq<RoleDb>, gathered: seq<string>, names: seq<string>): seq<string>
    requires |states| == |names|
    decreases names
  {
    if names == [] then gathered
    else if !Known(roles, names[0]) then GatherAcross(roles, states[1..], gathered, names[1..])
    else
      var added := PermissionNames(states[0], NameIndex(roles)[names[0]].id);
      GatherAcross(roles, states[1..], AddAll(gathered, added), names[1..])
  }

  /** The roles were read first; the i-th effective role's permissions come from the i-th later state. */
  function PermissionsAcross(roles: seq<Role>, states: seq<RoleDb>, roleNames: seq<string>): seq<string>
    requires |states| == |EffectiveRoles(roles, roleNames)|
  {
    GatherAcross(roles, states, [], EffectiveRoles(roles, roleNames))
  }

  /** The row known under this name at the start holds a grant of the permission in this state. */
  predicate GrantsAt(roles: seq<Role>, at: RoleDb, name: string, permission: string) {
    Known(roles, name) && permission in PermissionNames(at, NameIndex(roles)[name].id)
  }

  lemma {:induction false} GatherAcrossExact(
      roles: seq<Role>, states: seq<RoleDb>, gathered: seq<string>, names: seq<string>, p: string)
    requires |states| == |names| && NoDuplicates(gathered)
    ensures NoDuplicates(GatherAcross(roles, states, gathered, names))
    ensures p in GatherAcross(roles, states, gathered, names) <==>
            p in gathered || exists i :: 0 <= i < |names| && GrantsAt(roles, states[i], names[i], p)
    decreases names
  {
    if names != [] {
      var next := if !Known(roles, names[0]) then gathered
                  else AddAll(gathered, PermissionNames(states[0], NameIndex(roles)[names[0]].id));
      GatherAcrossExact(roles, states[1..], next, names[1..], p);
      if i :| 0 <= i < |names| && GrantsAt(roles, states[i], names[i], p) {
        assert i > 0 ==> states[i] == states[1..][i - 1] && names[i] == names[1..][i - 1];
      }
      if i :| 0 <= i < |names[1..]| && GrantsAt(roles, states[1..][i], names[1..][i], p) {
        assert GrantsAt(roles, states[i + 1], names[i + 1], p);
      }
    }
  }

  /**
   However the tables change during a resolution: a permission is returned exactly if, when some
   role that was inherited at the start had its turn, it held a grant of it. So what such a role
   holds throughout is returned, and what none holds at any of those moments is not.
   */
  lemma {:induction false} ResolutionAcrossStates(
      roles: seq<Role>, states: seq<RoleDb>, roleNames: seq<string>, p: string)
    requires |states| == |EffectiveRoles(roles, roleNames)|
    ensures var effective := EffectiveRoles(roles, roleNames);
            && NoDuplicates(PermissionsAcross(roles, states, roleNames))
            && (p in PermissionsAcross(roles, states, roleNames) <==>
                  exists i :: 0 <= i < |effective| && GrantsAt(roles, states[i], effective[i], p))
            && (forall n ::
                  Inherited(roles, roleNames, n) && (forall at :: at in states ==> GrantsAt(roles, at, n, p)) ==>
                  p in PermissionsAcross(roles, states, roleNames))
  {
    var effective := EffectiveRoles(roles, roleNames);
    GatherAcrossExact(roles, states, [], effective, p);
    EffectiveRolesExact(roles, roleNames);
    forall n | Inherited(roles, roleNames, n) && (forall at :: at in states ==> GrantsAt(roles, at, n, p))
      ensures p in PermissionsAcross(roles, states, roleNames)
    {
      var i :| 0 <= i < |effective| && effective[i] == n;
      assert states[i] in states;
    }
  }

  /** If the tables do not change, this is the resolution in one state. */
  lemma {:induction false} StableTablesAgree(db: RoleDb, gathered: seq<string>, states: seq<RoleDb>, names: seq<string>)
    requires |states| == |names| && forall at :: at in states ==> at == db
    ensures GatherAcross(db.roles, states, gathered, names) == GatherPermissions(db, gathered, names)
    decreases names
  {
    if names != [] {
      assert states[0] in states && forall at :: at in states[1..] ==> at in states;
      var next := if !Known(db.roles, names[0]) then gathered
                  else AddAll(gathered, PermissionNames(db, NameIndex(db.roles)[names[0]].id));
      StableTablesAgree(db, next, states[1..], names[1..]);
    }
  }
}
