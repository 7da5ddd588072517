/**
 The role tables and the row operations on them, with the constraints the database schema
 declares: unique ids and names, a parent reference that is cleared when the parent is
 deleted, and role-permission rows that go with their role.
 */
module RoleStore {
  import opened Wrappers
  import opened RoleGraph

  datatype Grant = Grant(roleId: string, permissionId: string)

  /** `permissions` maps permission ids to permission names. */
  datatype RoleDb = RoleDb(roles: seq<Role>, permissions: map<string, string>, grants: seq<Grant>)

  datatype DbError = UniqueViolation | ForeignKeyViolation | RecordNotFound

  function FindByName(roles: seq<Role>, name: string): (found: Option<Role>)
    ensures found.Some? ==> found.value in roles && found.value.name == name
    ensures found.None? ==> forall r :: r in roles ==> r.name != name
  {
    if roles == [] then None
    else if roles[0].name == name then Some(roles[0])
    else FindByName(roles[1..], name)
  }

  /** The parent reference is checked once the row is in, so a row may refer to itself. */
  function InsertRole(db: RoleDb, role: Role): Result<RoleDb, DbError> {
    if FindById(db.roles, role.id).Some? || FindByName(db.roles, role.name).Some? then Err(UniqueViolation)
    else if role.parentId.Some? && FindById(db.roles + [role], role.parentId.value).None? then Err(ForeignKeyViolation)
    else Ok(db.(roles := db.roles + [role]))
  }

  /** The rows left when a role goes: its children lose their parent link. */
  function RolesWithout(roles: seq<Role>, id: string): (rest: seq<Role>) {
    if roles == [] then []
    else
      var r := roles[|roles| - 1];
      var rest := RolesWithout(roles[..|roles| - 1], id);
      if r.id == id then rest
      else if r.parentId == Some(id) then rest + [r.(parentId := None)]
      else rest + [r]
  }

  function GrantsWithout(grants: seq<Grant>, roleId: string): seq<Grant> {
    if grants == [] then []
    else
      var rest := GrantsWithout(grants[..|grants| - 1], roleId);
      if grants[|grants| - 1].roleId == roleId then rest else rest + [grants[|grants| - 1]]
  }

  function DeleteRole(db: RoleDb, id: string): Result<RoleDb, DbError> {
    if FindById(db.roles, id).None? then Err(RecordNotFound)
    else Ok(db.(roles := RolesWithout(db.roles, id), grants := GrantsWithout(db.grants, id)))
  }

  function UpsertGrant(db: RoleDb, roleId: string, permissionId: string): Result<RoleDb, DbError> {
    if Grant(roleId, permissionId) in db.grants then Ok(db)
    else if FindById(db.roles, roleId).None? || permissionId !in db.permissions then Err(ForeignKeyViolation)
    else Ok(db.(grants := db.grants + [Grant(roleId, permissionId)]))
  }

  function GrantsMinus(grants: seq<Grant>, g: Grant): seq<Grant> {
    if grants == [] then []
    else
      var rest := GrantsMinus(grants[..|grants| - 1], g);
      if grants[|grants| - 1] == g then rest else rest + [grants[|grants| - 1]]
  }

  /** Removing a grant that is not there is ignored. */
  function RemoveGrant(db: RoleDb, roleId: string, permissionId: string): RoleDb {
    db.(grants := GrantsMinus(db.grants, Grant(roleId, permissionId)))
  }

  /** The names of the permissions granted to a role, in row order. */
  function PermissionNames(db: RoleDb, roleId: string): (names: seq<string>)
    ensures forall p :: p in names <==>
              exists g :: g in db.grants && g.roleId == roleId && g.permissionId in db.permissions &&
                          db.permissions[g.permissionId] == p
    decreases db.grants
  {
    if db.grants == [] then []
    else
      var last := db.grants[|db.grants| - 1];
      assert db.grants == db.grants[..|db.grants| - 1] + [last];
      var rest := PermissionNames(db.(grants := db.grants[..|db.grants| - 1]), roleId);
      if last.roleId == roleId && last.permissionId in db.permissions then rest + [db.permissions[last.permissionId]]
      else rest
  }

  // ---------------------------------------------------------------------------------------
  // Runs of row operations

  datatype RoleOp =
    | Insert(role: Role)
    | Delete(id: string)
    | Assign(roleId: string, permissionId: string)
    | Remove(roleId: string, permissionId: string)

  /** The tables together with the creation rank of every id ever stored, deleted ids included. */
  datatype RoleLog = RoleLog(db: RoleDb, rank: map<string, nat>)

  /** Ids are non-empty and never reused, not even after deletion. */
  predicate FreshId(log: RoleLog, role: Role) {
    role.id != "" && role.id !in log.rank
  }

  /** Role creation finds the parent before it draws the new id, so no row is its own parent. */
  predicate Legal(log: RoleLog, op: RoleOp) {
    op.Insert? ==> FreshId(log, op.role) && op.role.parentId != Some(op.role.id)
  }

  /** An operation that the database refuses leaves the tables as they were. */
  function Apply(log: RoleLog, op: RoleOp): RoleLog {
    match op
    case Insert(role) =>
      (match InsertRole(log.db, role)
       case Ok(db) => RoleLog(db, log.rank[role.id := |log.rank|])
       case Err(_) => log)
    case Delete(id) =>
      (match DeleteRole(log.db, id)
       case Ok(db) => log.(db := db)
       case Err(_) => log)
    case Assign(roleId, permissionId) =>
      (match UpsertGrant(log.db, roleId, permissionId)
       case Ok(db) => log.(db := db)
       case Err(_) => log)
    case Remove(roleId, permissionId) => log.(db := RemoveGrant(log.db, roleId, permissionId))
  }

  function Exec(log: RoleLog, ops: seq<RoleOp>): RoleLog
    decreases ops
  {
    if ops == [] then log else Exec(Apply(log, ops[0]), ops[1..])
  }

  predicate LegalRun(log: RoleLog, ops: seq<RoleOp>)
    decreases ops
  {
    ops == [] || (Legal(log, ops[0]) && LegalRun(Apply(log, ops[0]), ops[1..]))
  }

  predicate DistinctRows(roles: seq<Role>) {
    forall i, j :: 0 <= i < j < |roles| ==> roles[i].id != roles[j].id && roles[i].name != roles[j].name
  }

  predicate DistinctGrants(grants: seq<Grant>) {
    forall i, j :: 0 <= i < j < |grants| ==> grants[i] != grants[j]
  }

  predicate HasId(roles: seq<Role>, id: string) {
    roles != [] && (roles[|roles| - 1].id == id || HasId(roles[..|roles| - 1], id))
  }

  lemma {:induction false} HasIdMeans(roles: seq<Role>, id: string)
    ensures HasId(roles, id) <==> exists r :: r in roles && r.id == id
  {
    if roles != [] {
      var n := |roles| - 1;
      assert roles == roles[..n] + [roles[n]];
      HasIdMeans(roles[..n], id);
    }
  }

  /** Every stored parent link leads to a stored role created earlier. */
  ghost predicate ParentsRanked(roles: seq<Role>, rank: map<string, nat>) {
    forall r :: r in roles ==>
      && r.id != "" && r.id in rank
      && (r.parentId.Some? ==>
            && HasId(roles, r.parentId.value)
            && r.parentId.value in rank && rank[r.parentId.value] < rank[r.id])
  }

  ghost predicate GrantsResolve(db: RoleDb) {
    && DistinctGrants(db.grants)
    && forall g :: g in db.grants ==> HasId(db.roles, g.roleId) && g.permissionId in db.permissions
  }

  ghost predicate WellFounded(log: RoleLog) {
    && DistinctRows(log.db.roles)
    && ParentsRanked(log.db.roles, log.rank)
    && (forall id :: id in log.rank ==> log.rank[id] < |log.rank|)
    && GrantsResolve(log.db)
  }

  // ---------------------------------------------------------------------------------------
  // Every operation keeps the tables well founded

  lemma {:induction false} RolesWithoutRows(roles: seq<Role>, id: string)
    ensures forall r :: r in RolesWithout(roles, id) <==>
              && r.id != id && r.parentId != Some(id)
              && (r in roles || (r.parentId == None && r.(parentId := Some(id)) in roles))
    ensures DistinctRows(roles) ==> DistinctRows(RolesWithout(roles, id))
  {
    if roles != [] {
      var n := |roles| - 1;
      assert roles == roles[..n] + [roles[n]];
      RolesWithoutRows(roles[..n], id);
      if DistinctRows(roles) {
        forall r | r in RolesWithout(roles[..n], id)
          ensures r.id != roles[n].id && r.name != roles[n].name
        {
          var original := if r in roles[..n] then r else r.(parentId := Some(id));
          assert original in roles[..n];
        }
      }
    }
  }

  /** One role's row goes and the rows of its children lose their parent link; the others stay. */
  ghost predicate RoleGone(before: seq<Role>, after: seq<Role>, id: string) {
    forall r :: r in after <==>
      && r.id != id && r.parentId != Some(id)
      && (r in before || (r.parentId == None && Role(r.id, r.name, Some(id)) in before))
  }

  lemma {:induction false} GrantsWithoutRows(grants: seq<Grant>, roleId: string)
    ensures forall g :: g in GrantsWithout(grants, roleId) <==> g in grants && g.roleId != roleId
    ensures DistinctGrants(grants) ==> DistinctGrants(GrantsWithout(grants, roleId))
  {
    if grants != [] {
      var n := |grants| - 1;
      assert grants == grants[..n] + [grants[n]];
      GrantsWithoutRows(grants[..n], roleId);
    }
  }

  lemma {:induction false} GrantsMinusRows(grants: seq<Grant>, gone: Grant)
    ensures forall g :: g in GrantsMinus(grants, gone) <==> g in grants && g != gone
    ensures DistinctGrants(grants) ==> DistinctGrants(GrantsMinus(grants, gone))
  {
    if grants != [] {
      var n := |grants| - 1;
      assert grants == grants[..n] + [grants[n]];
      GrantsMinusRows(grants[..n], gone);
      assert DistinctGrants(grants) ==> grants[n] !in grants[..n];
    }
  }

  lemma {:induction false} InsertKeepsRanked(roles: seq<Role>, rank: map<string, nat>, role: Role, top: nat)
    requires ParentsRanked(roles, rank) && role.id != "" && role.id !in rank
    requires forall id :: id in rank ==> rank[id] < top
    requires role.parentId.Some? ==> FindById(roles, role.parentId.value).Some?
    ensures ParentsRanked(roles + [role], rank[role.id := top])
  {
    var after := roles + [role];
    assert after[..|after| - 1] == roles;
    assert forall id :: HasId(roles, id) ==> HasId(after, id);
    if role.parentId.Some? {
      var parent := FindById(roles, role.parentId.value).value;
      HasIdMeans(roles, parent.id);
    }
  }

  lemma {:induction false} InsertKeepsGrants(db: RoleDb, role: Role)
    requires GrantsResolve(db)
    ensures GrantsResolve(db.(roles := db.roles + [role]))
  {
    var after := db.roles + [role];
    assert after[..|after| - 1] == db.roles;
    assert forall id :: HasId(db.roles, id) ==> HasId(after, id);
  }

  lemma {:induction false} InsertKeepsWellFounded(log: RoleLog, role: Role)
    requires WellFounded(log) && Legal(log, Insert(role))
    ensures WellFounded(Apply(log, Insert(role)))
  {
    if InsertRole(log.db, role).Ok? {
      if role.parentId.Some? {
        FindByIdAppend(log.db.roles, role, role.parentId.value);
      }
      assert log.rank[role.id := |log.rank|].Keys == log.rank.Keys + {role.id};
      InsertKeepsRanked(log.db.roles, log.rank, role, |log.rank|);
      InsertKeepsGrants(log.db, role);
    }
  }

  lemma {:induction false} DeleteKeepsWellFounded(log: RoleLog, id: string)
    requires WellFounded(log)
    ensures WellFounded(Apply(log, Delete(id)))
  {
    var before, after := log.db.roles, RolesWithout(log.db.roles, id);
    RolesWithoutRows(before, id);
    GrantsWithoutRows(log.db.grants, id);
    forall other | HasId(before, other) && other != id
      ensures HasId(after, other)
    {
      HasIdMeans(before, other);
      HasIdMeans(after, other);
      var r :| r in before && r.id == other;
      assert (if r.parentId == Some(id) then r.(parentId := None) else r) in after;
    }
    forall r | r in after
      ensures r.id in log.rank && r.id != ""
      ensures r.parentId.Some? ==> r in before
    {
      assert r in before || r.(parentId := Some(id)) in before;
    }
  }

  lemma {:induction false} AssignKeepsWellFounded(log: RoleLog, roleId: string, permissionId: string)
    requires WellFounded(log)
    ensures WellFounded(Apply(log, Assign(roleId, permissionId)))
  {
    HasIdMeans(log.db.roles, roleId);
  }

  /** What each operation does to the rows, and when the database refuses it. */
  lemma {:induction false} ApplyDoes(log: RoleLog, op: RoleOp)
    ensures var before, after := log.db, Apply(log, op).db;
            match op
            case Insert(role) =>
              if (forall r :: r in before.roles ==> r.id != role.id && r.name != role.name) &&
                 (role.parentId.Some? ==> exists r :: r in before.roles + [role] && r.id == role.parentId.value)
              then after == RoleDb(before.roles + [role], before.permissions, before.grants)
              else after == before
            case Delete(id) =>
              if exists r :: r in before.roles && r.id == id then
                && RoleGone(before.roles, after.roles, id)
                && (forall g :: g in after.grants <==> g in before.grants && g.roleId != id)
                && after.permissions == before.permissions
              else after == before
            case Assign(roleId, permissionId) =>
              && after.roles == before.roles && after.permissions == before.permissions
              && forall g :: g in after.grants <==>
                   || g in before.grants
                   || (g == Grant(roleId, permissionId) && permissionId in before.permissions &&
                       exists r :: r in before.roles && r.id == roleId)
            case Remove(roleId, permissionId) =>
              && after.roles == before.roles && after.permissions == before.permissions
              && forall g :: g in after.grants <==> g in before.grants && g != Grant(roleId, permissionId)
  {
    match op
    case Insert(role) => assert forall r :: r in log.db.roles ==> r in log.db.roles + [role];
    case Delete(id) => RolesWithoutRows(log.db.roles, id); GrantsWithoutRows(log.db.grants, id);
    case Assign(_, _) =>
    case Remove(roleId, permissionId) => GrantsMinusRows(log.db.grants, Grant(roleId, permissionId));
  }

  lemma {:induction false} ApplyKeepsWellFounded(log: RoleLog, op: RoleOp)
    requires WellFounded(log) && Legal(log, op)
    ensures WellFounded(Apply(log, op))
  {
    match op
    case Insert(role) => InsertKeepsWellFounded(log, role);
    case Delete(id) => DeleteKeepsWellFounded(log, id);
    case Assign(roleId, permissionId) => AssignKeepsWellFounded(log, roleId, permissionId);
    case Remove(roleId, permissionId) => GrantsMinusRows(log.db.grants, Grant(roleId, permissionId));
  }

  /**
   Any run of insertions, deletions and permission changes, in any order, keeps ids and
   names unique, parent links resolved, and creation rank falling along every parent link.
   */
  lemma {:induction false} RoleRunsStayWellFounded(log: RoleLog, ops: seq<RoleOp>)
    requires WellFounded(log) && LegalRun(log, ops)
    ensures WellFounded(Exec(log, ops))
    decreases ops
  {
    if ops != [] {
      ApplyKeepsWellFounded(log, ops[0]);
      RoleRunsStayWellFounded(Apply(log, ops[0]), ops[1..]);
    }
  }

  // ---------------------------------------------------------------------------------------
  // What a well-founded table means for inheritance

  lemma {:induction false} DistinctRowsUnique(roles: seq<Role>)
    requires DistinctRows(roles)
    ensures UniqueRoles(roles)
  {
    forall a, b | a in roles && b in roles && (a.id == b.id || a.name == b.name)
      ensures a == b
    {
      var i :| 0 <= i < |roles| && roles[i] == a;
      var j :| 0 <= j < |roles| && roles[j] == b;
    }
  }

  /** The creation rank of each name's row. */
  ghost function NameRanks(log: RoleLog): map<string, nat>
    requires ParentsRanked(log.db.roles, log.rank)
  {
    map n | n in NameIndex(log.db.roles) :: log.rank[NameIndex(log.db.roles)[n].id]
  }

  ghost predicate Descends(roles: seq<Role>, ranks: map<string, nat>) {
    forall n :: ParentName(roles, n).Some? ==>
      n in ranks && ParentName(roles, n).value in ranks && ranks[ParentName(roles, n).value] < ranks[n]
  }

  lemma {:induction false} ParentHasLowerRank(log: RoleLog, name: string)
    requires WellFounded(log)
    requires ParentName(log.db.roles, name).Some?
    ensures NameRanks(log)[ParentName(log.db.roles, name).value] < NameRanks(log)[name]
  {
    var roles := log.db.roles;
    DistinctRowsUnique(roles);
    var role := NameIndex(roles)[name];
    var parent := ParentOf(roles, role).value;
    assert NameIndex(roles)[parent.name] == parent;
  }

  lemma {:induction false} RanksDescend(log: RoleLog)
    requires WellFounded(log)
    ensures Descends(log.db.roles, NameRanks(log))
  {
    forall n | ParentName(log.db.roles, n).Some?
      ensures NameRanks(log)[ParentName(log.db.roles, n).value] < NameRanks(log)[n]
    {
      ParentHasLowerRank(log, n);
    }
  }

  lemma {:induction false} RankFallsAlongPath(
      roles: seq<Role>, ranks: map<string, nat>, path: seq<string>, i: nat, j: nat)
    requires Descends(roles, ranks) && IsPath(roles, path)
    requires i < j < |path|
    ensures path[i] in ranks && path[j] in ranks && ranks[path[j]] < ranks[path[i]]
    decreases j
  {
    assert ParentName(roles, path[j - 1]) == Some(path[j]);
    if i < j - 1 {
      RankFallsAlongPath(roles, ranks, path, i, j - 1);
    }
  }

  lemma {:induction false} PathsAreSimple(roles: seq<Role>, ranks: map<string, nat>, path: seq<string>)
    requires Descends(roles, ranks) && IsPath(roles, path)
    ensures NoDuplicates(path)
  {
    forall i, j | 0 <= i < j < |path|
      ensures path[i] != path[j]
    {
      RankFallsAlongPath(roles, ranks, path, i, j);
    }
  }

  /** After any legal run no chain of parents visits a role twice. */
  lemma {:induction false} RunsNeverCreateCycles(log: RoleLog, ops: seq<RoleOp>, path: seq<string>)
    requires WellFounded(log) && LegalRun(log, ops)
    requires IsPath(Exec(log, ops).db.roles, path)
    ensures NoDuplicates(path)
  {
    RoleRunsStayWellFounded(log, ops);
    RanksDescend(Exec(log, ops));
    PathsAreSimple(Exec(log, ops).db.roles, NameRanks(Exec(log, ops)), path);
  }

  /** The end of a path is new to it, and a parent of the end extends it. */
  lemma {:induction false} PathStep(roles: seq<Role>, ranks: map<string, nat>, visited: seq<string>, name: string)
    requires Descends(roles, ranks) && IsPath(roles, visited + [name])
    ensures name !in visited
    ensures ParentName(roles, name).Some? ==> IsPath(roles, visited + [name] + [ParentName(roles, name).value])
  {
    var next := visited + [name];
    PathsAreSimple(roles, ranks, next);
    forall i | 0 <= i < |visited|
      ensures visited[i] != name
    {
      assert next[i] == visited[i] && next[|visited|] == name;
    }
  }

  /** A path that extends another one up to a name without a parent. */
  ghost predicate ClimbsToRoot(roles: seq<Role>, start: seq<string>, chain: seq<string>) {
    IsPath(roles, chain) && start <= chain && ParentName(roles, chain[|chain| - 1]) == None
  }

  /** Where parents descend in rank, collection from the end of a path extends it to a parentless name. */
  lemma {:induction false} CollectClimbs(roles: seq<Role>, ranks: map<string, nat>, visited: seq<string>, name: string)
    requires Descends(roles, ranks) && Known(roles, name)
    requires IsPath(roles, visited + [name])
    ensures ClimbsToRoot(roles, visited + [name], Collect(roles, visited, name))
    decreases Unvisited(roles, visited)
  {
    var next := visited + [name];
    PathStep(roles, ranks, visited, name);
    assert name in Unvisited(roles, visited) && name !in Unvisited(roles, next);
    if ParentName(roles, name).Some? {
      CollectClimbs(roles, ranks, next, ParentName(roles, name).value);
    }
  }

  lemma {:induction false} NoParentNameMeansNoLink(log: RoleLog, name: string)
    requires WellFounded(log) && Known(log.db.roles, name)
    ensures ParentName(log.db.roles, name) == None <==> NameIndex(log.db.roles)[name].parentId == None
  {
    var role := NameIndex(log.db.roles)[name];
    if role.parentId.Some? {
      HasIdMeans(log.db.roles, role.parentId.value);
    }
  }

  /** From `name` itself, parent by parent, up to a role stored without a parent. */
  ghost predicate AncestorChain(roles: seq<Role>, name: string, chain: seq<string>) {
    && IsPath(roles, chain) && chain[0] == name
    && NameIndex(roles)[chain[|chain| - 1]].parentId == None
  }

  lemma {:induction false} WellFoundedReachesRoot(log: RoleLog, name: string)
    requires WellFounded(log) && Known(log.db.roles, name)
    ensures AncestorChain(log.db.roles, name, EffectiveRoles(log.db.roles, [name]))
  {
    var chain := EffectiveRoles(log.db.roles, [name]);
    RanksDescend(log);
    ChainFromName(log.db.roles, NameRanks(log), name);
    assert chain[0] == [name][0];
    NoParentNameMeansNoLink(log, chain[|chain| - 1]);
  }

  /**
   After any legal run, resolving one known role yields its chain of ancestors in order,
   from the role itself up to a role stored without a parent.
   */
  lemma {:induction false} ResolutionReachesRoot(log: RoleLog, ops: seq<RoleOp>, name: string)
    requires WellFounded(log) && LegalRun(log, ops)
    ensures var roles := Exec(log, ops).db.roles;
            Known(roles, name) ==> AncestorChain(roles, name, EffectiveRoles(roles, [name]))
  {
    RoleRunsStayWellFounded(log, ops);
    if Known(Exec(log, ops).db.roles, name) {
      WellFoundedReachesRoot(Exec(log, ops), name);
    }
  }

  lemma {:induction false} ChainFromName(roles: seq<Role>, ranks: map<string, nat>, name: string)
    requires Descends(roles, ranks) && Known(roles, name)
    ensures ClimbsToRoot(roles, [name], EffectiveRoles(roles, [name]))
  {
    LonePath(roles, name);
    CollectClimbs(roles, ranks, [], name);
    ResolvesOne(roles, name);
  }

  lemma {:induction false} LonePath(roles: seq<Role>, name: string)
    requires Known(roles, name)
    ensures [] + [name] == [name] && IsPath(roles, [] + [name])
  {
  }

  lemma {:induction false} ResolvesOne(roles: seq<Role>, name: string)
    ensures EffectiveRoles(roles, [name]) == Collect(roles, [], name)
  {
    assert [name][1..] == [];
    assert CollectAll(roles, [], [name]) == CollectAll(roles, Collect(roles, [], name), []);
  }

  // ---------------------------------------------------------------------------------------
  // The one insertion that does create a cycle

  ghost predicate Acyclic(roles: seq<Role>) {
    forall path :: IsPath(roles, path) ==> NoDuplicates(path)
  }

  lemma {:induction false} WellFoundedIsAcyclic(log: RoleLog)
    requires WellFounded(log)
    ensures Acyclic(log.db.roles)
  {
    RanksDescend(log);
    forall path | IsPath(log.db.roles, path)
      ensures NoDuplicates(path)
    {
      PathsAreSimple(log.db.roles, NameRanks(log), path);
    }
  }

  lemma {:induction false} SelfParentIsCycle(roles: seq<Role>, role: Role)
    requires role.parentId == Some(role.id) && role.id != "" && FindById(roles, role.id).None?
    ensures !Acyclic(roles + [role])
  {
    var after := roles + [role];
    assert after[..|after| - 1] == roles;
    FindByIdAppend(roles, role, role.id);
    assert NameIndex(after)[role.name] == role && ParentOf(after, role) == Some(role);
    LoopIsCycle(after, role.name);
  }

  lemma {:induction false} LoopIsCycle(roles: seq<Role>, name: string)
    requires ParentName(roles, name) == Some(name)
    ensures !Acyclic(roles)
  {
    var loop := [name, name];
    assert IsPath(roles, loop);
    assert loop[0] == loop[1] && !NoDuplicates(loop);
  }

  /** Inserting a row that the database accepts creates a cycle exactly if the row is its own parent. */
  lemma {:induction false} InsertKeepsAcyclicIff(log: RoleLog, role: Role)
    requires WellFounded(log) && FreshId(log, role) && InsertRole(log.db, role).Ok?
    ensures Acyclic(InsertRole(log.db, role).value.roles) <==> role.parentId != Some(role.id)
  {
    if role.parentId != Some(role.id) {
      InsertKeepsWellFounded(log, role);
      WellFoundedIsAcyclic(Apply(log, Insert(role)));
    } else {
      SelfParentIsCycle(log.db.roles, role);
    }
  }

  // ---------------------------------------------------------------------------------------
  // What one operation leaves unchanged

  lemma {:induction false} FindByIdAppend(roles: seq<Role>, role: Role, id: string)
    ensures FindById(roles + [role], id) ==
            if FindById(roles, id).Some? then FindById(roles, id)
            else if role.id == id then Some(role) else None
  {
    if roles != [] {
      assert (roles + [role])[1..] == roles[1..] + [role];
      FindByIdAppend(roles[1..], role, id);
    }
  }

  lemma {:induction false} InsertKeepsParent(log: RoleLog, role: Role, existing: Role)
    requires WellFounded(log) && InsertRole(log.db, role).Ok?
    requires existing in log.db.roles
    ensures ParentOf(log.db.roles + [role], existing) == ParentOf(log.db.roles, existing)
  {
    if existing.parentId.Some? {
      FindByIdAppend(log.db.roles, role, existing.parentId.value);
      HasIdMeans(log.db.roles, existing.parentId.value);
    }
  }

  /** Edges of existing names are untouched, and none of them leads to the new role. */
  lemma {:induction false} InsertKeepsParentName(log: RoleLog, role: Role, n: string)
    requires WellFounded(log) && InsertRole(log.db, role).Ok?
    requires n != role.name
    ensures Known(log.db.roles + [role], n) == Known(log.db.roles, n)
    ensures ParentName(log.db.roles + [role], n) == ParentName(log.db.roles, n)
    ensures ParentName(log.db.roles, n) != Some(role.name)
  {
    var before := log.db.roles;
    var after := before + [role];
    assert after[..|after| - 1] == before;
    if Known(before, n) {
      InsertKeepsParent(log, role, NameIndex(before)[n]);
    }
  }

  lemma {:induction false} PathAvoids(roles: seq<Role>, name: string, path: seq<string>, i: nat)
    requires forall n :: n != name ==> ParentName(roles, n) != Some(name)
    requires IsPath(roles, path) && path[0] != name && i < |path|
    ensures path[i] != name
  {
    if i > 0 {
      PathAvoids(roles, name, path, i - 1);
      assert ParentName(roles, path[i - 1]) == Some(path[i]);
    }
  }

  /** Storing a new role changes no existing role's ancestors. */
  lemma {:induction false} InsertLeavesAncestors(log: RoleLog, role: Role, from: string, to: string)
    requires WellFounded(log) && InsertRole(log.db, role).Ok?
    requires from != role.name
    ensures Reachable(InsertRole(log.db, role).value.roles, from, to) <==> Reachable(log.db.roles, from, to)
  {
    forall n | n != role.name
      ensures Known(log.db.roles + [role], n) == Known(log.db.roles, n)
      ensures ParentName(log.db.roles + [role], n) == ParentName(log.db.roles, n)
      ensures ParentName(log.db.roles, n) != Some(role.name)
    {
      InsertKeepsParentName(log, role, n);
    }
    SameAwayFrom(log.db.roles, log.db.roles + [role], role.name, from, to);
  }

  ghost predicate AgreeAwayFrom(before: seq<Role>, after: seq<Role>, name: string) {
    forall n :: n != name ==>
      && Known(after, n) == Known(before, n)
      && ParentName(after, n) == ParentName(before, n)
      && ParentName(before, n) != Some(name)
  }

  lemma {:induction false} SameAwayFrom(before: seq<Role>, after: seq<Role>, name: string, from: string, to: string)
    requires AgreeAwayFrom(before, after, name) && from != name
    ensures Reachable(after, from, to) <==> Reachable(before, from, to)
  {
    if Reachable(after, from, to) {
      var path :| PathBetween(after, path, from, to);
      forall i | 0 <= i < |path|
        ensures path[i] != name
      {
        PathAvoids(after, name, path, i);
      }
      assert PathBetween(before, path, from, to);
    }
    if Reachable(before, from, to) {
      var path :| PathBetween(before, path, from, to);
      forall i | 0 <= i < |path|
        ensures path[i] != name
      {
        PathAvoids(before, name, path, i);
      }
      assert PathBetween(after, path, from, to);
    }
  }

  /** A deletion forgets the one name, and clears at most the parent link of every other row. */
  lemma {:induction false} RowAfterDelete(roles: seq<Role>, gone: Role, n: string)
    requires DistinctRows(roles) && gone in roles
    ensures var after := RolesWithout(roles, gone.id);
            && (Known(after, n) <==> Known(roles, n) && n != gone.name)
            && (Known(after, n) ==>
                  var r := NameIndex(roles)[n];
                  && r.id != gone.id
                  && NameIndex(after)[n] == if r.parentId == Some(gone.id) then r.(parentId := None) else r)
  {
    var after := RolesWithout(roles, gone.id);
    RolesWithoutRows(roles, gone.id);
    DistinctRowsUnique(roles);
    DistinctRowsUnique(after);
    if Known(roles, n) && n != gone.name {
      var r := NameIndex(roles)[n];
      assert (if r.parentId == Some(gone.id) then r.(parentId := None) else r) in after;
    }
  }

  /** What a deletion does to one parent edge. */
  lemma {:induction false} ParentNameAfterDelete(roles: seq<Role>, gone: Role, n: string)
    requires DistinctRows(roles) && gone in roles
    ensures var after := RolesWithout(roles, gone.id);
            && (Known(after, n) <==> Known(roles, n) && n != gone.name)
            && (n != gone.name ==>
                  ParentName(after, n) ==
                      (if ParentName(roles, n) == Some(gone.name) then None else ParentName(roles, n)))
  {
    RowAfterDelete(roles, gone, n);
    if Known(roles, n) && n != gone.name {
      ParentOfAfterDelete(roles, gone, NameIndex(roles)[n], NameIndex(RolesWithout(roles, gone.id))[n]);
    }
  }

  lemma {:induction false} ParentOfAfterDelete(roles: seq<Role>, gone: Role, r: Role, kept: Role)
    requires DistinctRows(roles) && gone in roles && r in roles && r.id != gone.id
    requires kept == if r.parentId == Some(gone.id) then r.(parentId := None) else r
    ensures var p := ParentOf(roles, r);
            var q := ParentOf(RolesWithout(roles, gone.id), kept);
            && q.Some? == (p.Some? && p.value.name != gone.name)
            && (q.Some? ==> q.value.name == p.value.name)
  {
    var after := RolesWithout(roles, gone.id);
    RolesWithoutRows(roles, gone.id);
    DistinctRowsUnique(roles);
    DistinctRowsUnique(after);
    var p := ParentOf(roles, r);
    if p.Some? && p.value.name != gone.name {
      assert p.value.id != gone.id;
      var parent := if p.value.parentId == Some(gone.id) then p.value.(parentId := None) else p.value;
      assert parent in after && parent.id == kept.parentId.value;
      assert ParentOf(after, kept) == Some(parent);
    }
  }

  /** Deleting a role cuts exactly the inheritance that passes through it. */
  lemma {:induction false} DeleteCutsThroughRole(roles: seq<Role>, gone: Role, from: string, to: string)
    requires DistinctRows(roles) && gone in roles
    ensures Reachable(RolesWithout(roles, gone.id), from, to) <==>
            exists path :: PathBetween(roles, path, from, to) && gone.name !in path
  {
    var after := RolesWithout(roles, gone.id);
    forall n
      ensures Known(after, n) <==> Known(roles, n) && n != gone.name
      ensures n != gone.name ==>
              ParentName(after, n) == (if ParentName(roles, n) == Some(gone.name) then None else ParentName(roles, n))
    {
      ParentNameAfterDelete(roles, gone, n);
    }
    if path :| PathBetween(roles, path, from, to) && gone.name !in path {
      assert PathBetween(after, path, from, to);
    }
    if Reachable(after, from, to) {
      var path :| PathBetween(after, path, from, to);
      assert PathBetween(roles, path, from, to) && gone.name !in path;
    }
  }
}
