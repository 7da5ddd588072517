/**
 The role repository as an object over the role tables, and the service that creates roles.
 UUID generation is a parameter.
 */
module RoleServices {
  import opened Wrappers
  import opened RoleGraph
  import opened RoleStore

  class RoleRepository {
    var roles: seq<Role>
    var permissions: map<string, string>
    var grants: seq<Grant>

    function Db(): RoleDb
      reads this
    {
      RoleDb(roles, permissions, grants)
    }

    constructor (db: RoleDb)
      ensures Db() == db
    {
      roles, permissions, grants := db.roles, db.permissions, db.grants;
    }

    method FindAll() returns (all: seq<Role>)
      ensures all == roles
    {
      all := roles;
    }

    method FindPermissions(roleId: string) returns (names: seq<string>)
      ensures names == PermissionNames(Db(), roleId)
    {
      names := [];
      for i := 0 to |grants|
        invariant names == PermissionNames(Db().(grants := grants[..i]), roleId)
      {
        var g := grants[i];
        assert grants[..i + 1][..i] == grants[..i];
        if g.roleId == roleId && g.permissionId in permissions {
          names := names + [permissions[g.permissionId]];
        }
      }
      assert grants[..|grants|] == grants;
    }

    method Create(role: Role) returns (r: Result<(), DbError>)
      modifies this
      ensures match InsertRole(old(Db()), role)
              case Ok(db) => r == Ok(()) && Db() == db
              case Err(e) => r == Err(e) && Db() == old(Db())
      ensures r.Ok? <==>
                && (forall row :: row in old(roles) ==> row.id != role.id && row.name != role.name)
                && (role.parentId.Some? ==> exists row :: row in old(roles) + [role] && row.id == role.parentId.value)
      ensures r.Ok? ==> roles == old(roles) + [role] && permissions == old(permissions) && grants == old(grants)
    {
      assert role in roles + [role] && forall row :: row in roles ==> row in roles + [role];
      if FindById(roles, role.id).Some? || FindByName(roles, role.name).Some? {
        return Err(UniqueViolation);
      }
      if role.parentId.Some? && FindById(roles + [role], role.parentId.value).None? {
        return Err(ForeignKeyViolation);
      }
      roles := roles + [role];
      r := Ok(());
    }

    method Delete(id: string) returns (r: Result<(), DbError>)
      modifies this
      ensures match DeleteRole(old(Db()), id)
              case Ok(db) => r == Ok(()) && Db() == db
              case Err(e) => r == Err(e) && Db() == old(Db())
      ensures r.Ok? <==> exists row :: row in old(roles) && row.id == id
      ensures r.Ok? ==> RoleGone(old(roles), roles, id)
      ensures r.Ok? ==> forall g :: g in grants <==> g in old(grants) && g.roleId != id
      ensures r.Ok? ==> permissions == old(permissions)
    {
      RolesWithoutRows(roles, id);
      GrantsWithoutRows(grants, id);
      if FindById(roles, id).None? {
        return Err(RecordNotFound);
      }
      roles, grants := RolesWithout(roles, id), GrantsWithout(grants, id);
      r := Ok(());
    }

    method AssignPermission(roleId: string, permissionId: string) returns (r: Result<(), DbError>)
      modifies this
      ensures match UpsertGrant(old(Db()), roleId, permissionId)
              case Ok(db) => r == Ok(()) && Db() == db
              case Err(e) => r == Err(e) && Db() == old(Db())
      ensures r.Ok? <==>
                || Grant(roleId, permissionId) in old(grants)
                || ((exists row :: row in old(roles) && row.id == roleId) && permissionId in old(permissions))
      ensures r.Ok? ==> forall g :: g in grants <==> g in old(grants) || g == Grant(roleId, permissionId)
      ensures roles == old(roles) && permissions == old(permissions)
    {
      if Grant(roleId, permissionId) in grants {
        return Ok(());
      }
      if FindById(roles, roleId).None? || permissionId !in permissions {
        return Err(ForeignKeyViolation);
      }
      grants := grants + [Grant(roleId, permissionId)];
      r := Ok(());
    }

    method RemovePermission(roleId: string, permissionId: string)
      modifies this
      ensures Db() == RemoveGrant(old(Db()), roleId, permissionId)
      ensures forall g :: g in grants <==> g in old(grants) && g != Grant(roleId, permissionId)
      ensures roles == old(roles) && permissions == old(permissions)
    {
      GrantsMinusRows(grants, Grant(roleId, permissionId));
      grants := GrantsMinus(grants, Grant(roleId, permissionId));
    }
  }

  datatype CreateRoleError = RoleExists | ParentNotFound | Database(error: DbError)

  class CreateRoleService {
    const roleRepository: RoleRepository

    constructor (roleRepository: RoleRepository)
      ensures this.roleRepository == roleRepository
    {
      this.roleRepository := roleRepository;
    }

    /**
     Succeeds exactly when the name is free and the parent, if one is asked for, exists;
     then the one new row is the requested role, which is not its own parent. An empty parent id
     asks for no parent.
     */
    method Execute(name: string, parentId: Option<string>, uuid: string) returns (r: Result<string, CreateRoleError>)
      requires FindById(roleRepository.roles, uuid).None?
      modifies roleRepository
      ensures r.Ok? <==>
                && (forall row :: row in old(roleRepository.roles) ==> row.name != name)
                && (parentId.None? || parentId.value == "" ||
                    exists row :: row in old(roleRepository.roles) && row.id == parentId.value)
      ensures r.Ok? ==>
                && r.value == uuid
                && roleRepository.roles ==
                   old(roleRepository.roles) + [Role(uuid, name, if parentId == Some("") then None else parentId)]
                && roleRepository.permissions == old(roleRepository.permissions)
                && roleRepository.grants == old(roleRepository.grants)
                && (parentId != Some("") ==> parentId != Some(uuid))
      ensures r.Err? ==> roleRepository.Db() == old(roleRepository.Db()) && !r.error.Database?
    {
      var existing := FindByName(roleRepository.roles, name);
      if existing.Some? {
        return Err(RoleExists);
      }
      if parentId.Some? && parentId.value != "" {
        var parent := FindById(roleRepository.roles, parentId.value);
        if parent.None? {
          return Err(ParentNotFound);
        }
      }
      var role := Role(uuid, name, if parentId == Some("") then None else parentId);
      var created := roleRepository.Create(role);
      r := match created case Ok(_) => Ok(uuid) case Err(e) => Err(Database(e));
    }
  }
}
