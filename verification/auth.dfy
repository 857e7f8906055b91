/**
 * Authorisation: roles, permissions and the role-permission link table, the
 * join that lists a role's permissions, and the service decisions built on
 * it (`has_permissions`, `get_permissions_of`, `authenticate`,
 * `validate_email`). The password hash check is a parameter.
 */
module Auth {
  import opened Wrappers
  import opened PyValues
  import Users = UserRepository

  datatype Role = Role(id: int, name: string)
  datatype Permission = Permission(id: int, name: string)
  datatype RolePermission = RolePermission(roleId: int, permissionId: int)

  /** The three tables, each in the order the database returns its rows. */
  datatype AuthDb = AuthDb(roles: seq<Role>, permissions: seq<Permission>, links: seq<RolePermission>)

  /** `get_role(role_id)`: the first role with that id, or `None`. */
  function GetRole(roles: seq<Role>, roleId: int): (r: Option<Role>)
    ensures r.Some? ==> r.value in roles && r.value.id == roleId
    ensures r.None? <==> forall x :: x in roles ==> x.id != roleId
  {
    if roles == [] then None
    else if roles[0].id == roleId then Some(roles[0])
    else
      var r := GetRole(roles[1..], roleId);
      assert forall x :: x in roles <==> x == roles[0] || x in roles[1..];
      r
  }

  /** With unique role ids (the primary key) the role found is the one with that id. */
  lemma GetRoleUnique(roles: seq<Role>, x: Role)
    requires x in roles
    requires forall i, j :: 0 <= i < |roles| && 0 <= j < |roles| && roles[i].id == roles[j].id ==> i == j
    ensures GetRole(roles, x.id) == Some(x)
  {
    var y := GetRole(roles, x.id).value;
    var i :| 0 <= i < |roles| && roles[i] == x;
    var j :| 0 <= j < |roles| && roles[j] == y;
  }

  /** The permission ids the link table pairs with `role` (`role_id == None` matches no row). */
  function GrantedIds(links: seq<RolePermission>, role: Option<int>): (ids: set<int>)
    ensures forall pid :: pid in ids <==> role.Some? && RolePermission(role.value, pid) in links
  {
    set l | l in links && role == Some(l.roleId) :: l.permissionId
  }

  /** The permissions whose id is in `ids`, in table order. */
  function WithIds(perms: seq<Permission>, ids: set<int>): (r: seq<Permission>)
    ensures |r| <= |perms|
    ensures forall p :: p in r <==> p in perms && p.id in ids
  {
    if perms == [] then []
    else
      var rest := WithIds(perms[1..], ids);
      assert forall p :: p in perms <==> p == perms[0] || p in perms[1..];
      if perms[0].id in ids then [perms[0]] + rest else rest
  }

  /** `get_permissions_of_role(role_id)`: the permissions the link table pairs with the role. */
  function PermissionsOfRole(db: AuthDb, role: Option<int>): (r: seq<Permission>)
    ensures forall p :: p in r <==> p in db.permissions && role.Some? && RolePermission(role.value, p.id) in db.links
  {
    WithIds(db.permissions, GrantedIds(db.links, role))
  }

  /** A role without link rows, or no role at all, has no permissions. */
  lemma NoLinksNoPermissions(db: AuthDb, role: Option<int>)
    requires role.None? || forall l :: l in db.links ==> l.roleId != role.value
    ensures PermissionsOfRole(db, role) == []
  {
    assert GrantedIds(db.links, role) == {};
    WithNoIds(db.permissions);
  }

  lemma {:induction false} WithNoIds(perms: seq<Permission>)
    ensures WithIds(perms, {}) == []
  {
    if perms != [] {
      WithNoIds(perms[1..]);
    }
  }

  /** The names of a list of permissions, in order. */
  function Names(perms: seq<Permission>): (r: seq<string>)
    ensures |r| == |perms|
    ensures forall i :: 0 <= i < |perms| ==> r[i] == perms[i].name
  {
    seq(|perms|, i requires 0 <= i < |perms| => perms[i].name)
  }

  /** The placeholder `get_permissions_of` answers for an unknown user. */
  const NoPermissions := "NO_PERMISSIONS"

  /**
   * `get_permissions_of(user_id)`: `["NO_PERMISSIONS"]` for an unknown user
   * (a user row is always truthy); otherwise the names of its role's permissions.
   */
  function PermissionsOf(users: Users.Store, db: AuthDb, userId: int): (r: seq<string>)
    ensures userId !in users ==> r == [NoPermissions]
    ensures userId in users ==> forall n :: n in r <==>
      (exists p :: p in db.permissions && p.name == n && users[userId].roleId.Some?
        && RolePermission(users[userId].roleId.value, p.id) in db.links)
  {
    if userId !in users then [NoPermissions]
    else
      var perms := PermissionsOfRole(db, users[userId].roleId);
      var r := Names(perms);
      assert forall n :: n in r ==> exists p :: p in perms && p.name == n by {
        forall n | n in r ensures exists p :: p in perms && p.name == n {
          var i :| 0 <= i < |r| && r[i] == n;
          assert perms[i] in perms;
        }
      }
      assert forall p :: p in perms ==> p.name in r by {
        forall p | p in perms ensures p.name in r {
          var i :| 0 <= i < |perms| && perms[i] == p;
          assert r[i] == p.name;
        }
      }
      r
  }

  /** Whether some required name is among the granted names (Python's `any`; an empty requirement is false). */
  predicate AnyOf(required: seq<string>, granted: seq<string>) {
    exists q :: q in required && q in granted
  }

  /**
   * `has_permissions(user_id, required)`: a system administrator has every
   * permission; a disabled account has none; anyone else needs at least one
   * of the required names among its role's permissions. The two lookups
   * raise for a truthy id with no user, hence the precondition.
   */
  function HasPermissions(users: Users.Store, db: AuthDb, userId: int, required: seq<string>): (r: bool)
    requires userId != 0 ==> userId in users
    ensures Users.IsSysAdmin(users, userId) ==> r
    ensures !Users.IsSysAdmin(users, userId) && !Users.IsUserEnabled(users, userId) ==> !r
    ensures required == [] && !Users.IsSysAdmin(users, userId) ==> !r
  {
    if Users.IsSysAdmin(users, userId) then true
    else if !Users.IsUserEnabled(users, userId) then false
    else AnyOf(required, PermissionsOf(users, db, userId))
  }

  /**
   * For an enabled ordinary user the decision is the link table's answer:
   * some required name belongs to a permission linked to the user's role.
   */
  lemma HasPermissionsIsJoin(users: Users.Store, db: AuthDb, userId: int, required: seq<string>)
    requires userId in users && userId != 0
    requires !users[userId].systemAdmin && users[userId].enabled
    ensures HasPermissions(users, db, userId, required) <==>
      (exists p :: p in db.permissions && p.name in required && users[userId].roleId.Some?
        && RolePermission(users[userId].roleId.value, p.id) in db.links)
  {
    var granted := PermissionsOf(users, db, userId);
    if HasPermissions(users, db, userId, required) {
      var q :| q in required && q in granted;
      var p :| p in db.permissions && p.name == q && users[userId].roleId.Some?
        && RolePermission(users[userId].roleId.value, p.id) in db.links;
    }
  }

  /** One linked permission among the required names is enough. */
  lemma JoinGrants(users: Users.Store, db: AuthDb, userId: int, required: seq<string>, p: Permission)
    requires userId in users && userId != 0
    requires !users[userId].systemAdmin && users[userId].enabled && users[userId].roleId.Some?
    requires p in db.permissions && p.name in required && RolePermission(users[userId].roleId.value, p.id) in db.links
    ensures HasPermissions(users, db, userId, required)
  {
    HasPermissionsIsJoin(users, db, userId, required);
  }

  /** No linked permission among the required names: refused. */
  lemma JoinDenies(users: Users.Store, db: AuthDb, userId: int, required: seq<string>)
    requires userId in users && userId != 0
    requires !users[userId].systemAdmin && users[userId].roleId.Some?
    requires forall p :: p in db.permissions && p.name in required ==>
      RolePermission(users[userId].roleId.value, p.id) !in db.links
    ensures !HasPermissions(users, db, userId, required)
  {
    if users[userId].enabled {
      HasPermissionsIsJoin(users, db, userId, required);
    }
  }

  /** A user without a role (`role_id` is `None`) has permissions only as an administrator. */
  lemma NoRoleNoPermissions(users: Users.Store, db: AuthDb, userId: int, required: seq<string>)
    requires userId in users && userId != 0
    requires !users[userId].systemAdmin && users[userId].roleId.None?
    ensures !HasPermissions(users, db, userId, required)
  {
    NoLinksNoPermissions(db, users[userId].roleId);
  }

  /**
   * `validate_email(email)`: whether `get_by_email` found a user; `first` is
   * the row `.first()` returned.
   */
  function ValidateEmail(users: Users.Store, email: string, first: Option<int>): (r: bool)
    requires Users.FirstWithEmail(users, email, first)
    ensures r <==> exists id :: id in users && users[id].email == email
  {
    first.Some?
  }

  /**
   * `authenticate(email, password)`: the user `.first()` finds, provided it
   * is enabled, its email is the one given and the hash check (`hashMatches`,
   * applied to the stored password) accepts the password.
   */
  function Authenticate(users: Users.Store, email: string, password: string, first: Option<int>,
                        hashMatches: (Value, string) -> bool): (r: Option<Users.User>)
    requires Users.FirstWithEmail(users, email, first)
    ensures r.Some? ==> first.Some? && r.value == users[first.value]
    ensures r.Some? ==> r.value.enabled && r.value.email == email
                        && hashMatches(Get(r.value.columns, "password"), password)
    ensures (forall id :: id in users && users[id].email == email ==> !users[id].enabled) ==> r.None?
    ensures r.None? ==> first.None? || !users[first.value].enabled
                        || !hashMatches(Get(users[first.value].columns, "password"), password)
  {
    match first
    case None => None
    case Some(id) =>
      var u := users[id];
      if !u.enabled then None
      else if !(u.email == email) || !hashMatches(Get(u.columns, "password"), password) then None
      else Some(u)
  }

  /** The seeded roles: ids 1 to 4. */
  const SeedRoles := [Role(1, "Técnico"), Role(2, "Ecuestre"), Role(3, "Voluntario"), Role(4, "Administración")]

  /** The seeded permissions: ids 1 to 25, five actions for each of five modules. */
  const SeedPermissions := [
    Permission(1, "equipo_index"), Permission(2, "equipo_new"), Permission(3, "equipo_update"),
    Permission(4, "equipo_destroy"), Permission(5, "equipo_show"),
    Permission(6, "pagos_index"), Permission(7, "pagos_new"), Permission(8, "pagos_update"),
    Permission(9, "pagos_destroy"), Permission(10, "pagos_show"),
    Permission(11, "jya_index"), Permission(12, "jya_new"), Permission(13, "jya_update"),
    Permission(14, "jya_destroy"), Permission(15, "jya_show"),
    Permission(16, "cobros_index"), Permission(17, "cobros_new"), Permission(18, "cobros_update"),
    Permission(19, "cobros_destroy"), Permission(20, "cobros_show"),
    Permission(21, "ecuestre_index"), Permission(22, "ecuestre_new"), Permission(23, "ecuestre_update"),
    Permission(24, "ecuestre_destroy"), Permission(25, "ecuestre_show")]

  /** The seeded role-permission table. */
  const SeedLinks := [
    RolePermission(4, 1), RolePermission(4, 2), RolePermission(4, 3), RolePermission(4, 4), RolePermission(4, 5),
    RolePermission(4, 6), RolePermission(4, 7), RolePermission(4, 8), RolePermission(4, 9), RolePermission(4, 10),
    RolePermission(1, 11), RolePermission(1, 12), RolePermission(1, 13), RolePermission(1, 14), RolePermission(1, 15),
    RolePermission(4, 11), RolePermission(4, 12), RolePermission(4, 13), RolePermission(4, 14), RolePermission(4, 15),
    RolePermission(2, 11), RolePermission(2, 15),
    RolePermission(4, 16), RolePermission(4, 17), RolePermission(4, 18), RolePermission(4, 19), RolePermission(4, 20),
    RolePermission(1, 16), RolePermission(1, 20),
    RolePermission(2, 21), RolePermission(2, 22), RolePermission(2, 23), RolePermission(2, 24), RolePermission(2, 25),
    RolePermission(4, 21), RolePermission(4, 25),
    RolePermission(1, 21), RolePermission(1, 25)]

  const SeedDb := AuthDb(SeedRoles, SeedPermissions, SeedLinks)

  /** In the seeded tables the volunteer role is granted nothing. */
  lemma SeedVolunteerHasNothing()
    ensures PermissionsOfRole(SeedDb, Some(3)) == []
  {
    NoLinksNoPermissions(SeedDb, Some(3));
  }

  /** In the seeded tables an equestrian user may show riders. */
  lemma SeedEquestrianShowsRiders(users: Users.Store, userId: int)
    requires userId in users && userId != 0
    requires !users[userId].systemAdmin && users[userId].enabled && users[userId].roleId == Some(2)
    ensures HasPermissions(users, SeedDb, userId, ["jya_new", "jya_show"])
  {
    var p := Permission(15, "jya_show");
    assert SeedPermissions[14] == p;
    assert SeedLinks[21] == RolePermission(2, 15);
    JoinGrants(users, SeedDb, userId, ["jya_new", "jya_show"], p);
  }

  /** In the seeded tables an equestrian user may neither create nor delete riders. */
  lemma SeedEquestrianCannotEditRiders(users: Users.Store, userId: int)
    requires userId in users && userId != 0
    requires !users[userId].systemAdmin && users[userId].enabled && users[userId].roleId == Some(2)
    ensures !HasPermissions(users, SeedDb, userId, ["jya_new", "jya_destroy"])
  {
    SeedRiderEditIds();
    SeedEquestrianLinks();
    JoinDenies(users, SeedDb, userId, ["jya_new", "jya_destroy"]);
  }

  lemma SeedEquestrianLinks()
    ensures RolePermission(2, 12) !in SeedLinks && RolePermission(2, 14) !in SeedLinks
  {
    forall i | 0 <= i < |SeedLinks| ensures SeedLinks[i].roleId != 2 || SeedLinks[i].permissionId !in {12, 14} {
    }
  }

  lemma SeedRiderEditIds()
    ensures forall p :: p in SeedPermissions && p.name in ["jya_new", "jya_destroy"] ==> p.id == 12 || p.id == 14
  {
    forall i | 0 <= i < |SeedPermissions|
      ensures SeedPermissions[i].name in ["jya_new", "jya_destroy"] ==> SeedPermissions[i].id in {12, 14}
    {
    }
  }
}
