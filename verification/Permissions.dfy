/** Permission resolution through direct roles and groups. */
module Permissions {
  import opened Tables
  import opened Access

  const ADMIN := "ADMIN"
  const ALL := "*"

  /** A row of the union of the direct and the group query. */
  datatype PermissionRow = PermissionRow(
    project: string,
    permission: string,
    environment: Option<string>,
    kind: PermissionType,
    role: int)

  datatype UserPermission = UserPermission(project: Option<string>, environment: Option<string>, permission: string)

  /** Root permissions lose their project, and all but environment permissions their environment. */
  function MapUserPermission(row: PermissionRow): UserPermission {
    UserPermission(
      if row.kind.RootPermission? then None else Some(row.project),
      if row.kind.EnvironmentPermission? then row.environment else None,
      row.permission)
  }

  function MapRows(rows: seq<PermissionRow>): (r: seq<UserPermission>)
    ensures |r| == |rows| && forall i | 0 <= i < |rows| :: r[i] == MapUserPermission(rows[i])
  {
    seq(|rows|, i requires 0 <= i < |rows| => MapUserPermission(rows[i]))
  }

  /** The scope of a permission is empty, the wildcard, or the one asked about. */
  predicate Covers(scope: Option<string>, asked: Option<string>) {
    scope == None || scope == Some("") || scope == asked || scope == Some(ALL)
  }

  function Filter(ps: seq<UserPermission>, keep: UserPermission -> bool): (r: seq<UserPermission>)
    ensures forall p :: p in r <==> p in ps && keep(p)
  {
    if ps == [] then [] else (if keep(ps[0]) then [ps[0]] else []) + Filter(ps[1..], keep)
  }

  predicate AnyOf(ps: seq<UserPermission>, holds: UserPermission -> bool) {
    exists p :: p in ps && holds(p)
  }

  /** The filter chain; an API user brings its own permissions, and without any the lookup throws, which
      is caught as a refusal. */
  function HasPermission(ps: Option<seq<UserPermission>>, permission: string, project: Option<string>,
                         environment: Option<string>): bool {
    match ps
    case None => false
    case Some(userP) =>
      var inProject := Filter(userP, (p: UserPermission) => Covers(p.project, project));
      var inEnvironment := Filter(inProject, (p: UserPermission) => Covers(p.environment, environment));
      AnyOf(inEnvironment, (p: UserPermission) => p.permission == permission || p.permission == ADMIN)
  }

  // ---------- The query ----------

  ghost predicate DirectRow(g: Grants, user: int, row: PermissionRow) {
    exists ru, rp ::
      && ru in g.roleUser && ru.user == user
      && rp in g.rolePermissions && rp.role == ru.role
      && IsRow(g, ru.project, rp, row)
  }

  ghost predicate GroupRow(g: Grants, user: int, row: PermissionRow) {
    exists gu, gr, rp ::
      && gu in g.groupUser && gu.user == user
      && gr in g.groupRole && gr.group == gu.group
      && rp in g.rolePermissions && rp.role == gr.role
      && IsRow(g, gr.project, rp, row)
  }

  ghost predicate IsRow(g: Grants, project: string, rp: RolePermission, row: PermissionRow) {
    && rp.permission in g.permissions
    && row == PermissionRow(project, g.permissions[rp.permission].name, rp.environment,
                            g.permissions[rp.permission].kind, rp.role)
  }

  /** The rows the store reads for a user, in any order. */
  ghost predicate IsQuery(g: Grants, user: int, rows: seq<PermissionRow>) {
    forall row :: row in rows <==> DirectRow(g, user, row) || GroupRow(g, user, row)
  }

  // ---------- The relation ----------

  /** The user has the role in the project, directly or through a group. */
  ghost predicate Holds(g: Grants, user: int, role: int, project: string) {
    || RoleUser(user, role, project) in g.roleUser
    || (exists k :: GroupUser(k, user) in g.groupUser && GroupRole(k, role, project) in g.groupRole)
  }

  /** No scope, the wildcard, or exactly the one asked about. */
  predicate InScope(scope: Option<string>, asked: Option<string>) {
    scope in {None, Some(""), Some("*"), asked}
  }

  /** The role carries the permission, or ADMIN, in a scope that covers what is asked: a root permission
      everywhere, a project permission in the project held, an environment permission in its own
      environment too. */
  ghost predicate Carries(g: Grants, role: int, held: string, permission: string, project: Option<string>,
                          environment: Option<string>) {
    exists rp ::
      && rp in g.rolePermissions && rp.role == role && rp.permission in g.permissions
      && (g.permissions[rp.permission].name == permission || g.permissions[rp.permission].name == ADMIN)
      && (match g.permissions[rp.permission].kind
          case RootPermission => true
          case ProjectPermission => InScope(Some(held), project)
          case EnvironmentPermission => InScope(Some(held), project) && InScope(rp.environment, environment))
  }

  ghost predicate Allowed(g: Grants, user: int, permission: string, project: Option<string>, environment: Option<string>) {
    exists role, held :: Holds(g, user, role, held) && Carries(g, role, held, permission, project, environment)
  }

  lemma RowsAllow(g: Grants, user: int, row: PermissionRow, permission: string, project: Option<string>,
                  environment: Option<string>)
    requires DirectRow(g, user, row) || GroupRow(g, user, row)
    requires row.permission == permission || row.permission == ADMIN
    requires Covers(MapUserPermission(row).project, project) && Covers(MapUserPermission(row).environment, environment)
    ensures Allowed(g, user, permission, project, environment)
  {
    if DirectRow(g, user, row) {
      var ru, rp :| ru in g.roleUser && ru.user == user && rp in g.rolePermissions && rp.role == ru.role &&
                    IsRow(g, ru.project, rp, row);
      assert Carries(g, ru.role, ru.project, permission, project, environment);
    } else {
      var gu, gr, rp :| gu in g.groupUser && gu.user == user && gr in g.groupRole && gr.group == gu.group &&
                        rp in g.rolePermissions && rp.role == gr.role && IsRow(g, gr.project, rp, row);
      assert Carries(g, gr.role, gr.project, permission, project, environment);
      assert Holds(g, user, gr.role, gr.project);
    }
  }

  lemma AllowedHasRow(g: Grants, user: int, permission: string, project: Option<string>, environment: Option<string>)
    returns (row: PermissionRow)
    requires Allowed(g, user, permission, project, environment)
    ensures DirectRow(g, user, row) || GroupRow(g, user, row)
    ensures row.permission == permission || row.permission == ADMIN
    ensures Covers(MapUserPermission(row).project, project) && Covers(MapUserPermission(row).environment, environment)
  {
    var role, held :| Holds(g, user, role, held) && Carries(g, role, held, permission, project, environment);
    var rp :|
      && rp in g.rolePermissions && rp.role == role && rp.permission in g.permissions
      && (g.permissions[rp.permission].name == permission || g.permissions[rp.permission].name == ADMIN)
      && (match g.permissions[rp.permission].kind
          case RootPermission => true
          case ProjectPermission => InScope(Some(held), project)
          case EnvironmentPermission => InScope(Some(held), project) && InScope(rp.environment, environment));
    row := PermissionRow(held, g.permissions[rp.permission].name, rp.environment, g.permissions[rp.permission].kind, role);
  }

  /** The filter chain over the query is the simple relation. */
  lemma HasPermissionIffAllowed(g: Grants, user: int, rows: seq<PermissionRow>, permission: string,
                                project: Option<string>, environment: Option<string>)
    requires IsQuery(g, user, rows)
    ensures HasPermission(Some(MapRows(rows)), permission, project, environment) <==>
            Allowed(g, user, permission, project, environment)
  {
    var ps := MapRows(rows);
    if HasPermission(Some(ps), permission, project, environment) {
      var p :| p in ps && Covers(p.project, project) && Covers(p.environment, environment) &&
               (p.permission == permission || p.permission == ADMIN);
      var i :| 0 <= i < |ps| && ps[i] == p;
      RowsAllow(g, user, rows[i], permission, project, environment);
    }
    if Allowed(g, user, permission, project, environment) {
      var row := AllowedHasRow(g, user, permission, project, environment);
      var i :| 0 <= i < |rows| && rows[i] == row;
      assert ps[i] in ps;
    }
  }

  /** More roles, group memberships, group roles or role permissions never take a permission away. */
  lemma AllowedIsMonotone(g: Grants, g': Grants, user: int, permission: string, project: Option<string>,
                          environment: Option<string>)
    requires g.roleUser <= g'.roleUser && g.groupRole <= g'.groupRole && g.groupUser <= g'.groupUser
    requires g.rolePermissions <= g'.rolePermissions && g.permissions == g'.permissions
    requires Allowed(g, user, permission, project, environment)
    ensures Allowed(g', user, permission, project, environment)
  {
    var role, held :| Holds(g, user, role, held) && Carries(g, role, held, permission, project, environment);
    assert Holds(g', user, role, held) && Carries(g', role, held, permission, project, environment);
  }

  /** Adding users or groups to a project, one by one or in bulk, never takes a permission from anyone, whether the
      call succeeds or fails. */
  lemma AddingNeverRevokes(g: Grants, project: string, role: int, added: int, users: set<int>, groups: set<int>,
                           user: int, permission: string, asked: Option<string>, environment: Option<string>)
    requires Allowed(g, user, permission, asked, environment)
    ensures Allowed(AddUser(g, project, role, added).grants, user, permission, asked, environment)
    ensures Allowed(AddGroup(g, project, role, added).grants, user, permission, asked, environment)
    ensures Allowed(AddAccess(g, project, role, users, groups).grants, user, permission, asked, environment)
  {
    AllowedIsMonotone(g, AddUser(g, project, role, added).grants, user, permission, asked, environment);
    AllowedIsMonotone(g, AddGroup(g, project, role, added).grants, user, permission, asked, environment);
    AllowedIsMonotone(g, AddAccess(g, project, role, users, groups).grants, user, permission, asked, environment);
  }

  /** After a successful bulk grant every listed user, and every member of a listed group, may do in the project
      whatever the role carries there. */
  lemma AddedAreAllowed(g: Grants, project: string, role: int, users: set<int>, groups: set<int>, user: int,
                        permission: string, asked: Option<string>, environment: Option<string>)
    requires AddAccess(g, project, role, users, groups).outcome == Done
    requires user in users || exists k :: k in groups && GroupUser(k, user) in g.groupUser
    requires Carries(g, role, project, permission, asked, environment)
    ensures Allowed(AddAccess(g, project, role, users, groups).grants, user, permission, asked, environment)
  {
    var g' := AddAccess(g, project, role, users, groups).grants;
    if user !in users {
      var k :| k in groups && GroupUser(k, user) in g.groupUser;
      assert GroupRole(k, role, project) in g'.groupRole;
    }
    assert Holds(g', user, role, project);
    assert Carries(g', role, project, permission, asked, environment);
  }

  /** A user added to a project, and a member of an added group, may do there whatever the role carries. */
  lemma AddedOneByOneAreAllowed(g: Grants, project: string, role: int, added: int, user: int,
                                permission: string, asked: Option<string>, environment: Option<string>)
    requires Carries(g, role, project, permission, asked, environment)
    ensures AddUser(g, project, role, user).outcome == Done ==>
              Allowed(AddUser(g, project, role, user).grants, user, permission, asked, environment)
    ensures AddGroup(g, project, role, added).outcome == Done && GroupUser(added, user) in g.groupUser ==>
              Allowed(AddGroup(g, project, role, added).grants, user, permission, asked, environment)
  {
    var g1, g2 := AddUser(g, project, role, user), AddGroup(g, project, role, added);
    assert Carries(g1.grants, role, project, permission, asked, environment);
    assert Carries(g2.grants, role, project, permission, asked, environment);
    assert g1.outcome == Done ==> Holds(g1.grants, user, role, project);
    assert g2.outcome == Done && GroupUser(added, user) in g.groupUser ==> Holds(g2.grants, user, role, project);
  }

  /** Without any permissions to look at, nothing is permitted. */
  lemma NothingWithoutPermissions(permission: string, project: Option<string>, environment: Option<string>)
    ensures !HasPermission(None, permission, project, environment)
    ensures !HasPermission(Some([]), permission, project, environment)
  {
  }

  /** An API user is judged by its own list alone, in every project and environment. */
  lemma ApiUserPermission(own: seq<string>, permission: string, project: Option<string>, environment: Option<string>)
    ensures HasPermission(Some(seq(|own|, i requires 0 <= i < |own| => UserPermission(None, None, own[i]))),
                          permission, project, environment) <==>
            permission in own || ADMIN in own
  {
    var ps := seq(|own|, i requires 0 <= i < |own| => UserPermission(None, None, own[i]));
    forall name
      ensures name in own <==> UserPermission(None, None, name) in ps
    {
      if name in own {
        var i :| 0 <= i < |own| && own[i] == name;
        assert ps[i] == UserPermission(None, None, name);
      }
    }
  }
}
