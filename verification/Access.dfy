/** Role and group tables, and what the access calls of the project service do to them. */
module Access {
  import opened Tables

  datatype RoleType = RootRole | ProjectRole | CustomRole
  datatype Role = Role(name: string, kind: RoleType)

  datatype RoleUser = RoleUser(user: int, role: int, project: string)
  datatype GroupRole = GroupRole(group: int, role: int, project: string)
  datatype GroupUser = GroupUser(group: int, user: int)

  datatype PermissionType = RootPermission | ProjectPermission | EnvironmentPermission
  datatype Permission = Permission(name: string, kind: PermissionType)
  datatype RolePermission = RolePermission(role: int, permission: int, environment: Option<string>)

  /** The tables; role_user and group_role have all their columns as primary key. */
  datatype Grants = Grants(
    roles: map<int, Role>,
    users: set<int>,
    groups: set<int>,
    projects: set<string>,
    roleUser: set<RoleUser>,
    groupRole: set<GroupRole>,
    groupUser: set<GroupUser>,
    permissions: map<int, Permission>,
    rolePermissions: set<RolePermission>)

  datatype Change = Change(grants: Grants, outcome: Outcome)

  const OWNER := "Owner"

  ghost predicate Integrity(g: Grants) {
    && (forall r <- g.roleUser :: r.role in g.roles && r.user in g.users)
    && (forall r <- g.groupRole :: r.role in g.roles && r.group in g.groups && r.project in g.projects)
    && (forall r <- g.groupUser :: r.group in g.groups && r.user in g.users)
    && (forall r <- g.rolePermissions :: r.role in g.roles && r.permission in g.permissions)
  }

  // ---------- Reads ----------

  /** The roles of type project or custom. */
  predicate IsProjectRole(g: Grants, role: int) {
    role in g.roles && !g.roles[role].kind.RootRole?
  }

  function UsersWithRole(g: Grants, role: int, project: string): (r: set<int>)
    ensures forall u :: u in r <==> RoleUser(u, role, project) in g.roleUser
  {
    set r | r in g.roleUser && r.role == role && r.project == project :: r.user
  }

  function ProjectRolesOf(g: Grants, user: int, project: string): set<int> {
    set r | r in g.roleUser && r.user == user && r.project == project && IsProjectRole(g, r.role) :: r.role
  }

  function ProjectGroups(g: Grants, project: string): set<int> {
    set r | r in g.groupRole && r.project == project :: r.group
  }

  /** What getProjectGroups reports: every group with a role in the project, with one of its roles. */
  predicate Reported(g: Grants, project: string, groupRoles: map<int, int>) {
    && groupRoles.Keys == ProjectGroups(g, project)
    && forall k <- groupRoles :: GroupRole(k, groupRoles[k], project) in g.groupRole
  }

  /** The owner check of the service: fewer than two users and groups with this owner role. */
  predicate LastOwner(g: Grants, project: string, role: int, groupRoles: map<int, int>)
    requires role in g.roles
  {
    && g.roles[role].name == OWNER
    && |UsersWithRole(g, role, project)| + |set k | k in groupRoles && groupRoles[k] == role| < 2
  }

  // ---------- Calls ----------

  function AddUser(g: Grants, project: string, role: int, user: int): Change {
    if user !in g.users || !IsProjectRole(g, role) then
      Change(g, Failed(NotFound))
    else if ProjectRolesOf(g, user, project) != {} then
      Change(g, Failed(InvalidOperation))
    else
      Change(g.(roleUser := g.roleUser + {RoleUser(user, role, project)}), Done)
  }

  /** The user is looked up only after the row is gone. */
  function RemoveUser(g: Grants, project: string, role: int, user: int, groupRoles: map<int, int>): Change {
    if UsersWithRole(g, role, project) == {} || role !in g.roles then
      Change(g, Failed(NotFound))
    else if LastOwner(g, project, role, groupRoles) then
      Change(g, Failed(ProjectWithoutOwner))
    else
      Change(g.(roleUser := g.roleUser - {RoleUser(user, role, project)}),
             if user in g.users then Done else Failed(NotFound))
  }

  /** UPDATE role_user: all the user's rows of the project with a role that is not a root role get the
      new role; two rows that become equal violate the key. */
  function UpdateUserProjectRole(g: Grants, user: int, role: int, project: string): Change {
    var rows := set r | r in g.roleUser && r.user == user && r.project == project && IsProjectRole(g, r.role);
    var updated := RoleUser(user, role, project);
    if rows == {} then
      Change(g, Done)
    else if |rows| > 1 || updated in g.roleUser - rows then
      Change(g, Failed(UniqueViolation))
    else if role !in g.roles then
      Change(g, Failed(ForeignKeyViolation))
    else
      Change(g.(roleUser := g.roleUser - rows + {updated}), Done)
  }

  function UpdateGroupProjectRole(g: Grants, group: int, role: int, project: string): Change {
    var rows := set r | r in g.groupRole && r.group == group && r.project == project && IsProjectRole(g, r.role);
    var updated := GroupRole(group, role, project);
    if rows == {} then
      Change(g, Done)
    else if |rows| > 1 || updated in g.groupRole - rows then
      Change(g, Failed(UniqueViolation))
    else if role !in g.roles then
      Change(g, Failed(ForeignKeyViolation))
    else
      Change(g.(groupRole := g.groupRole - rows + {updated}), Done)
  }

  /** `current` is the user's project role that the listing shows first, if there is one. */
  function ChangeRole(g: Grants, project: string, role: int, user: int, current: Option<int>,
                      groupRoles: map<int, int>): Change {
    if current == None || current.value !in g.roles then
      Change(g, Failed(TypeError))
    else if current.value == role then
      Change(g, Done)
    else if LastOwner(g, project, current.value, groupRoles) then
      Change(g, Failed(ProjectWithoutOwner))
    else
      UpdateUserProjectRole(g, user, role, project)
  }

  function ChangeGroupRole(g: Grants, project: string, role: int, group: int, groupRoles: map<int, int>): Change {
    if group !in groupRoles || !IsProjectRole(g, groupRoles[group]) then
      Change(g, Failed(TypeError))
    else if groupRoles[group] == role then
      Change(g, Done)
    else if LastOwner(g, project, groupRoles[group], groupRoles) then
      Change(g, Failed(ProjectWithoutOwner))
    else
      UpdateGroupProjectRole(g, group, role, project)
  }

  function AddGroup(g: Grants, project: string, role: int, group: int): Change {
    var row := GroupRole(group, role, project);
    if role !in g.roles || group !in g.groups || project !in g.projects then
      Change(g, Failed(NotFound))
    else if row in g.groupRole then
      Change(g, Failed(UniqueViolation))
    else
      Change(g.(groupRole := g.groupRole + {row}), Done)
  }

  /** No owner check. */
  function RemoveGroup(g: Grants, project: string, role: int, group: int): Change {
    if role !in g.roles || group !in g.groups || project !in g.projects then
      Change(g, Failed(NotFound))
    else
      Change(g.(groupRole := g.groupRole - {GroupRole(group, role, project)}), Done)
  }

  /** One transaction of inserts that ignore rows already there. */
  function AddAccess(g: Grants, project: string, role: int, users: set<int>, groups: set<int>): Change {
    if users + groups == {} then
      Change(g, Done)
    else if role !in g.roles || !(users <= g.users) || !(groups <= g.groups) || (groups != {} && project !in g.projects) then
      Change(g, Failed(ForeignKeyViolation))
    else
      Change(g.(roleUser := g.roleUser + (set u | u in users :: RoleUser(u, role, project)),
                groupRole := g.groupRole + (set k | k in groups :: GroupRole(k, role, project))), Done)
  }

  function SetUserRootRole(g: Grants, user: int, role: int): Change {
    if role !in g.roles || !g.roles[role].kind.RootRole? then
      Change(g, Failed(BadData))
    else
      var removed := set r | r in g.roleUser && r.user == user && r.role in g.roles && g.roles[r.role].kind.RootRole?;
      var g1 := g.(roleUser := g.roleUser - removed);
      if user !in g.users then
        Change(g1, Failed(InvalidOperation))
      else
        Change(g1.(roleUser := g1.roleUser + {RoleUser(user, role, DEFAULT_PROJECT)}), Done)
  }

  /** Makes the creator of a project its owner; a creator without an id gets no role. */
  function CreateDefaultProjectRoles(g: Grants, user: int, project: string, ownerRole: Option<int>): Change {
    if user == 0 then
      Change(g, Done)
    else if ownerRole == None then
      Change(g, Failed(TypeError))
    else
      var row := RoleUser(user, ownerRole.value, project);
      if row in g.roleUser then Change(g, Failed(UniqueViolation))
      else if user !in g.users || ownerRole.value !in g.roles then Change(g, Failed(ForeignKeyViolation))
      else Change(g.(roleUser := g.roleUser + {row}), Done)
  }
}
