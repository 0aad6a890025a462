/** The access calls, statement by statement. */
module AccessServices {
  import opened Tables
  import opened Access
  import Owners

  class AccessDatabase {
    var roles: map<int, Role>
    var users: set<int>
    var groups: set<int>
    var projects: set<string>
    var roleUser: set<RoleUser>
    var groupRole: set<GroupRole>
    var groupUser: set<GroupUser>
    var permissions: map<int, Permission>
    var rolePermissions: set<RolePermission>

    constructor ()
      ensures State() == Grants(map[], {}, {}, {}, {}, {}, {}, map[], {})
    {
      roles, users, groups, projects, roleUser, groupRole := map[], {}, {}, {}, {}, {};
      groupUser, permissions, rolePermissions := {}, map[], {};
    }

    function State(): Grants
      reads this
    {
      Grants(roles, users, groups, projects, roleUser, groupRole, groupUser, permissions, rolePermissions)
    }

    method UpdateUserProjectRole(user: int, role: int, project: string) returns (o: Outcome)
      modifies this`roleUser
      ensures Change(State(), o) == Access.UpdateUserProjectRole(old(State()), user, role, project)
    {
      var rows := set r | r in roleUser && r.user == user && r.project == project && IsProjectRole(State(), r.role);
      if rows == {} {
        return Done;
      }
      if |rows| > 1 || RoleUser(user, role, project) in roleUser - rows {
        return Failed(UniqueViolation);
      }
      if role !in roles {
        return Failed(ForeignKeyViolation);
      }
      roleUser := roleUser - rows + {RoleUser(user, role, project)};
      return Done;
    }

    method UpdateGroupProjectRole(group: int, role: int, project: string) returns (o: Outcome)
      modifies this`groupRole
      ensures Change(State(), o) == Access.UpdateGroupProjectRole(old(State()), group, role, project)
    {
      var rows := set r | r in groupRole && r.group == group && r.project == project && IsProjectRole(State(), r.role);
      if rows == {} {
        return Done;
      }
      if |rows| > 1 || GroupRole(group, role, project) in groupRole - rows {
        return Failed(UniqueViolation);
      }
      if role !in roles {
        return Failed(ForeignKeyViolation);
      }
      groupRole := groupRole - rows + {GroupRole(group, role, project)};
      return Done;
    }

    /** Every group of the project with the first of its roles that the query lists. */
    method GetProjectGroups(project: string) returns (groupRoles: map<int, int>)
      ensures Reported(State(), project, groupRoles)
    {
      groupRoles := map[];
      var pending := ProjectGroups(State(), project);
      while pending != {}
        invariant pending + groupRoles.Keys == ProjectGroups(State(), project)
        invariant forall k <- groupRoles :: GroupRole(k, groupRoles[k], project) in groupRole
        decreases pending
      {
        var k :| k in pending;
        assert exists r :: r in groupRole && r.project == project && r.group == k;
        var row :| row in groupRole && row.project == project && row.group == k;
        groupRoles := groupRoles[k := row.role];
        pending := pending - {k};
      }
    }
  }

  class ProjectAccessService {
    const db: AccessDatabase

    constructor (db: AccessDatabase)
      ensures this.db == db
    {
      this.db := db;
    }

    /** Fails for an owner role held by fewer than two users and groups. */
    method ValidateAtLeastOneOwner(project: string, role: int) returns (o: Outcome, ghost groupRoles: map<int, int>)
      requires role in db.roles
      ensures Reported(db.State(), project, groupRoles)
      ensures o == if LastOwner(db.State(), project, role, groupRoles) then Failed(ProjectWithoutOwner) else Done
    {
      var groups := db.GetProjectGroups(project);
      groupRoles := groups;
      if db.roles[role].name == OWNER {
        var users := UsersWithRole(db.State(), role, project);
        var roleGroups := set k | k in groups && groups[k] == role;
        if |users| + |roleGroups| < 2 {
          return Failed(ProjectWithoutOwner), groupRoles;
        }
      }
      o := Done;
    }

    method AddUser(project: string, role: int, user: int) returns (o: Outcome)
      modifies db
      ensures Change(db.State(), o) == Access.AddUser(old(db.State()), project, role, user)
    {
      if user !in db.users {
        return Failed(NotFound);
      }
      if !IsProjectRole(db.State(), role) {
        return Failed(NotFound);
      }
      if ProjectRolesOf(db.State(), user, project) != {} {
        return Failed(InvalidOperation);
      }
      db.roleUser := db.roleUser + {RoleUser(user, role, project)};
      return Done;
    }

    method RemoveUser(project: string, role: int, user: int) returns (o: Outcome, ghost c: Owners.Command)
      modifies db
      ensures c.CmdRemoveUser? && c.project == project && c.role == role && c.user == user
      ensures Owners.Possible(old(db.State()), c) && Change(db.State(), o) == Owners.Apply(old(db.State()), c)
    {
      ghost var groupRoles := db.GetProjectGroups(project);
      c := Owners.CmdRemoveUser(project, role, user, groupRoles);
      if UsersWithRole(db.State(), role, project) == {} || role !in db.roles {
        return Failed(NotFound), c;
      }
      o, groupRoles := ValidateAtLeastOneOwner(project, role);
      c := Owners.CmdRemoveUser(project, role, user, groupRoles);
      if o.Failed? {
        return;
      }
      db.roleUser := db.roleUser - {RoleUser(user, role, project)};
      o := if user in db.users then Done else Failed(NotFound);
    }

    method ChangeRole(project: string, role: int, user: int) returns (o: Outcome, ghost c: Owners.Command)
      modifies db
      ensures c.CmdChangeRole? && c.project == project && c.role == role && c.user == user
      ensures Owners.Possible(old(db.State()), c) && Change(db.State(), o) == Owners.Apply(old(db.State()), c)
    {
      ghost var groupRoles := db.GetProjectGroups(project);
      var held := ProjectRolesOf(db.State(), user, project);
      if held == {} {
        return Failed(TypeError), Owners.CmdChangeRole(project, role, user, None, groupRoles);
      }
      var current :| current in held;
      c := Owners.CmdChangeRole(project, role, user, Some(current), groupRoles);
      if current == role {
        return Done, c;
      }
      o, groupRoles := ValidateAtLeastOneOwner(project, current);
      c := Owners.CmdChangeRole(project, role, user, Some(current), groupRoles);
      if o == Done {
        o := db.UpdateUserProjectRole(user, role, project);
      }
    }

    method ChangeGroupRole(project: string, role: int, group: int) returns (o: Outcome, ghost c: Owners.Command)
      modifies db
      ensures c.CmdChangeGroupRole? && c.project == project && c.role == role && c.group == group
      ensures Owners.Possible(old(db.State()), c) && Change(db.State(), o) == Owners.Apply(old(db.State()), c)
    {
      var groups := db.GetProjectGroups(project);
      c := Owners.CmdChangeGroupRole(project, role, group, groups);
      if group !in groups || !IsProjectRole(db.State(), groups[group]) {
        return Failed(TypeError), c;
      }
      var current := groups[group];
      if current == role {
        return Done, c;
      }
      if db.roles[current].name == OWNER {
        var users := UsersWithRole(db.State(), current, project);
        var roleGroups := set k | k in groups && groups[k] == current;
        if |users| + |roleGroups| < 2 {
          return Failed(ProjectWithoutOwner), c;
        }
      }
      o := db.UpdateGroupProjectRole(group, role, project);
    }

    method AddGroup(project: string, role: int, group: int) returns (o: Outcome)
      modifies db
      ensures Change(db.State(), o) == Access.AddGroup(old(db.State()), project, role, group)
    {
      if role !in db.roles || group !in db.groups || project !in db.projects {
        return Failed(NotFound);
      }
      if GroupRole(group, role, project) in db.groupRole {
        return Failed(UniqueViolation);
      }
      db.groupRole := db.groupRole + {GroupRole(group, role, project)};
      return Done;
    }

    method RemoveGroup(project: string, role: int, group: int) returns (o: Outcome)
      modifies db
      ensures Change(db.State(), o) == Access.RemoveGroup(old(db.State()), project, role, group)
    {
      if role !in db.roles || group !in db.groups || project !in db.projects {
        return Failed(NotFound);
      }
      db.groupRole := db.groupRole - {GroupRole(group, role, project)};
      return Done;
    }

    /** Both inserts happen in one transaction. */
    method AddAccess(project: string, role: int, users: set<int>, groups: set<int>) returns (o: Outcome)
      modifies db
      ensures Change(db.State(), o) == Access.AddAccess(old(db.State()), project, role, users, groups)
    {
      var userRows := set u | u in users :: RoleUser(u, role, project);
      var groupRows := set k | k in groups :: GroupRole(k, role, project);
      if users + groups == {} {
        return Done;
      }
      if role !in db.roles || !(users <= db.users) || !(groups <= db.groups) || (groups != {} && project !in db.projects) {
        return Failed(ForeignKeyViolation);
      }
      db.roleUser := db.roleUser + userRows;
      db.groupRole := db.groupRole + groupRows;
      return Done;
    }

    method SetUserRootRole(user: int, role: int) returns (o: Outcome)
      modifies db
      ensures Change(db.State(), o) == Access.SetUserRootRole(old(db.State()), user, role)
    {
      if role !in db.roles || !db.roles[role].kind.RootRole? {
        return Failed(BadData);
      }
      db.roleUser := db.roleUser - set r | r in db.roleUser && r.user == user && r.role in db.roles && db.roles[r.role].kind.RootRole?;
      if user !in db.users {
        return Failed(InvalidOperation);
      }
      db.roleUser := db.roleUser + {RoleUser(user, role, DEFAULT_PROJECT)};
      return Done;
    }
  }
}
