/** What a successful access call leaves behind, and when it succeeds. */
module RoleEffects {
  import opened Collections
  import opened Tables
  import opened Access

  lemma OneRowPerRole(g: Grants, user: int, project: string)
    ensures var rows := set r | r in g.roleUser && r.user == user && r.project == project && IsProjectRole(g, r.role);
            |rows| == |ProjectRolesOf(g, user, project)|
  {
    var rows := set r | r in g.roleUser && r.user == user && r.project == project && IsProjectRole(g, r.role);
    OneToOne(rows, ProjectRolesOf(g, user, project), (r: RoleUser) => r.role, k => RoleUser(user, k, project));
  }

  /** Changing a role succeeds exactly when it is no change, or the user is not the last owner, has no second
      project role, and the new role exists and is not held yet. */
  lemma ChangeRoleSucceedsIff(g: Grants, project: string, role: int, user: int, current: int, groupRoles: map<int, int>)
    requires current in ProjectRolesOf(g, user, project)
    ensures ChangeRole(g, project, role, user, Some(current), groupRoles).outcome == Done <==>
            || role == current
            || (&& !LastOwner(g, project, current, groupRoles) && ProjectRolesOf(g, user, project) == {current}
                && role in g.roles && RoleUser(user, role, project) !in g.roleUser)
  {
    var roles := ProjectRolesOf(g, user, project);
    OneRowPerRole(g, user, project);
    if |roles| <= 1 {
      OnlyOne(roles, current);
      assert role != current ==> role !in roles;
    } else {
      assert |{current}| == 1;
    }
  }

  /** The new row replaces the user's project roles in the project, and no other row changes. */
  lemma ChangeRoleIsExact(g: Grants, project: string, role: int, user: int, current: int, groupRoles: map<int, int>)
    requires current in ProjectRolesOf(g, user, project)
    requires ChangeRole(g, project, role, user, Some(current), groupRoles).outcome == Done
    ensures var g' := ChangeRole(g, project, role, user, Some(current), groupRoles).grants;
            && g' == g.(roleUser := g'.roleUser)
            && RoleUser(user, role, project) in g'.roleUser
            && (role != current && IsProjectRole(g, role) ==> ProjectRolesOf(g', user, project) == {role})
            && (forall r: RoleUser | r != RoleUser(user, role, project) ::
                  r in g'.roleUser <==>
                  && r in g.roleUser
                  && (role == current || r.user != user || r.project != project || !IsProjectRole(g, r.role)))
  {
    if role != current {
      var rows := set r | r in g.roleUser && r.user == user && r.project == project && IsProjectRole(g, r.role);
      assert RoleUser(user, current, project) in rows;
    }
  }

  /** The roles of type project or custom a group has in a project. */
  function GroupRolesOf(g: Grants, group: int, project: string): set<int> {
    set r | r in g.groupRole && r.group == group && r.project == project && IsProjectRole(g, r.role) :: r.role
  }

  lemma OneRowPerGroupRole(g: Grants, group: int, project: string)
    ensures var rows := set r | r in g.groupRole && r.group == group && r.project == project && IsProjectRole(g, r.role);
            |rows| == |GroupRolesOf(g, group, project)|
  {
    var rows := set r | r in g.groupRole && r.group == group && r.project == project && IsProjectRole(g, r.role);
    OneToOne(rows, GroupRolesOf(g, group, project), (r: GroupRole) => r.role, k => GroupRole(group, k, project));
  }

  /** The same condition for a group, with the role the listing reports for it. */
  lemma ChangeGroupRoleSucceedsIff(g: Grants, project: string, role: int, group: int, groupRoles: map<int, int>)
    requires Reported(g, project, groupRoles) && group in groupRoles && IsProjectRole(g, groupRoles[group])
    ensures ChangeGroupRole(g, project, role, group, groupRoles).outcome == Done <==>
            || role == groupRoles[group]
            || (&& !LastOwner(g, project, groupRoles[group], groupRoles)
                && GroupRolesOf(g, group, project) == {groupRoles[group]}
                && role in g.roles && GroupRole(group, role, project) !in g.groupRole)
  {
    var roles := GroupRolesOf(g, group, project);
    OneRowPerGroupRole(g, group, project);
    if |roles| <= 1 {
      OnlyOne(roles, groupRoles[group]);
      assert role != groupRoles[group] ==> role !in roles;
    } else {
      assert |{groupRoles[group]}| == 1;
    }
  }

  /** The new row replaces the group's project roles in the project, and no other row changes. */
  lemma ChangeGroupRoleIsExact(g: Grants, project: string, role: int, group: int, groupRoles: map<int, int>)
    requires Reported(g, project, groupRoles) && group in groupRoles && IsProjectRole(g, groupRoles[group])
    requires ChangeGroupRole(g, project, role, group, groupRoles).outcome == Done
    ensures var g' := ChangeGroupRole(g, project, role, group, groupRoles).grants;
            && g' == g.(groupRole := g'.groupRole)
            && GroupRole(group, role, project) in g'.groupRole
            && (role != groupRoles[group] && IsProjectRole(g, role) ==> GroupRolesOf(g', group, project) == {role})
            && (forall r: GroupRole | r != GroupRole(group, role, project) ::
                  r in g'.groupRole <==>
                  && r in g.groupRole
                  && (role == groupRoles[group] || r.group != group || r.project != project || !IsProjectRole(g, r.role)))
  {
    if role != groupRoles[group] {
      var rows := set r | r in g.groupRole && r.group == group && r.project == project && IsProjectRole(g, r.role);
      assert GroupRole(group, groupRoles[group], project) in rows;
    }
  }

  /** Removing a user right after adding it restores the grants, unless the user is the only owner. */
  lemma AddRemoveUser(g: Grants, project: string, role: int, user: int, groupRoles: map<int, int>)
    requires AddUser(g, project, role, user).outcome == Done
    ensures var added := AddUser(g, project, role, user).grants;
            RemoveUser(added, project, role, user, groupRoles) ==
            if LastOwner(added, project, role, groupRoles) then Change(added, Failed(ProjectWithoutOwner))
            else Change(g, Done)
  {
    var row := RoleUser(user, role, project);
    assert row !in g.roleUser by {
      assert role !in ProjectRolesOf(g, user, project);
    }
  }

  /** After setting a root role it is the user's only one, and no other row changes. */
  lemma SetUserRootRoleIsExact(g: Grants, user: int, role: int)
    requires SetUserRootRole(g, user, role).outcome == Done
    ensures var g' := SetUserRootRole(g, user, role).grants;
            && (forall r: RoleUser | r.user == user && r.role in g.roles && g.roles[r.role].kind.RootRole? ::
                  r in g'.roleUser <==> r == RoleUser(user, role, DEFAULT_PROJECT))
            && (forall r: RoleUser | r.user != user || r.role !in g.roles || !g.roles[r.role].kind.RootRole? ::
                  r in g'.roleUser <==> r in g.roleUser)
  {
  }

  /** No two elements, counting both sets. */
  ghost predicate AtMostOneOf<T(!new)>(a: set<T>, b: set<T>) {
    && (forall x, y | x in a && y in a :: x == y)
    && (forall x, y | x in b && y in b :: x == y)
    && (forall x, y | x in a && y in b :: false)
  }

  /** The owner check refuses exactly when the role is the owner role and among the users that have it and the
      groups that report it there are no two. */
  lemma LastOwnerIff(g: Grants, project: string, role: int, groupRoles: map<int, int>)
    requires role in g.roles
    ensures LastOwner(g, project, role, groupRoles) <==>
            && g.roles[role].name == "Owner"
            && AtMostOneOf(set r | r in g.roleUser && r.role == role && r.project == project :: r.user,
                           set k | k in groupRoles && groupRoles[k] == role)
  {
    var users := set r | r in g.roleUser && r.role == role && r.project == project :: r.user;
    FewerThanTwoIff(users, set k | k in groupRoles && groupRoles[k] == role);
    assert users == UsersWithRole(g, role, project);
  }

  lemma FewerThanTwoIff<T(!new)>(a: set<T>, b: set<T>)
    ensures |a| + |b| < 2 <==> AtMostOneOf(a, b)
  {
    MoreThanOneIff(a);
    MoreThanOneIff(b);
    NoneIff(a);
    NoneIff(b);
  }

  lemma NoneIff<T(!new)>(s: set<T>)
    ensures |s| == 0 <==> forall x :: x !in s
  {
    if forall x :: x !in s {
      assert s == {};
    }
  }

  /** A call that fails leaves the grants as they were. */
  ghost predicate Refused(g: Grants, r: Change, error: Error) {
    r == Change(g, Failed(error))
  }

  /** A user without a role in the project gets exactly one row. */
  lemma AddUserIsExact(g: Grants, project: string, role: int, user: int)
    ensures var r := AddUser(g, project, role, user);
            if user !in g.users || role !in g.roles || g.roles[role].kind == RootRole then Refused(g, r, NotFound)
            else if exists k :: RoleUser(user, k, project) in g.roleUser && k in g.roles && g.roles[k].kind != RootRole
            then Refused(g, r, InvalidOperation)
            else r == Change(g.(roleUser := g.roleUser + {RoleUser(user, role, project)}), Done)
  {
    if k :| RoleUser(user, k, project) in g.roleUser && k in g.roles && g.roles[k].kind != RootRole {
      assert k in ProjectRolesOf(g, user, project);
    } else {
      NoneIff(ProjectRolesOf(g, user, project));
    }
  }

  /** Refused when no user of the project has the role, or the check finds no second owner; otherwise the row goes,
      also when the user itself is then not found. */
  lemma RemoveUserIsExact(g: Grants, project: string, role: int, user: int, groupRoles: map<int, int>)
    ensures var r := RemoveUser(g, project, role, user, groupRoles);
            if role !in g.roles || forall u :: RoleUser(u, role, project) !in g.roleUser then Refused(g, r, NotFound)
            else if LastOwner(g, project, role, groupRoles) then Refused(g, r, ProjectWithoutOwner)
            else r == Change(g.(roleUser := g.roleUser - {RoleUser(user, role, project)}),
                             if user in g.users then Done else Failed(NotFound))
  {
    NoneIff(UsersWithRole(g, role, project));
    if u :| RoleUser(u, role, project) in g.roleUser {
      assert u in UsersWithRole(g, role, project);
    }
  }

  lemma AddGroupIsExact(g: Grants, project: string, role: int, group: int)
    ensures var r, row := AddGroup(g, project, role, group), GroupRole(group, role, project);
            if role !in g.roles || group !in g.groups || project !in g.projects then Refused(g, r, NotFound)
            else if row in g.groupRole then Refused(g, r, UniqueViolation)
            else r == Change(g.(groupRole := g.groupRole + {row}), Done)
    ensures var r, row := RemoveGroup(g, project, role, group), GroupRole(group, role, project);
            if role !in g.roles || group !in g.groups || project !in g.projects then Refused(g, r, NotFound)
            else r == Change(g.(groupRole := g.groupRole - {row}), Done)
  {
  }

  /** A bulk grant adds exactly one row for each listed user and group, or fails on a missing one and adds none. */
  lemma AddAccessIsExact(g: Grants, project: string, role: int, users: set<int>, groups: set<int>)
    ensures var r := AddAccess(g, project, role, users, groups);
            && (r.outcome == Done <==>
                  || (users == {} && groups == {})
                  || (role in g.roles && users <= g.users && groups <= g.groups && (groups == {} || project in g.projects)))
            && (r.outcome != Done ==> Refused(g, r, ForeignKeyViolation))
            && (r.outcome == Done ==>
                  && r.grants == g.(roleUser := r.grants.roleUser, groupRole := r.grants.groupRole)
                  && (forall x :: x in r.grants.roleUser <==>
                                  x in g.roleUser || (x.user in users && x.role == role && x.project == project))
                  && (forall x :: x in r.grants.groupRole <==>
                                  x in g.groupRole || (x.group in groups && x.role == role && x.project == project)))
  {
  }

  /** Only a root role can be set, for an existing user; the user's root roles are gone in any case but the first. */
  lemma SetUserRootRoleSucceedsIff(g: Grants, user: int, role: int)
    ensures var r := SetUserRootRole(g, user, role);
            if role !in g.roles || g.roles[role].kind != RootRole then Refused(g, r, BadData)
            else if user in g.users then r.outcome == Done
            else
              && r.outcome == Failed(InvalidOperation)
              && r.grants == g.(roleUser := r.grants.roleUser)
              && (forall x :: x in r.grants.roleUser <==>
                              x in g.roleUser && !(x.user == user && x.role in g.roles && g.roles[x.role].kind == RootRole))
  {
  }

  /** The creator of a project gets exactly one row, the owner's. */
  lemma CreateDefaultProjectRolesIsExact(g: Grants, user: int, project: string, ownerRole: Option<int>)
    ensures var r := CreateDefaultProjectRoles(g, user, project, ownerRole);
            if user == 0 then r == Change(g, Done)
            else if ownerRole == None then Refused(g, r, TypeError)
            else if RoleUser(user, ownerRole.value, project) in g.roleUser then Refused(g, r, UniqueViolation)
            else if user !in g.users || ownerRole.value !in g.roles then Refused(g, r, ForeignKeyViolation)
            else r == Change(g.(roleUser := g.roleUser + {RoleUser(user, ownerRole.value, project)}), Done)
  {
  }
}
