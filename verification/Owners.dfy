/** A project that has an owner keeps one. */
module Owners {
  import opened Collections
  import opened Tables
  import opened Access

  /** A user or a group holds a role named Owner in the project. */
  ghost predicate HasOwner(g: Grants, project: string) {
    || (exists r :: r in g.roleUser && r.project == project && r.role in g.roles && g.roles[r.role].name == OWNER)
    || (exists r :: r in g.groupRole && r.project == project && r.role in g.roles && g.roles[r.role].name == OWNER)
  }

  /** The built-in owner role is not a root role. */
  ghost predicate OwnerIsProjectRole(g: Grants) {
    forall k <- g.roles :: g.roles[k].name == OWNER ==> !g.roles[k].kind.RootRole?
  }

  datatype Command =
    | CmdAddUser(project: string, role: int, user: int)
    | CmdRemoveUser(project: string, role: int, user: int, groupRoles: map<int, int>)
    | CmdChangeRole(project: string, role: int, user: int, current: Option<int>, groupRoles: map<int, int>)
    | CmdChangeGroupRole(project: string, role: int, group: int, groupRoles: map<int, int>)
    | CmdAddGroup(project: string, role: int, group: int)
    | CmdRemoveGroup(project: string, role: int, group: int)
    | CmdAddAccess(project: string, role: int, users: set<int>, groups: set<int>)
    | CmdSetUserRootRole(user: int, role: int)

  /** The role and groups a call saw are ones the listings could show. */
  ghost predicate Possible(g: Grants, c: Command) {
    match c
    case CmdRemoveUser(p, _, _, groupRoles) => Reported(g, p, groupRoles)
    case CmdChangeRole(p, _, u, current, groupRoles) =>
      && Reported(g, p, groupRoles)
      && (if current.Some? then current.value in ProjectRolesOf(g, u, p) else ProjectRolesOf(g, u, p) == {})
    case CmdChangeGroupRole(p, _, _, groupRoles) => Reported(g, p, groupRoles)
    case _ => true
  }

  function Apply(g: Grants, c: Command): Change {
    match c
    case CmdAddUser(p, r, u) => AddUser(g, p, r, u)
    case CmdRemoveUser(p, r, u, gr) => RemoveUser(g, p, r, u, gr)
    case CmdChangeRole(p, r, u, current, gr) => ChangeRole(g, p, r, u, current, gr)
    case CmdChangeGroupRole(p, r, k, gr) => ChangeGroupRole(g, p, r, k, gr)
    case CmdAddGroup(p, r, k) => AddGroup(g, p, r, k)
    case CmdRemoveGroup(p, r, k) => RemoveGroup(g, p, r, k)
    case CmdAddAccess(p, r, us, gs) => AddAccess(g, p, r, us, gs)
    case CmdSetUserRootRole(u, r) => SetUserRootRole(g, u, r)
  }

  /** A group removal that takes no owner row away or leaves the project another one. */
  ghost predicate SafeRemoval(g: Grants, project: string, role: int, group: int) {
    var row := GroupRole(group, role, project);
    || role !in g.roles || g.roles[role].name != OWNER
    || row !in g.groupRole || group !in g.groups || project !in g.projects
    || (exists r :: r in g.roleUser && r.project == project && r.role in g.roles && g.roles[r.role].name == OWNER)
    || (exists r :: r in g.groupRole && r != row && r.project == project && r.role in g.roles && g.roles[r.role].name == OWNER)
  }

  lemma AtMostOne<T(!new)>(users: set<T>, user: T)
    requires forall u <- users :: u == user
    ensures |users| <= 1
  {
    if user in users {
      assert users == {user};
    }
  }

  lemma AnotherUser<T(!new)>(users: set<T>, user: T)
    requires |users| >= 2
    ensures exists u :: u in users && u != user
  {
    if forall u <- users :: u == user {
      AtMostOne(users, user);
    }
  }

  /** With two owners counted, one is left when a user's owner row goes. */
  lemma OwnerLeftWithoutUser(g: Grants, g': Grants, project: string, role: int, user: int, groupRoles: map<int, int>)
    requires role in g.roles && g.roles[role].name == OWNER
    requires Reported(g, project, groupRoles) && !LastOwner(g, project, role, groupRoles)
    requires g'.roles == g.roles && g.groupRole == g'.groupRole
    requires forall u :: u != user && RoleUser(u, role, project) in g.roleUser ==> RoleUser(u, role, project) in g'.roleUser
    ensures HasOwner(g', project)
  {
    var users, groups := UsersWithRole(g, role, project), set k | k in groupRoles && groupRoles[k] == role;
    if groups == {} {
      AnotherUser(users, user);
    }
  }

  lemma OwnerLeftWithoutGroup(g: Grants, g': Grants, project: string, role: int, group: int, groupRoles: map<int, int>)
    requires role in g.roles && g.roles[role].name == OWNER
    requires Reported(g, project, groupRoles) && !LastOwner(g, project, role, groupRoles)
    requires g'.roles == g.roles && g.roleUser == g'.roleUser
    requires forall k :: k != group && GroupRole(k, role, project) in g.groupRole ==> GroupRole(k, role, project) in g'.groupRole
    ensures HasOwner(g', project)
  {
    var users, groups := UsersWithRole(g, role, project), set k | k in groupRoles && groupRoles[k] == role;
    if users == {} {
      AnotherUser(groups, group);
    }
  }

  /** A change that only removes rows which are not owner rows of the project keeps the owner. */
  lemma OtherRowsGone(g: Grants, g': Grants, project: string)
    requires HasOwner(g, project) && g'.roles == g.roles
    requires forall r <- g.roleUser :: r.project == project && r.role in g.roles && g.roles[r.role].name == OWNER ==> r in g'.roleUser
    requires forall r <- g.groupRole :: r.project == project && r.role in g.roles && g.roles[r.role].name == OWNER ==> r in g'.groupRole
    ensures HasOwner(g', project)
  {
  }

  lemma RemoveUserKeepsOwner(g: Grants, project: string, role: int, user: int, groupRoles: map<int, int>, p: string)
    requires HasOwner(g, p) && Reported(g, project, groupRoles)
    ensures HasOwner(RemoveUser(g, project, role, user, groupRoles).grants, p)
  {
    var g' := RemoveUser(g, project, role, user, groupRoles).grants;
    if g' != g && p == project && g.roles[role].name == OWNER {
      OwnerLeftWithoutUser(g, g', project, role, user, groupRoles);
    }
  }

  /** The bulk update changes one row or fails: with several roles the rows would collide. */
  lemma ChangeRoleKeepsOwner(g: Grants, project: string, role: int, user: int, current: Option<int>,
                             groupRoles: map<int, int>, p: string)
    requires HasOwner(g, p) && OwnerIsProjectRole(g)
    requires Possible(g, CmdChangeRole(project, role, user, current, groupRoles))
    ensures HasOwner(ChangeRole(g, project, role, user, current, groupRoles).grants, p)
  {
    var g' := ChangeRole(g, project, role, user, current, groupRoles).grants;
    if g' != g {
      var rows := set r | r in g.roleUser && r.user == user && r.project == project && IsProjectRole(g, r.role);
      var row := RoleUser(user, current.value, project);
      OnlyOne(rows, row);
      if p == project && g.roles[current.value].name == OWNER {
        OwnerLeftWithoutUser(g, g', project, current.value, user, groupRoles);
      }
    }
  }

  lemma ChangeGroupRoleKeepsOwner(g: Grants, project: string, role: int, group: int, groupRoles: map<int, int>, p: string)
    requires HasOwner(g, p) && Reported(g, project, groupRoles)
    ensures HasOwner(ChangeGroupRole(g, project, role, group, groupRoles).grants, p)
  {
    var g' := ChangeGroupRole(g, project, role, group, groupRoles).grants;
    if g' != g {
      var rows := set r | r in g.groupRole && r.group == group && r.project == project && IsProjectRole(g, r.role);
      var row := GroupRole(group, groupRoles[group], project);
      OnlyOne(rows, row);
      if p == project && g.roles[groupRoles[group]].name == OWNER {
        OwnerLeftWithoutGroup(g, g', project, groupRoles[group], group, groupRoles);
      }
    }
  }

  /** Removing a group keeps the project's owner exactly when the removal is safe. */
  lemma RemoveGroupKeepsOwnerIff(g: Grants, project: string, role: int, group: int)
    requires HasOwner(g, project)
    ensures HasOwner(RemoveGroup(g, project, role, group).grants, project) <==> SafeRemoval(g, project, role, group)
  {
  }

  ghost predicate Safe(g: Grants, c: Command) {
    c.CmdRemoveGroup? ==> SafeRemoval(g, c.project, c.role, c.group)
  }

  lemma StepKeepsOwner(g: Grants, c: Command, p: string)
    requires HasOwner(g, p) && OwnerIsProjectRole(g) && Possible(g, c) && Safe(g, c)
    ensures HasOwner(Apply(g, c).grants, p)
    ensures Apply(g, c).grants.roles == g.roles
  {
    match c
    case CmdRemoveUser(q, r, u, gr) => RemoveUserKeepsOwner(g, q, r, u, gr, p);
    case CmdChangeRole(q, r, u, current, gr) => ChangeRoleKeepsOwner(g, q, r, u, current, gr, p);
    case CmdChangeGroupRole(q, r, k, gr) => ChangeGroupRoleKeepsOwner(g, q, r, k, gr, p);
    case CmdRemoveGroup(q, r, k) =>
    case _ => OtherRowsGone(g, Apply(g, c).grants, p);
  }

  ghost predicate RunPossible(g: Grants, run: seq<Command>)
    decreases |run|
  {
    run == [] || (Possible(g, run[0]) && Safe(g, run[0]) && RunPossible(Apply(g, run[0]).grants, run[1..]))
  }

  ghost function Run(g: Grants, run: seq<Command>): Grants
    decreases |run|
  {
    if run == [] then g else Run(Apply(g, run[0]).grants, run[1..])
  }

  /** Over every run, whatever roles users and groups hold, a project with an owner keeps one. */
  lemma {:induction false} RunKeepsOwner(g: Grants, run: seq<Command>, project: string)
    requires HasOwner(g, project) && OwnerIsProjectRole(g) && RunPossible(g, run)
    ensures HasOwner(Run(g, run), project)
    decreases |run|
  {
    if run != [] {
      StepKeepsOwner(g, run[0], project);
      RunKeepsOwner(Apply(g, run[0]).grants, run[1..], project);
    }
  }

  /** A created project starts with an owner exactly when its creator has an id; then every run keeps
      one. */
  lemma CreatedProjectHasOwnerIff(g: Grants, user: int, project: string, ownerRole: int)
    requires Access.Integrity(g) && !HasOwner(g, project)
    requires ownerRole in g.roles && g.roles[ownerRole].name == OWNER
    requires CreateDefaultProjectRoles(g, user, project, Some(ownerRole)).outcome == Done
    ensures HasOwner(CreateDefaultProjectRoles(g, user, project, Some(ownerRole)).grants, project) <==> user != 0
  {
  }
}
