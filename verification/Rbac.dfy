/**
  Authorisation from claims: permission texts are split at the colon, wildcards match anything, and a fixed
  table gives each role its permissions besides. The decision on a token's claims is compared with the
  user's roles, with the seeded roles, and with the role entity's own check.
 */
module Rbac {
  import opened Prelude
  import opened Text
  import opened EntryCache
  import opened Identity
  import opened Sessions
  import opened SessionTheorems
  import RoleSeed

  type Policy = map<string, seq<Permission>>

  const ANY := "*"

  predicate Matches(p: Permission, resource: string, action: string) {
    (p.resource == ANY || p.resource == resource) && (p.action == ANY || p.action == action)
  }

  /** A permission text that does not split in two is passed over. */
  predicate TextMatches(text: string, resource: string, action: string) {
    var parts := Split(':', text);
    |parts| == 2 && Matches(Permission(parts[0], parts[1]), resource, action)
  }

  ghost predicate ByTexts(permissions: seq<string>, resource: string, action: string) {
    exists i :: 0 <= i < |permissions| && TextMatches(permissions[i], resource, action)
  }

  ghost predicate ByPolicy(policy: Policy, roles: seq<string>, resource: string, action: string) {
    exists r, p :: r in roles && r in policy && p in policy[r] && Matches(p, resource, action)
  }

  /** What the claims allow: by a permission text or by a role's entry in the table. */
  ghost predicate Decides(policy: Policy, roles: seq<string>, permissions: seq<string>, resource: string, action: string) {
    ByTexts(permissions, resource, action) || ByPolicy(policy, roles, resource, action)
  }

  const ADMIN_TABLE := [Permission("tasks", "*"), Permission("users", "*"), Permission("roles", "*"), Permission("permissions", "*"),
                        Permission("labels", "*")]

  const MANAGER_TABLE := [Permission("tasks", "create"), Permission("tasks", "read"), Permission("tasks", "update"),
                          Permission("tasks", "delete"), Permission("tasks", "assign"), Permission("users", "read"),
                          Permission("labels", "*")]

  const MEMBER_TABLE := [Permission("tasks", "create"), Permission("tasks", "read"), Permission("tasks", "update"),
                         Permission("labels", "read")]

  const VIEWER_TABLE := [Permission("tasks", "read"), Permission("users", "read"), Permission("labels", "read")]

  /** The fixed table of the authorizer. */
  const DEFAULT_POLICY: Policy :=
    map["admin" := ADMIN_TABLE, "manager" := MANAGER_TABLE, "member" := MEMBER_TABLE, "viewer" := VIEWER_TABLE]

  class Authorizer {
    const rolePermissions: Policy

    constructor (rolePermissions: Policy)
      ensures this.rolePermissions == rolePermissions
    {
      this.rolePermissions := rolePermissions;
    }

    method HasPermissionFromClaims(roles: seq<string>, permissions: seq<string>, resource: string, action: string) returns (yes: bool)
      ensures yes <==> Decides(rolePermissions, roles, permissions, resource, action)
    {
      for i := 0 to |permissions|
        invariant forall k | 0 <= k < i :: !TextMatches(permissions[k], resource, action)
      {
        var parts := Split(':', permissions[i]);
        if |parts| == 2 {
          if Matches(Permission(parts[0], parts[1]), resource, action) {
            return true;
          }
        }
      }
      for i := 0 to |roles|
        invariant forall k, p | 0 <= k < i && roles[k] in rolePermissions && p in rolePermissions[roles[k]] :: !Matches(p, resource, action)
      {
        if roles[i] in rolePermissions {
          var table := rolePermissions[roles[i]];
          for j := 0 to |table|
            invariant forall k | 0 <= k < j :: !Matches(table[k], resource, action)
          {
            if Matches(table[j], resource, action) {
              return true;
            }
          }
        }
      }
      return false;
    }

    /** The texts are made from the roles in two nested loops, as for a token. */
    method HasPermission(userRoles: seq<Role>, resource: string, action: string) returns (yes: bool)
      ensures yes <==> Decides(rolePermissions, RoleNames(userRoles), RolePermissions(userRoles), resource, action)
    {
      var names, texts := [], [];
      for i := 0 to |userRoles|
        invariant names == RoleNames(userRoles[..i]) && texts == RolePermissions(userRoles[..i])
      {
        var role := userRoles[i];
        assert userRoles[..i + 1][..i] == userRoles[..i];
        names := names + [role.name];
        ghost var before := texts;
        for k := 0 to |role.permissions|
          invariant texts == before + PermissionTexts(role.permissions[..k])
        {
          assert role.permissions[..k + 1][..k] == role.permissions[..k];
          texts := texts + [role.permissions[k].resource + ":" + role.permissions[k].action];
        }
        assert role.permissions[..|role.permissions|] == role.permissions;
      }
      assert userRoles[..|userRoles|] == userRoles;
      yes := HasPermissionFromClaims(names, texts, resource, action);
    }
  }

  // ---- What decides a request, spelled out ----

  /** The four permissions that cover a request. */
  predicate Covers(p: Permission, resource: string, action: string) {
    || p == Permission(resource, action) || p == Permission(resource, "*")
    || p == Permission("*", action) || p == Permission("*", "*")
  }

  /** The four texts that cover a request; a colon in the resource or the action leaves only the wildcard for it. */
  predicate TextCovers(text: string, resource: string, action: string) {
    || (Without(':', resource) && Without(':', action) && text == resource + ":" + action)
    || (Without(':', resource) && text == resource + ":" + "*")
    || (Without(':', action) && text == "*" + ":" + action)
    || text == "*" + ":" + "*"
  }

  lemma TextDecidesExactly(text: string, resource: string, action: string)
    ensures TextMatches(text, resource, action) <==> TextCovers(text, resource, action)
  {
    if TextMatches(text, resource, action) {
      TwoPiecesJoin(':', text);
    }
    SplitsInTwo(':', resource, action);
    SplitsInTwo(':', resource, "*");
    SplitsInTwo(':', "*", action);
    SplitsInTwo(':', "*", "*");
  }

  /**
    Claims allow a request if and only if one of the four texts that cover it is among the permissions, or one
    of the four permissions is in the table under one of the roles.
   */
  lemma DecidesExactly(policy: Policy, roles: seq<string>, permissions: seq<string>, resource: string, action: string)
    ensures Decides(policy, roles, permissions, resource, action)
       <==> || (exists text :: text in permissions && TextCovers(text, resource, action))
            || (exists role, p :: role in roles && role in policy && p in policy[role] && Covers(p, resource, action))
  {
    if ByTexts(permissions, resource, action) {
      var i :| 0 <= i < |permissions| && TextMatches(permissions[i], resource, action);
      TextDecidesExactly(permissions[i], resource, action);
      assert permissions[i] in permissions && TextCovers(permissions[i], resource, action);
    }
    if text :| text in permissions && TextCovers(text, resource, action) {
      TextDecidesExactly(text, resource, action);
      var i :| 0 <= i < |permissions| && permissions[i] == text;
    }
    assert forall p: Permission :: Matches(p, resource, action) <==> Covers(p, resource, action);
  }

  /** What the fixed table allows each role. */
  predicate TableAllows(role: string, resource: string, action: string) {
    || (role == "admin" && (resource == "tasks" || resource == "users" || resource == "roles" || resource == "permissions" || resource == "labels"))
    || (role == "manager" && (|| (resource == "tasks" && (action == "create" || action == "read" || action == "update" || action == "delete" || action == "assign"))
                              || (resource == "users" && action == "read")
                              || resource == "labels"))
    || (role == "member" && (|| (resource == "tasks" && (action == "create" || action == "read" || action == "update"))
                             || (resource == "labels" && action == "read")))
    || (role == "viewer" && (resource == "tasks" || resource == "users" || resource == "labels") && action == "read")
  }

  ghost predicate InTable(table: seq<Permission>, resource: string, action: string) {
    exists k :: 0 <= k < |table| && Matches(table[k], resource, action)
  }

  lemma AdminAllows(resource: string, action: string)
    ensures InTable(ADMIN_TABLE, resource, action) <==> TableAllows("admin", resource, action)
  {
    if TableAllows("admin", resource, action) {
      var k := if resource == "tasks" then 0 else if resource == "users" then 1 else if resource == "roles" then 2
               else if resource == "permissions" then 3 else 4;
      assert Matches(ADMIN_TABLE[k], resource, action);
    }
  }

  lemma ManagerAllows(resource: string, action: string)
    ensures InTable(MANAGER_TABLE, resource, action) <==> TableAllows("manager", resource, action)
  {
    if TableAllows("manager", resource, action) {
      var k := if resource == "users" then 5 else if resource == "labels" then 6 else if action == "create" then 0
               else if action == "read" then 1 else if action == "update" then 2 else if action == "delete" then 3 else 4;
      assert Matches(MANAGER_TABLE[k], resource, action);
    }
  }

  lemma MemberAllows(resource: string, action: string)
    ensures InTable(MEMBER_TABLE, resource, action) <==> TableAllows("member", resource, action)
  {
    if TableAllows("member", resource, action) {
      var k := if resource == "labels" then 3 else if action == "create" then 0 else if action == "read" then 1 else 2;
      assert Matches(MEMBER_TABLE[k], resource, action);
    }
  }

  lemma ViewerAllows(resource: string, action: string)
    ensures InTable(VIEWER_TABLE, resource, action) <==> TableAllows("viewer", resource, action)
  {
    if TableAllows("viewer", resource, action) {
      var k := if resource == "tasks" then 0 else if resource == "users" then 1 else 2;
      assert Matches(VIEWER_TABLE[k], resource, action);
    }
  }

  lemma RowAllows(role: string, resource: string, action: string)
    ensures role in DEFAULT_POLICY && InTable(DEFAULT_POLICY[role], resource, action) <==> TableAllows(role, resource, action)
  {
    AdminAllows(resource, action);
    ManagerAllows(resource, action);
    MemberAllows(resource, action);
    ViewerAllows(resource, action);
  }

  /** By the fixed table roles allow a request if and only if one of them is among those listed for it. */
  lemma TableDecidesExactly(roles: seq<string>, resource: string, action: string)
    ensures ByPolicy(DEFAULT_POLICY, roles, resource, action) <==> exists role :: role in roles && TableAllows(role, resource, action)
  {
    forall role | role in roles
      ensures TableAllows(role, resource, action)
         <==> role in DEFAULT_POLICY && exists p :: p in DEFAULT_POLICY[role] && Matches(p, resource, action)
    {
      RowAllows(role, resource, action);
    }
  }

  // ---- Claims decide as the roles do ----

  /** The permission survives being written as a text and split again. */
  predicate Writable(p: Permission) {
    Without(':', p.resource) && Without(':', p.action)
  }

  lemma TextOfPermission(p: Permission, resource: string, action: string)
    ensures TextMatches(p.resource + ":" + p.action, resource, action) <==> Writable(p) && Matches(p, resource, action)
  {
    SplitsInTwo(':', p.resource, p.action);
  }

  ghost predicate ByRoles(roles: seq<Role>, resource: string, action: string) {
    exists i :: 0 <= i < |roles| && ByList(roles[i].permissions, resource, action)
  }

  ghost predicate ByList(ps: seq<Permission>, resource: string, action: string) {
    exists k :: 0 <= k < |ps| && Writable(ps[k]) && Matches(ps[k], resource, action)
  }

  lemma ByTextsJoin(a: seq<string>, b: seq<string>, resource: string, action: string)
    ensures ByTexts(a + b, resource, action) <==> ByTexts(a, resource, action) || ByTexts(b, resource, action)
  {
    if ByTexts(a, resource, action) {
      var i :| 0 <= i < |a| && TextMatches(a[i], resource, action);
      assert (a + b)[i] == a[i];
    }
    if ByTexts(b, resource, action) {
      var i :| 0 <= i < |b| && TextMatches(b[i], resource, action);
      assert (a + b)[|a| + i] == b[i];
    }
  }

  lemma ByTextsOne(text: string, resource: string, action: string)
    ensures ByTexts([text], resource, action) <==> TextMatches(text, resource, action)
  {
    assert [text][0] == text;
  }

  lemma {:induction false} PermissionTextsExact(ps: seq<Permission>, resource: string, action: string)
    ensures ByTexts(PermissionTexts(ps), resource, action) <==> ByList(ps, resource, action)
    decreases |ps|
  {
    if ps != [] {
      var init, p := ps[..|ps| - 1], ps[|ps| - 1];
      PermissionTextsExact(init, resource, action);
      ByTextsJoin(PermissionTexts(init), [p.resource + ":" + p.action], resource, action);
      ByTextsOne(p.resource + ":" + p.action, resource, action);
      TextOfPermission(p, resource, action);
      if ByList(init, resource, action) {
        var k :| 0 <= k < |init| && Writable(init[k]) && Matches(init[k], resource, action);
        assert ps[k] == init[k];
      }
    }
  }

  /** The permission texts in a token's claims decide exactly as the permissions of the roles they were made from. */
  lemma {:induction false} RolePermissionsExact(roles: seq<Role>, resource: string, action: string)
    ensures ByTexts(RolePermissions(roles), resource, action) <==> ByRoles(roles, resource, action)
    decreases |roles|
  {
    if roles != [] {
      var init, role := roles[..|roles| - 1], roles[|roles| - 1];
      RolePermissionsExact(init, resource, action);
      PermissionTextsExact(role.permissions, resource, action);
      ByTextsJoin(RolePermissions(init), PermissionTexts(role.permissions), resource, action);
      if ByRoles(init, resource, action) {
        var i :| 0 <= i < |init| && ByList(init[i].permissions, resource, action);
        assert roles[i] == init[i];
      }
      if ByRoles(roles, resource, action) && !ByList(role.permissions, resource, action) {
        var i :| 0 <= i < |roles| && ByList(roles[i].permissions, resource, action);
        assert init[i] == roles[i];
      }
    }
  }

  /**
    In every run the claims of an accepted token decide every request exactly as the roles its user has now,
    as long as the user exists.
   */
  lemma AcceptedTokenDecidesLikeUser(cfg: Config, start: State, trace: seq<Timed>, now: Time, p: Presented,
                                     policy: Policy, resource: string, action: string)
    requires Starting(start) && Proper(cfg, start, trace) && NotBefore(trace, now)
    requires ValidateToken(Run(cfg, start, trace), now, p).Ok? && p.token.userId in Run(cfg, start, trace).users
    ensures p.token.Access?
    ensures var roles := Run(cfg, start, trace).users[p.token.userId].roles;
            Decides(policy, p.token.roles, p.token.permissions, resource, action)
            <==> ByRoles(roles, resource, action) || ByPolicy(policy, RoleNames(roles), resource, action)
  {
    AcceptedClaimsCurrent(cfg, start, trace, now, p);
    RolePermissionsExact(Run(cfg, start, trace).users[p.token.userId].roles, resource, action);
  }

  // ---- Seeded permissions name other resources than the table ----

  function AsPermissions(ps: seq<RoleSeed.Pair>): seq<Permission> {
    seq(|ps|, i requires 0 <= i < |ps| => Permission(ps[i].resource, ps[i].action))
  }

  /** A role as seeded: its permissions are some declared role's. */
  ghost predicate SeededRole(role: Role) {
    || role.permissions == AsPermissions(RoleSeed.ADMIN.permissions)
    || role.permissions == AsPermissions(RoleSeed.MANAGER.permissions)
    || role.permissions == AsPermissions(RoleSeed.MEMBER.permissions)
    || role.permissions == AsPermissions(RoleSeed.VIEWER.permissions)
  }

  ghost predicate NeverNames(ps: seq<RoleSeed.Pair>, resource: string) {
    forall i | 0 <= i < |ps| :: ps[i].resource != resource && ps[i].resource != ANY
  }

  lemma DeclaredNeverName(resource: string)
    requires resource == "tasks" || resource == "users" || resource == "roles"
    ensures NeverNames(RoleSeed.ADMIN.permissions, resource) && NeverNames(RoleSeed.MANAGER.permissions, resource)
    ensures NeverNames(RoleSeed.MEMBER.permissions, resource) && NeverNames(RoleSeed.VIEWER.permissions, resource)
  {
  }

  lemma NeverNamedNeverMatches(ps: seq<RoleSeed.Pair>, resource: string, action: string)
    requires NeverNames(ps, resource)
    ensures !ByList(AsPermissions(ps), resource, action)
  {
  }

  lemma SeededRoleNeverMatches(role: Role, resource: string, action: string)
    requires SeededRole(role) && (resource == "tasks" || resource == "users" || resource == "roles")
    ensures !ByList(role.permissions, resource, action)
  {
    DeclaredNeverName(resource);
    NeverNamedNeverMatches(RoleSeed.ADMIN.permissions, resource, action);
    NeverNamedNeverMatches(RoleSeed.MANAGER.permissions, resource, action);
    NeverNamedNeverMatches(RoleSeed.MEMBER.permissions, resource, action);
    NeverNamedNeverMatches(RoleSeed.VIEWER.permissions, resource, action);
  }

  /**
    For tasks, users and roles the seeded permissions decide nothing: they name the resources in the singular,
    so the decision is the fixed table's alone.
   */
  lemma SeededPermissionsDecideNothing(roles: seq<Role>, policy: Policy, resource: string, action: string)
    requires forall i | 0 <= i < |roles| :: SeededRole(roles[i])
    requires resource == "tasks" || resource == "users" || resource == "roles"
    ensures Decides(policy, RoleNames(roles), RolePermissions(roles), resource, action)
       <==> ByPolicy(policy, RoleNames(roles), resource, action)
  {
    RolePermissionsExact(roles, resource, action);
    forall i | 0 <= i < |roles| ensures !ByList(roles[i].permissions, resource, action) {
      SeededRoleNeverMatches(roles[i], resource, action);
    }
  }

  // ---- The declared roles and the table are one list in two spellings ----

  /** How the table names a resource that the declarations name in the singular. */
  function Plural(resource: string): string {
    if resource == "task" then "tasks" else if resource == "user" then "users" else if resource == "role" then "roles"
    else if resource == "label" then "labels" else resource
  }

  ghost predicate Mirrors(table: seq<Permission>, ps: seq<RoleSeed.Pair>) {
    |table| == |ps| && forall i | 0 <= i < |ps| :: table[i] == Permission(Plural(ps[i].resource), ps[i].action)
  }

  lemma AdminMirrors()
    ensures Mirrors(ADMIN_TABLE, RoleSeed.ADMIN.permissions)
  {
  }

  lemma ManagerMirrors()
    ensures Mirrors(MANAGER_TABLE, RoleSeed.MANAGER.permissions)
  {
  }

  lemma MemberMirrors()
    ensures Mirrors(MEMBER_TABLE, RoleSeed.MEMBER.permissions)
  {
  }

  lemma ViewerMirrors()
    ensures Mirrors(VIEWER_TABLE, RoleSeed.VIEWER.permissions)
  {
  }

  /** Role by role the table holds the declared permissions, in order, with the resources in the plural, and no others. */
  lemma SeedsMirrorTable(d: RoleSeed.Declared)
    requires d in RoleSeed.DECLARED
    ensures d.name in DEFAULT_POLICY && Mirrors(DEFAULT_POLICY[d.name], d.permissions)
    ensures DEFAULT_POLICY.Keys == RoleSeed.Names(RoleSeed.DECLARED)
  {
    AdminMirrors();
    ManagerMirrors();
    MemberMirrors();
    ViewerMirrors();
    DeclaredAre();
  }

  lemma DeclaredAre()
    ensures forall d :: d in RoleSeed.DECLARED <==> d in {RoleSeed.ADMIN, RoleSeed.MANAGER, RoleSeed.MEMBER, RoleSeed.VIEWER}
    ensures RoleSeed.Names(RoleSeed.DECLARED) == {"admin", "manager", "member", "viewer"}
  {
    assert RoleSeed.DECLARED == [RoleSeed.ADMIN, RoleSeed.MANAGER, RoleSeed.MEMBER, RoleSeed.VIEWER];
    assert RoleSeed.ADMIN in RoleSeed.DECLARED && RoleSeed.MANAGER in RoleSeed.DECLARED
        && RoleSeed.MEMBER in RoleSeed.DECLARED && RoleSeed.VIEWER in RoleSeed.DECLARED;
  }

  // ---- The role entity's own check ----

  /** The permission itself, the whole resource, or everything. */
  predicate EntityCovers(p: Permission, resource: string, action: string) {
    p == Permission(resource, action) || p == Permission(resource, "*") || p.resource == "*"
  }

  /** The loop of the entity's HasPermission: a wildcard resource is enough, whatever the action. */
  method RoleHasPermission(role: Role, resource: string, action: string) returns (yes: bool)
    ensures yes <==> exists p :: p in role.permissions && EntityCovers(p, resource, action)
  {
    for i := 0 to |role.permissions|
      invariant forall k | 0 <= k < i :: !EntityCovers(role.permissions[k], resource, action)
    {
      var p := role.permissions[i];
      assert p in role.permissions && p == Permission(p.resource, p.action);
      if p.resource == resource && p.action == action {
        return true;
      }
      if p.resource == ANY || (p.resource == resource && p.action == ANY) {
        return true;
      }
    }
    return false;
  }
}
