/**
  Seeding the system roles: obsolete roles are deleted, the declared ones are inserted or updated under
  their old IDs, and each one's permissions are replaced. The meaning over three tables, what it
  guarantees, and that doing it again changes time stamps only.
 */
module RoleSeed {
  import opened Prelude

  datatype Pair = Pair(resource: string, action: string)

  datatype Declared = Declared(name: string, description: string, permissions: seq<Pair>)

  datatype RoleRow = RoleRow(id: Uuid, description: string, updatedAt: Time)

  datatype PermissionRow = PermissionRow(id: Uuid, pair: Pair)

  /** Roles and permissions under their unique names, and the rows that join them by ID. */
  datatype Tables = Tables(roles: map<string, RoleRow>, permissions: map<string, PermissionRow>, grants: set<(Uuid, Uuid)>)

  /** The IDs this seeding generates for a role, and for a permission of a role. */
  datatype Ids = Ids(roleId: string -> Uuid, permissionId: (string, string) -> Uuid)

  function PermissionName(p: Pair): string {
    p.resource + ":" + p.action
  }

  // ---- What the steps do ----

  /** Delete the roles whose names are not declared; their grants go with them. */
  function DropObsolete(db: Tables, names: set<string>): Tables {
    var kept := map n | n in db.roles && n in names :: db.roles[n];
    db.(roles := kept, grants := set g | g in db.grants && exists n :: n in kept && kept[n].id == g.0)
  }

  function Ungranted(db: Tables, roleId: Uuid): Tables {
    db.(grants := set g | g in db.grants && g.0 != roleId)
  }

  /** Insert or correct the permission, keeping the ID of an old row, and grant that row. */
  function Granted(db: Tables, ids: Ids, roleName: string, roleId: Uuid, p: Pair): Tables {
    var name := PermissionName(p);
    var id := if name in db.permissions then db.permissions[name].id else ids.permissionId(roleName, name);
    db.(permissions := db.permissions[name := PermissionRow(id, p)], grants := db.grants + {(roleId, id)})
  }

  function GrantedAll(db: Tables, ids: Ids, roleName: string, roleId: Uuid, ps: seq<Pair>): Tables
    decreases |ps|
  {
    if ps == [] then db
    else Granted(GrantedAll(db, ids, roleName, roleId, ps[..|ps| - 1]), ids, roleName, roleId, ps[|ps| - 1])
  }

  function RoleIdFor(db: Tables, ids: Ids, name: string): Uuid {
    if name in db.roles then db.roles[name].id else ids.roleId(name)
  }

  function SeededRole(db: Tables, ids: Ids, now: Time, d: Declared): Tables {
    var id := RoleIdFor(db, ids, d.name);
    var cleared := Ungranted(db, id);
    GrantedAll(cleared.(roles := db.roles[d.name := RoleRow(id, d.description, now)]), ids, d.name, id, d.permissions)
  }

  function SeededRoles(db: Tables, ids: Ids, now: Time, ds: seq<Declared>): Tables
    decreases |ds|
  {
    if ds == [] then db
    else SeededRole(SeededRoles(db, ids, now, ds[..|ds| - 1]), ids, now, ds[|ds| - 1])
  }

  function Names(ds: seq<Declared>): set<string> {
    set d | d in ds :: d.name
  }

  function Seeded(db: Tables, ids: Ids, now: Time, ds: seq<Declared>): Tables {
    SeededRoles(DropObsolete(db, Names(ds)), ids, now, ds)
  }

  // ---- What is declared ----

  predicate ColonFree(s: string) {
    ':' !in s
  }

  /** Distinct role names, and permissions whose parts hold no colon. */
  ghost predicate WellFormed(ds: seq<Declared>) {
    && (forall i, j | 0 <= i < j < |ds| :: ds[i].name != ds[j].name)
    && (forall d | d in ds :: ColonFreePairs(d.permissions))
  }

  const ALL := "*"

  const ADMIN := Declared("admin", "Full system access",
    [Pair("task", ALL), Pair("user", ALL), Pair("role", ALL), Pair("permissions", ALL), Pair("labels", ALL)])

  const MANAGER := Declared("manager", "Management access",
    [Pair("task", "create"), Pair("task", "read"), Pair("task", "update"), Pair("task", "delete"), Pair("task", "assign"),
     Pair("user", "read"), Pair("label", ALL)])

  const MEMBER := Declared("member", "Member access",
    [Pair("task", "create"), Pair("task", "read"), Pair("task", "update"), Pair("label", "read")])

  const VIEWER := Declared("viewer", "Viewer access", [Pair("task", "read"), Pair("user", "read"), Pair("label", "read")])

  /** The four system roles as declared in the code. */
  const DECLARED := [ADMIN, MANAGER, MEMBER, VIEWER]

  ghost predicate ColonFreePairs(ps: seq<Pair>) {
    forall i | 0 <= i < |ps| :: ColonFree(ps[i].resource) && ColonFree(ps[i].action)
  }

  lemma AdminColonFree()
    ensures ColonFreePairs(ADMIN.permissions)
  {
  }

  lemma ManagerColonFree()
    ensures ColonFreePairs(MANAGER.permissions)
  {
  }

  lemma MemberColonFree()
    ensures ColonFreePairs(MEMBER.permissions)
  {
  }

  lemma ViewerColonFree()
    ensures ColonFreePairs(VIEWER.permissions)
  {
  }

  lemma NamesDiffer()
    ensures ADMIN.name != MANAGER.name && ADMIN.name != MEMBER.name && ADMIN.name != VIEWER.name
    ensures MANAGER.name != MEMBER.name && MANAGER.name != VIEWER.name && MEMBER.name != VIEWER.name
  {
  }

  lemma FourWellFormed(a: Declared, b: Declared, c: Declared, d: Declared)
    requires a.name != b.name && a.name != c.name && a.name != d.name && b.name != c.name && b.name != d.name && c.name != d.name
    requires ColonFreePairs(a.permissions) && ColonFreePairs(b.permissions)
    requires ColonFreePairs(c.permissions) && ColonFreePairs(d.permissions)
    ensures WellFormed([a, b, c, d])
  {
  }

  lemma DeclaredWellFormed()
    ensures WellFormed(DECLARED)
  {
    AdminColonFree();
    ManagerColonFree();
    MemberColonFree();
    ViewerColonFree();
    NamesDiffer();
    FourWellFormed(ADMIN, MANAGER, MEMBER, VIEWER);
  }

  lemma ColonInside(a: string, x: string, b: string, y: string)
    requires a + ":" + x == b + ":" + y && |a| < |b|
    ensures !ColonFree(b)
  {
    assert b[|a|] == (b + ":" + y)[|a|] == (a + ":" + x)[|a|];
  }

  lemma SameColon(a: string, x: string, b: string, y: string)
    requires ColonFree(a) && ColonFree(b) && a + ":" + x == b + ":" + y
    ensures a == b && x == y
  {
    var s, t := a + ":" + x, b + ":" + y;
    if |a| < |b| {
      ColonInside(a, x, b, y);
    } else if |b| < |a| {
      ColonInside(b, y, a, x);
    } else {
      assert s[..|a|] == a && t[..|a|] == b && s[|a| + 1..] == x && t[|a| + 1..] == y;
    }
  }

  /** A permission's name tells its resource and its action. */
  lemma NameTells(p: Pair, q: Pair)
    requires ColonFree(p.resource) && ColonFree(q.resource) && PermissionName(p) == PermissionName(q)
    ensures p == q
  {
    SameColon(p.resource, p.action, q.resource, q.action);
  }

  // ---- Sound tables, new IDs ----

  ghost predicate IsPermissionId(db: Tables, id: Uuid) {
    exists n :: n in db.permissions && db.permissions[n].id == id
  }

  ghost predicate IsRoleId(db: Tables, id: Uuid) {
    exists n :: n in db.roles && db.roles[n].id == id
  }

  /** Primary and foreign keys. */
  ghost predicate Sound(db: Tables) {
    && (forall m, n | m in db.roles && n in db.roles && db.roles[m].id == db.roles[n].id :: m == n)
    && (forall m, n | m in db.permissions && n in db.permissions && db.permissions[m].id == db.permissions[n].id :: m == n)
    && (forall g | g in db.grants :: IsRoleId(db, g.0) && IsPermissionId(db, g.1))
  }

  /** Generated IDs differ from each other and from all in the tables. */
  ghost predicate New(db: Tables, ids: Ids) {
    && (forall m: string, n: string | ids.roleId(m) == ids.roleId(n) :: m == n)
    && (forall r: string, m: string, q: string, n: string | ids.permissionId(r, m) == ids.permissionId(q, n) :: m == n)
    && (forall n: string | n !in db.roles :: !IsRoleId(db, ids.roleId(n)))
    && (forall r: string, n: string | n !in db.permissions :: !IsPermissionId(db, ids.permissionId(r, n)))
  }

  // ---- Granting one role its permissions ----

  /** The permission named n is granted to the role. */
  predicate Has(db: Tables, roleId: Uuid, n: string) {
    n in db.permissions && (roleId, db.permissions[n].id) in db.grants
  }

  ghost predicate Lists(ps: seq<Pair>, n: string) {
    exists p :: p in ps && PermissionName(p) == n
  }

  /** What granting may not disturb: roles, old permission IDs, and the grants of other roles. */
  ghost predicate Extends(db: Tables, db': Tables, roleId: Uuid) {
    && db'.roles == db.roles
    && (forall n | n in db.permissions :: n in db'.permissions && db'.permissions[n].id == db.permissions[n].id)
    && (forall r: Uuid, p: Uuid | r != roleId :: (r, p) in db'.grants <==> (r, p) in db.grants)
  }

  lemma GrantedKeeps(db: Tables, ids: Ids, roleName: string, roleId: Uuid, p: Pair)
    requires Sound(db) && New(db, ids) && IsRoleId(db, roleId)
    ensures var db' := Granted(db, ids, roleName, roleId, p);
            Sound(db') && New(db', ids) && Extends(db, db', roleId) && IsRoleId(db', roleId)
  {
    var name, db' := PermissionName(p), Granted(db, ids, roleName, roleId, p);
    assert db'.roles == db.roles;
    forall g | g in db'.grants ensures IsRoleId(db', g.0) && IsPermissionId(db', g.1) {
      if g in db.grants {
        var n :| n in db.permissions && db.permissions[n].id == g.1;
        assert db'.permissions[n].id == g.1;
        var m :| m in db.roles && db.roles[m].id == g.0;
        assert db'.roles[m].id == g.0;
      } else {
        assert db'.permissions[name].id == g.1;
        var m :| m in db.roles && db.roles[m].id == roleId;
        assert db'.roles[m].id == g.0;
      }
    }
    NewAfterGrant(db, ids, roleName, roleId, p);
  }

  lemma NewAfterGrant(db: Tables, ids: Ids, roleName: string, roleId: Uuid, p: Pair)
    requires New(db, ids)
    ensures New(Granted(db, ids, roleName, roleId, p), ids)
  {
    var name, db' := PermissionName(p), Granted(db, ids, roleName, roleId, p);
    forall r: string, n: string | n !in db'.permissions ensures !IsPermissionId(db', ids.permissionId(r, n)) {
      assert !IsPermissionId(db, ids.permissionId(r, n));
    }
    forall n: string | n !in db'.roles ensures !IsRoleId(db', ids.roleId(n)) {
      assert !IsRoleId(db, ids.roleId(n));
    }
  }

  /** After granting a list, the role has exactly what it had and the list, each under its own pair. */
  lemma {:induction false} GrantedAllExact(db: Tables, ids: Ids, roleName: string, roleId: Uuid, ps: seq<Pair>)
    requires Sound(db) && New(db, ids) && IsRoleId(db, roleId)
    requires forall p | p in ps :: ColonFree(p.resource)
    ensures var db' := GrantedAll(db, ids, roleName, roleId, ps);
            && Sound(db') && New(db', ids) && Extends(db, db', roleId) && IsRoleId(db', roleId)
            && (forall n :: Has(db', roleId, n) <==> Has(db, roleId, n) || Lists(ps, n))
            && (forall p | p in ps :: PermissionName(p) in db'.permissions && db'.permissions[PermissionName(p)].pair == p)
            && (forall n | n in db'.permissions && !Lists(ps, n) :: n in db.permissions && db'.permissions[n] == db.permissions[n])
    decreases |ps|
  {
    if ps != [] {
      var init, p := ps[..|ps| - 1], ps[|ps| - 1];
      assert ps == init + [p];
      GrantedAllExact(db, ids, roleName, roleId, init);
      var db1 := GrantedAll(db, ids, roleName, roleId, init);
      GrantedKeeps(db1, ids, roleName, roleId, p);
      OneMore(db, db1, ids, roleName, roleId, init, p);
    }
  }

  lemma OtherRow(db: Tables, ids: Ids, roleName: string, roleId: Uuid, p: Pair, n: string)
    requires Sound(db) && New(db, ids) && n in db.permissions && n != PermissionName(p)
    ensures Granted(db, ids, roleName, roleId, p).permissions[PermissionName(p)].id != db.permissions[n].id
  {
    if PermissionName(p) !in db.permissions {
      assert !IsPermissionId(db, ids.permissionId(roleName, PermissionName(p)));
    }
  }

  lemma OneMore(db: Tables, db1: Tables, ids: Ids, roleName: string, roleId: Uuid, init: seq<Pair>, p: Pair)
    requires Sound(db1) && New(db1, ids) && Sound(Granted(db1, ids, roleName, roleId, p))
    requires forall q | q in init + [p] :: ColonFree(q.resource)
    requires forall n :: Has(db1, roleId, n) <==> Has(db, roleId, n) || Lists(init, n)
    requires forall q | q in init :: PermissionName(q) in db1.permissions && db1.permissions[PermissionName(q)].pair == q
    requires forall n | n in db1.permissions && !Lists(init, n) :: n in db.permissions && db1.permissions[n] == db.permissions[n]
    ensures var db' := Granted(db1, ids, roleName, roleId, p);
            && (forall n :: Has(db', roleId, n) <==> Has(db, roleId, n) || Lists(init + [p], n))
            && (forall q | q in init + [p] :: PermissionName(q) in db'.permissions && db'.permissions[PermissionName(q)].pair == q)
            && (forall n | n in db'.permissions && !Lists(init + [p], n) :: n in db.permissions && db'.permissions[n] == db.permissions[n])
  {
    var name, db' := PermissionName(p), Granted(db1, ids, roleName, roleId, p);
    assert forall n :: Lists(init + [p], n) <==> Lists(init, n) || n == name by {
      assert p in init + [p];
      forall n | Lists(init, n) ensures Lists(init + [p], n) {
        var q :| q in init && PermissionName(q) == n;
        assert q in init + [p];
      }
    }
    forall n ensures Has(db', roleId, n) <==> Has(db1, roleId, n) || n == name {
      if n != name && n in db1.permissions {
        OtherRow(db1, ids, roleName, roleId, p, n);
      }
    }
    forall q | q in init + [p] ensures PermissionName(q) in db'.permissions && db'.permissions[PermissionName(q)].pair == q {
      if PermissionName(q) == name {
        NameTells(p, q);
      }
    }
  }

  // ---- Seeding one role ----

  /** The role is there as declared, and has exactly the declared permissions. */
  ghost predicate Synced(db: Tables, d: Declared) {
    && d.name in db.roles && db.roles[d.name].description == d.description
    && (forall n :: Has(db, db.roles[d.name].id, n) <==> Lists(d.permissions, n))
    && (forall p | p in d.permissions :: PermissionName(p) in db.permissions && db.permissions[PermissionName(p)].pair == p)
  }

  /** The tables with a role's row in place and its grants gone. */
  function Prepared(db: Tables, ids: Ids, now: Time, d: Declared): Tables {
    var id := RoleIdFor(db, ids, d.name);
    Ungranted(db, id).(roles := db.roles[d.name := RoleRow(id, d.description, now)])
  }

  lemma OtherRoleId(db: Tables, ids: Ids, name: string, n: string)
    requires Sound(db) && New(db, ids) && n in db.roles && n != name
    ensures db.roles[n].id != RoleIdFor(db, ids, name)
  {
    if name !in db.roles {
      assert !IsRoleId(db, ids.roleId(name));
    }
  }

  lemma PreparedSound(db: Tables, ids: Ids, now: Time, d: Declared)
    requires Sound(db) && New(db, ids)
    ensures Sound(Prepared(db, ids, now, d)) && New(Prepared(db, ids, now, d), ids)
    ensures IsRoleId(Prepared(db, ids, now, d), RoleIdFor(db, ids, d.name))
  {
    var db', id := Prepared(db, ids, now, d), RoleIdFor(db, ids, d.name);
    assert db'.roles[d.name].id == id;
    forall n | n in db.roles && n != d.name ensures db.roles[n].id != id {
      OtherRoleId(db, ids, d.name, n);
    }
    forall g | g in db'.grants ensures IsRoleId(db', g.0) && IsPermissionId(db', g.1) {
      assert g in db.grants;
      var n :| n in db.permissions && db.permissions[n].id == g.1;
      assert db'.permissions[n].id == g.1;
      var m :| m in db.roles && db.roles[m].id == g.0;
      assert db'.roles[m].id == g.0;
    }
    PreparedNew(db, ids, now, d);
  }

  lemma PreparedNew(db: Tables, ids: Ids, now: Time, d: Declared)
    requires New(db, ids)
    ensures New(Prepared(db, ids, now, d), ids)
  {
    var db' := Prepared(db, ids, now, d);
    forall n: string | n !in db'.roles ensures !IsRoleId(db', ids.roleId(n)) {
      assert !IsRoleId(db, ids.roleId(n));
    }
    forall r: string, n: string | n !in db'.permissions ensures !IsPermissionId(db', ids.permissionId(r, n)) {
      assert !IsPermissionId(db, ids.permissionId(r, n));
    }
  }

  ghost predicate RolesKept(db: Tables, db': Tables, d: Declared) {
    && db'.roles.Keys == db.roles.Keys + {d.name}
    && (forall n | n in db.roles :: db'.roles[n].id == db.roles[n].id)
    && (forall n | n in db.roles && n != d.name :: db'.roles[n] == db.roles[n])
  }

  lemma SeededRoleExact(db: Tables, ids: Ids, now: Time, d: Declared)
    requires Sound(db) && New(db, ids) && ColonFreePairs(d.permissions)
    ensures var db' := SeededRole(db, ids, now, d);
            Sound(db') && New(db', ids) && Synced(db', d) && RolesKept(db, db', d)
  {
    PreparedSound(db, ids, now, d);
    GrantedAllExact(Prepared(db, ids, now, d), ids, d.name, RoleIdFor(db, ids, d.name), d.permissions);
  }

  lemma SeededRoleKeepsOther(db: Tables, ids: Ids, now: Time, d: Declared, e: Declared)
    requires Sound(db) && New(db, ids) && ColonFreePairs(d.permissions) && ColonFreePairs(e.permissions)
    requires Synced(db, e) && e.name != d.name
    ensures Synced(SeededRole(db, ids, now, d), e)
  {
    SeededRoleExact(db, ids, now, d);
    OtherRoleId(db, ids, d.name, e.name);
    PreparedSound(db, ids, now, d);
    var base, db' := Prepared(db, ids, now, d), SeededRole(db, ids, now, d);
    GrantedAllExact(base, ids, d.name, RoleIdFor(db, ids, d.name), d.permissions);
    var id := db.roles[e.name].id;
    forall n ensures Has(db', id, n) <==> Has(db, id, n) {
      OtherHas(db, base, db', RoleIdFor(db, ids, d.name), id, n);
    }
    forall p | p in e.permissions
      ensures PermissionName(p) in db'.permissions && db'.permissions[PermissionName(p)].pair == p
    {
      var n := PermissionName(p);
      if Lists(d.permissions, n) {
        var q :| q in d.permissions && PermissionName(q) == n;
        NameTells(p, q);
      }
    }
  }

  lemma OtherHas(db: Tables, base: Tables, db': Tables, roleId: Uuid, id: Uuid, n: string)
    requires Sound(db) && Sound(db') && id != roleId
    requires base.permissions == db.permissions && forall r: Uuid, p: Uuid | r != roleId :: (r, p) in base.grants <==> (r, p) in db.grants
    requires Extends(base, db', roleId)
    ensures Has(db', id, n) <==> Has(db, id, n)
  {
    if Has(db', id, n) {
      assert (id, db'.permissions[n].id) in db.grants;
      var m :| m in db.permissions && db.permissions[m].id == db'.permissions[n].id;
      assert m in db'.permissions;
    }
  }

  // ---- Seeding all of them ----

  lemma OneMoreRole(db: Tables, ids: Ids, now: Time, init: seq<Declared>, d: Declared)
    requires Sound(db) && New(db, ids) && WellFormed(init + [d]) && forall e | e in init :: Synced(db, e)
    ensures var db' := SeededRole(db, ids, now, d);
            Sound(db') && New(db', ids) && RolesKept(db, db', d) && forall e | e in init + [d] :: Synced(db', e)
  {
    var ds := init + [d];
    assert ds[|init|] == d;
    SeededRoleExact(db, ids, now, d);
    forall e | e in init ensures Synced(SeededRole(db, ids, now, d), e) {
      var i :| 0 <= i < |init| && init[i] == e;
      assert ds[i] == e;
      SeededRoleKeepsOther(db, ids, now, d, e);
    }
  }

  ghost predicate AllRolesKept(db: Tables, db': Tables, names: set<string>) {
    && db'.roles.Keys == db.roles.Keys + names
    && (forall n | n in db.roles :: db'.roles[n].id == db.roles[n].id)
  }

  lemma {:induction false} SeededRolesExact(db: Tables, ids: Ids, now: Time, ds: seq<Declared>)
    requires Sound(db) && New(db, ids) && WellFormed(ds)
    ensures var db' := SeededRoles(db, ids, now, ds);
            && Sound(db') && New(db', ids) && (forall d | d in ds :: Synced(db', d)) && AllRolesKept(db, db', Names(ds))
    decreases |ds|
  {
    if ds != [] {
      var init, d := ds[..|ds| - 1], ds[|ds| - 1];
      assert ds == init + [d];
      SeededRolesExact(db, ids, now, init);
      var db1 := SeededRoles(db, ids, now, init);
      OneMoreRole(db1, ids, now, init, d);
      MoreRolesKept(db, db1, SeededRole(db1, ids, now, d), init, d);
    }
  }

  lemma MoreRolesKept(db: Tables, db1: Tables, db': Tables, init: seq<Declared>, d: Declared)
    requires AllRolesKept(db, db1, Names(init)) && RolesKept(db1, db', d)
    ensures AllRolesKept(db, db', Names(init + [d]))
  {
    assert Names(init + [d]) == Names(init) + {d.name};
  }

  /** IDs generated now: different from each other and from every ID in the tables. */
  ghost predicate Fresh(db: Tables, ids: Ids) {
    && (forall m: string, n: string | ids.roleId(m) == ids.roleId(n) :: m == n)
    && (forall r: string, m: string, q: string, n: string | ids.permissionId(r, m) == ids.permissionId(q, n) :: m == n)
    && (forall n: string :: !IsRoleId(db, ids.roleId(n)))
    && (forall r: string, n: string :: !IsPermissionId(db, ids.permissionId(r, n)))
  }

  lemma DropSound(db: Tables, ids: Ids, names: set<string>)
    requires Sound(db) && Fresh(db, ids)
    ensures Sound(DropObsolete(db, names)) && New(DropObsolete(db, names), ids)
  {
    var db' := DropObsolete(db, names);
    forall g | g in db'.grants ensures IsRoleId(db', g.0) && IsPermissionId(db', g.1) {
      var n :| n in db.permissions && db.permissions[n].id == g.1;
      assert db'.permissions[n].id == g.1;
    }
    forall n: string ensures !IsRoleId(db', ids.roleId(n)) {
      assert !IsRoleId(db, ids.roleId(n));
    }
    forall r: string, n: string ensures !IsPermissionId(db', ids.permissionId(r, n)) {
      assert !IsPermissionId(db, ids.permissionId(r, n));
    }
  }

  /** The pair is granted to the role with this name. */
  ghost predicate Allows(db: Tables, role: string, p: Pair) {
    role in db.roles && exists n :: Has(db, db.roles[role].id, n) && db.permissions[n].pair == p
  }

  /**
    After seeding there are exactly the declared roles, each with exactly its declared resource and action
    pairs; roles that were there before keep their IDs, and the tables are sound again.
   */
  lemma SeedingExact(db: Tables, ids: Ids, now: Time, ds: seq<Declared>)
    requires Sound(db) && Fresh(db, ids) && WellFormed(ds)
    ensures var db' := Seeded(db, ids, now, ds);
            && Sound(db') && (forall d | d in ds :: Synced(db', d))
            && db'.roles.Keys == Names(ds)
            && (forall n | n in db.roles && n in Names(ds) :: db'.roles[n].id == db.roles[n].id)
  {
    DropSound(db, ids, Names(ds));
    SeededRolesExact(DropObsolete(db, Names(ds)), ids, now, ds);
  }

  lemma SyncedAllows(db: Tables, d: Declared, p: Pair)
    requires Synced(db, d) && ColonFreePairs(d.permissions)
    ensures Allows(db, d.name, p) <==> p in d.permissions
  {
    var id := db.roles[d.name].id;
    if p in d.permissions {
      assert Has(db, id, PermissionName(p));
    }
    if Allows(db, d.name, p) {
      var n :| Has(db, id, n) && db.permissions[n].pair == p;
      var q :| q in d.permissions && PermissionName(q) == n;
      assert db.permissions[PermissionName(q)].pair == q;
    }
  }

  /** Seeding gives each declared role its declared pairs, no more and no less, and nobody else any. */
  lemma SeedingGrantsExactly(db: Tables, ids: Ids, now: Time, ds: seq<Declared>, role: string, p: Pair)
    requires Sound(db) && Fresh(db, ids) && WellFormed(ds)
    ensures Allows(Seeded(db, ids, now, ds), role, p) <==> exists d :: d in ds && d.name == role && p in d.permissions
  {
    SeedingExact(db, ids, now, ds);
    var db' := Seeded(db, ids, now, ds);
    forall d | d in ds && d.name == role ensures Allows(db', role, p) <==> p in d.permissions {
      SyncedAllows(db', d, p);
    }
    if Allows(db', role, p) {
      var d :| d in ds && d.name == role;
      assert p in d.permissions;
    }
  }

  // ---- Seeding again ----

  /** Only the time stamps of the named roles differ. */
  function Stamped(db: Tables, now: Time, names: set<string>): Tables {
    db.(roles := map n | n in db.roles :: if n in names then db.roles[n].(updatedAt := now) else db.roles[n])
  }

  lemma SeededRoleAgain(db: Tables, ids: Ids, now: Time, d: Declared)
    requires Sound(db) && New(db, ids) && Synced(db, d) && ColonFreePairs(d.permissions)
    ensures SeededRole(db, ids, now, d) == Stamped(db, now, {d.name})
  {
    PreparedSound(db, ids, now, d);
    var base, id, db' := Prepared(db, ids, now, d), db.roles[d.name].id, SeededRole(db, ids, now, d);
    GrantedAllExact(base, ids, d.name, id, d.permissions);
    assert db'.roles == Stamped(db, now, {d.name}).roles;
    SamePermissions(db, base, db', d, id);
    SameGrants(db, base, db', d, id);
  }

  lemma SamePermissions(db: Tables, base: Tables, db': Tables, d: Declared, id: Uuid)
    requires Synced(db, d) && base.permissions == db.permissions && Extends(base, db', id)
    requires forall p | p in d.permissions :: PermissionName(p) in db'.permissions && db'.permissions[PermissionName(p)].pair == p
    requires forall n | n in db'.permissions && !Lists(d.permissions, n) :: n in base.permissions && db'.permissions[n] == base.permissions[n]
    ensures db'.permissions == db.permissions
  {
    forall n | n in db'.permissions ensures n in db.permissions && db'.permissions[n] == db.permissions[n] {
      if Lists(d.permissions, n) {
        var p :| p in d.permissions && PermissionName(p) == n;
      }
    }
  }

  lemma SameGrants(db: Tables, base: Tables, db': Tables, d: Declared, id: Uuid)
    requires Sound(db) && Sound(db') && db'.permissions == db.permissions
    requires Synced(db, d) && db.roles[d.name].id == id && Extends(base, db', id)
    requires forall r: Uuid, p: Uuid | r != id :: (r, p) in base.grants <==> (r, p) in db.grants
    requires forall n :: Has(db', id, n) <==> Has(base, id, n) || Lists(d.permissions, n)
    requires forall n :: !Has(base, id, n)
    ensures db'.grants == db.grants
  {
    forall r: Uuid, p: Uuid ensures (r, p) in db'.grants <==> (r, p) in db.grants {
      if r == id && ((r, p) in db'.grants || (r, p) in db.grants) {
        assert IsPermissionId(db, p);
        var n :| n in db.permissions && db.permissions[n].id == p;
        assert Has(db', id, n) <==> Has(db, id, n);
      }
    }
    assert forall g: (Uuid, Uuid) :: g in db'.grants <==> (g.0, g.1) in db'.grants;
    assert forall g: (Uuid, Uuid) :: g in db.grants <==> (g.0, g.1) in db.grants;
  }

  lemma StampedFine(db: Tables, ids: Ids, now: Time, names: set<string>, d: Declared)
    requires Sound(db) && New(db, ids)
    ensures Sound(Stamped(db, now, names)) && New(Stamped(db, now, names), ids)
    ensures Synced(db, d) ==> Synced(Stamped(db, now, names), d)
  {
    var db' := Stamped(db, now, names);
    forall x: Uuid ensures IsRoleId(db', x) <==> IsRoleId(db, x) {
      if IsRoleId(db, x) {
        var n :| n in db.roles && db.roles[n].id == x;
        assert db'.roles[n].id == x;
      }
    }
    forall x: Uuid ensures IsPermissionId(db', x) <==> IsPermissionId(db, x) {
      if IsPermissionId(db, x) {
        var n :| n in db.permissions && db.permissions[n].id == x;
        assert db'.permissions[n].id == x;
      }
    }
    if Synced(db, d) {
      forall n ensures Has(db', db'.roles[d.name].id, n) <==> Has(db, db.roles[d.name].id, n) {
      }
    }
  }

  lemma StampMore(db: Tables, now: Time, init: seq<Declared>, d: Declared)
    ensures Stamped(Stamped(db, now, Names(init)), now, {d.name}) == Stamped(db, now, Names(init + [d]))
  {
    assert Names(init + [d]) == Names(init) + {d.name};
    assert Stamped(Stamped(db, now, Names(init)), now, {d.name}).roles == Stamped(db, now, Names(init + [d])).roles;
  }

  lemma StampNone(db: Tables, now: Time)
    ensures Stamped(db, now, Names([])) == db
  {
    assert Stamped(db, now, Names([])).roles == db.roles;
  }

  lemma OneMoreAgain(db: Tables, ids: Ids, now: Time, init: seq<Declared>, d: Declared)
    requires Sound(db) && New(db, ids) && Synced(db, d) && ColonFreePairs(d.permissions)
    ensures SeededRole(Stamped(db, now, Names(init)), ids, now, d) == Stamped(db, now, Names(init + [d]))
  {
    var stamped := Stamped(db, now, Names(init));
    StampedFine(db, ids, now, Names(init), d);
    SeededRoleAgain(stamped, ids, now, d);
    StampMore(db, now, init, d);
  }

  lemma {:induction false} SeededRolesAgain(db: Tables, ids: Ids, now: Time, ds: seq<Declared>)
    requires Sound(db) && New(db, ids) && (forall d | d in ds :: Synced(db, d) && ColonFreePairs(d.permissions))
    ensures SeededRoles(db, ids, now, ds) == Stamped(db, now, Names(ds))
    decreases |ds|
  {
    if ds == [] {
      StampNone(db, now);
    } else {
      var init, d := ds[..|ds| - 1], ds[|ds| - 1];
      assert ds == init + [d];
      SeededRolesAgain(db, ids, now, init);
      OneMoreAgain(db, ids, now, init, d);
    }
  }

  /** Seeding a second time, with whatever new IDs, changes nothing but the time stamps of the roles. */
  lemma SeedingAgain(db: Tables, ids: Ids, now: Time, ids': Ids, later: Time, ds: seq<Declared>)
    requires Sound(db) && Fresh(db, ids) && WellFormed(ds) && Fresh(Seeded(db, ids, now, ds), ids')
    ensures Seeded(Seeded(db, ids, now, ds), ids', later, ds) == Stamped(Seeded(db, ids, now, ds), later, Names(ds))
  {
    SeedingExact(db, ids, now, ds);
    var db' := Seeded(db, ids, now, ds);
    NothingObsolete(db', Names(ds));
    DropSound(db', ids', Names(ds));
    SeededRolesAgain(db', ids', later, ds);
  }

  lemma NothingObsolete(db: Tables, names: set<string>)
    requires Sound(db) && db.roles.Keys <= names
    ensures DropObsolete(db, names) == db
  {
    assert DropObsolete(db, names).roles == db.roles;
    forall g | g in db.grants ensures g in DropObsolete(db, names).grants {
      assert IsRoleId(db, g.0);
    }
  }
}
