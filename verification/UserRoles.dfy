/** The list of a user's roles as assignments and removals leave it, and the lists a token's claims make of it. */
module UserRoles {
  import opened Prelude
  import opened Identity

  function RoleIdSet(roles: seq<Role>): set<Uuid> {
    set i | 0 <= i < |roles| :: roles[i].id
  }

  /** A user holds a role at most once: the join table has the pair as its key. */
  ghost predicate UniqueRoles(roles: seq<Role>) {
    forall i, j | 0 <= i < j < |roles| :: roles[i].id != roles[j].id
  }

  // ---- One assignment, one removal ----

  lemma WithRoleSet(user: User, role: Role, now: Time)
    requires UniqueRoles(user.roles)
    ensures var r := WithRole(user, role, now).roles;
            UniqueRoles(r) && user.roles <= r && RoleIdSet(r) == RoleIdSet(user.roles) + {role.id}
  {
    var r := WithRole(user, role, now).roles;
    if r != user.roles {
      assert forall i | 0 <= i < |user.roles| :: r[i] == user.roles[i];
      assert r[|user.roles|] == role;
    }
  }

  /** Removing takes out the one role with the ID, if there is one, and moves the later ones up. */
  lemma {:induction false} DropRoleSplits(roles: seq<Role>, roleId: Uuid) returns (k: nat)
    ensures k <= |roles|
    ensures k < |roles| ==> roles[k].id == roleId && DropRole(roles, roleId) == roles[..k] + roles[k + 1..]
    ensures k == |roles| ==> DropRole(roles, roleId) == roles && roleId !in RoleIdSet(roles)
  {
    if roles == [] || roles[0].id == roleId {
      k := 0;
    } else {
      var m := DropRoleSplits(roles[1..], roleId);
      k := m + 1;
      assert roles == [roles[0]] + roles[1..];
      if m < |roles| - 1 {
        assert [roles[0]] + (roles[1..][..m] + roles[1..][m + 1..]) == roles[..k] + roles[k + 1..];
      } else {
        assert forall i | 1 <= i < |roles| :: roles[i] == roles[1..][i - 1] && roles[i].id in RoleIdSet(roles[1..]);
      }
    }
  }

  /** The place in the longer list of what stands at i once the role at k is gone. */
  function Before(k: nat, i: nat): nat {
    if i < k then i else i + 1
  }

  lemma DropRoleAt(roles: seq<Role>, roleId: Uuid) returns (k: nat)
    ensures k <= |roles| && (k < |roles| ==> roles[k].id == roleId) && (k == |roles| ==> roleId !in RoleIdSet(roles))
    ensures var r := DropRole(roles, roleId);
            && |r| == (if k < |roles| then |roles| - 1 else |roles|)
            && forall i | 0 <= i < |r| :: Before(k, i) < |roles| && r[i] == roles[Before(k, i)]
  {
    k := DropRoleSplits(roles, roleId);
  }

  lemma OneOutSet(roles: seq<Role>, r: seq<Role>, k: nat)
    requires UniqueRoles(roles) && k < |roles| == |r| + 1
    requires forall i | 0 <= i < |r| :: Before(k, i) < |roles| && r[i] == roles[Before(k, i)]
    ensures UniqueRoles(r) && RoleIdSet(r) == RoleIdSet(roles) - {roles[k].id}
  {
    forall x | x in RoleIdSet(roles) - {roles[k].id} ensures x in RoleIdSet(r) {
      var i :| 0 <= i < |roles| && roles[i].id == x;
      var j := if i < k then i else i - 1;
      assert Before(k, j) == i && r[j].id == x;
    }
    forall x | x in RoleIdSet(r) ensures x in RoleIdSet(roles) - {roles[k].id} {
      var j :| 0 <= j < |r| && r[j].id == x;
      assert roles[Before(k, j)].id == x;
    }
  }

  lemma DropRoleSet(roles: seq<Role>, roleId: Uuid)
    requires UniqueRoles(roles)
    ensures UniqueRoles(DropRole(roles, roleId)) && RoleIdSet(DropRole(roles, roleId)) == RoleIdSet(roles) - {roleId}
  {
    var k := DropRoleAt(roles, roleId);
    if k < |roles| {
      OneOutSet(roles, DropRole(roles, roleId), k);
    } else {
      assert DropRole(roles, roleId) == roles;
    }
  }

  lemma WithoutRoleSet(user: User, roleId: Uuid, now: Time)
    requires UniqueRoles(user.roles)
    ensures var r := WithoutRole(user, roleId, now).roles;
            UniqueRoles(r) && RoleIdSet(r) == RoleIdSet(user.roles) - {roleId}
  {
    DropRoleSet(user.roles, roleId);
  }

  // ---- Any sequence of them ----

  datatype RoleChange = Assign(role: Role) | Remove(roleId: Uuid)

  function Rerolled(user: User, changes: seq<RoleChange>, now: Time): User {
    if changes == [] then user
    else
      var before := Rerolled(user, changes[..|changes| - 1], now);
      match changes[|changes| - 1]
      case Assign(role) => WithRole(before, role, now)
      case Remove(id) => WithoutRole(before, id, now)
  }

  /** The IDs held after the changes. */
  function Held(start: seq<Role>, changes: seq<RoleChange>): set<Uuid> {
    if changes == [] then RoleIdSet(start)
    else
      var before := Held(start, changes[..|changes| - 1]);
      match changes[|changes| - 1]
      case Assign(role) => before + {role.id}
      case Remove(id) => before - {id}
  }

  /** A role and when it came to be held: at its place among the first ones, or by the assignment at that place after them. */
  datatype Origin = Origin(role: Role, place: nat)

  function FirstOrigin(start: seq<Role>, id: Uuid, from: nat): Option<Origin>
    requires from <= |start|
    decreases |start| - from
  {
    if from == |start| then None
    else if start[from].id == id then Some(Origin(start[from], from))
    else FirstOrigin(start, id, from + 1)
  }

  /** The origin of a held ID: the last change that found it not held and assigned it. */
  function OriginOf(start: seq<Role>, changes: seq<RoleChange>, id: Uuid): Option<Origin> {
    if changes == [] then FirstOrigin(start, id, 0)
    else
      var init, last := changes[..|changes| - 1], changes[|changes| - 1];
      if last.Assign? && last.role.id == id && id !in Held(start, init) then Some(Origin(last.role, |start| + |init|))
      else OriginOf(start, init, id)
  }

  /** Every role of the list is there by its origin, and they stand in the order of their origins. */
  ghost predicate InOrder(roles: seq<Role>, start: seq<Role>, changes: seq<RoleChange>) {
    && (forall i | 0 <= i < |roles| :: Placed(roles, start, changes, i))
    && (forall i, j | 0 <= i < j < |roles| :: Placed(roles, start, changes, i) && Placed(roles, start, changes, j) ==>
          OriginOf(start, changes, roles[i].id).value.place < OriginOf(start, changes, roles[j].id).value.place)
  }

  predicate Placed(roles: seq<Role>, start: seq<Role>, changes: seq<RoleChange>, i: nat)
    requires i < |roles|
  {
    var o := OriginOf(start, changes, roles[i].id);
    o.Some? && o.value.role == roles[i] && o.value.place < |start| + |changes|
  }

  lemma {:induction false} FirstOriginAt(start: seq<Role>, i: nat, from: nat)
    requires UniqueRoles(start) && from <= i < |start|
    ensures FirstOrigin(start, start[i].id, from) == Some(Origin(start[i], i))
    decreases i - from
  {
    if from < i {
      FirstOriginAt(start, i, from + 1);
    }
  }

  /**
    Whatever roles are assigned and removed, the list holds each role ID of the resulting set once, as it was
    assigned last and in that order, and nothing else of the user changes but the time stamp.
   */
  lemma {:induction false} RolesAreAnOrderedSet(user: User, changes: seq<RoleChange>, now: Time)
    requires UniqueRoles(user.roles)
    ensures var r := Rerolled(user, changes, now);
            && UniqueRoles(r.roles) && RoleIdSet(r.roles) == Held(user.roles, changes)
            && InOrder(r.roles, user.roles, changes)
            && r == user.(roles := r.roles, updatedAt := r.updatedAt)
  {
    if changes == [] {
      forall i | 0 <= i < |user.roles| ensures OriginOf(user.roles, [], user.roles[i].id) == Some(Origin(user.roles[i], i)) {
        FirstOriginAt(user.roles, i, 0);
      }
    } else {
      var init, last := changes[..|changes| - 1], changes[|changes| - 1];
      RolesAreAnOrderedSet(user, init, now);
      var before := Rerolled(user, init, now);
      match last
      case Assign(role) =>
        WithRoleSet(before, role, now);
        AssignInOrder(before, user.roles, changes, role, now);
      case Remove(id) =>
        WithoutRoleSet(before, id, now);
        RemoveInOrder(before.roles, user.roles, changes, id);
    }
  }

  lemma AssignInOrder(before: User, start: seq<Role>, changes: seq<RoleChange>, role: Role, now: Time)
    requires changes != [] && changes[|changes| - 1] == Assign(role)
    requires UniqueRoles(before.roles) && RoleIdSet(before.roles) == Held(start, changes[..|changes| - 1])
    requires InOrder(before.roles, start, changes[..|changes| - 1])
    ensures InOrder(WithRole(before, role, now).roles, start, changes)
  {
    var init, r := changes[..|changes| - 1], WithRole(before, role, now).roles;
    forall i | 0 <= i < |before.roles| ensures OriginOf(start, changes, before.roles[i].id) == OriginOf(start, init, before.roles[i].id) {
      assert before.roles[i].id in RoleIdSet(before.roles);
    }
    forall i | 0 <= i < |before.roles| ensures r[i] == before.roles[i] && Placed(r, start, changes, i) {
      assert Placed(before.roles, start, init, i);
    }
    if |r| > |before.roles| {
      assert role.id !in RoleIdSet(before.roles);
      assert OriginOf(start, changes, role.id) == Some(Origin(role, |start| + |init|));
    }
    forall i, j | 0 <= i < j < |r| && Placed(r, start, changes, i) && Placed(r, start, changes, j)
      ensures OriginOf(start, changes, r[i].id).value.place < OriginOf(start, changes, r[j].id).value.place
    {
      assert Placed(before.roles, start, init, i);
      if j < |before.roles| {
        assert Placed(before.roles, start, init, j);
      }
    }
  }

  lemma StillPlaced(before: seq<Role>, r: seq<Role>, start: seq<Role>, changes: seq<RoleChange>, x: nat, i: nat)
    requires changes != [] && changes[|changes| - 1].Remove? && x < |before| && i < |r| && r[i] == before[x]
    requires Placed(before, start, changes[..|changes| - 1], x)
    ensures Placed(r, start, changes, i)
    ensures OriginOf(start, changes, r[i].id) == OriginOf(start, changes[..|changes| - 1], before[x].id)
  {
  }

  lemma RemoveInOrder(before: seq<Role>, start: seq<Role>, changes: seq<RoleChange>, id: Uuid)
    requires changes != [] && changes[|changes| - 1] == Remove(id)
    requires InOrder(before, start, changes[..|changes| - 1])
    ensures InOrder(DropRole(before, id), start, changes)
  {
    var r := DropRole(before, id);
    var k := DropRoleAt(before, id);
    ShorterInOrder(before, r, start, changes, k);
  }

  lemma ShorterInOrder(before: seq<Role>, r: seq<Role>, start: seq<Role>, changes: seq<RoleChange>, k: nat)
    requires changes != [] && changes[|changes| - 1].Remove? && InOrder(before, start, changes[..|changes| - 1])
    requires forall i | 0 <= i < |r| :: Before(k, i) < |before| && r[i] == before[Before(k, i)]
    ensures InOrder(r, start, changes)
  {
    var init := changes[..|changes| - 1];
    forall i | 0 <= i < |r|
      ensures Placed(r, start, changes, i)
      ensures OriginOf(start, changes, r[i].id) == OriginOf(start, init, before[Before(k, i)].id)
    {
      assert Placed(before, start, init, Before(k, i));
      StillPlaced(before, r, start, changes, Before(k, i), i);
    }
    forall i, j | 0 <= i < j < |r| && Placed(r, start, changes, i) && Placed(r, start, changes, j)
      ensures OriginOf(start, changes, r[i].id).value.place < OriginOf(start, changes, r[j].id).value.place
    {
      assert Placed(before, start, init, Before(k, i)) && Placed(before, start, init, Before(k, j));
    }
  }

  // ---- What claims list ----

  lemma {:induction false} ClaimsListRoles(roles: seq<Role>)
    ensures |RoleNames(roles)| == |RoleIds(roles)| == |roles|
    ensures forall i | 0 <= i < |roles| :: RoleNames(roles)[i] == roles[i].name && RoleIds(roles)[i] == roles[i].id
  {
    if roles != [] {
      ClaimsListRoles(roles[..|roles| - 1]);
    }
  }

  lemma RoleIdsAreTheSet(roles: seq<Role>)
    ensures forall x :: x in RoleIds(roles) <==> x in RoleIdSet(roles)
  {
    ClaimsListRoles(roles);
    forall x | x in RoleIdSet(roles) ensures x in RoleIds(roles) {
      var i :| 0 <= i < |roles| && roles[i].id == x;
      assert RoleIds(roles)[i] == x;
    }
    forall x | x in RoleIds(roles) ensures x in RoleIdSet(roles) {
      var i :| 0 <= i < |RoleIds(roles)| && RoleIds(roles)[i] == x;
      assert roles[i].id == x;
    }
  }

  /** The permission texts of the claims are those of the roles' permissions, and no others. */
  ghost predicate SomePermission(roles: seq<Role>, text: string) {
    exists i :: 0 <= i < |roles| && SomeText(roles[i].permissions, text)
  }

  ghost predicate SomeText(ps: seq<Permission>, text: string) {
    exists k :: 0 <= k < |ps| && text == ps[k].resource + ":" + ps[k].action
  }

  lemma {:induction false} PermissionTextsList(ps: seq<Permission>, text: string)
    ensures text in PermissionTexts(ps) <==> SomeText(ps, text)
  {
    if ps != [] {
      var init, p := ps[..|ps| - 1], ps[|ps| - 1];
      PermissionTextsList(init, text);
      if SomeText(init, text) {
        var k :| 0 <= k < |init| && text == init[k].resource + ":" + init[k].action;
        assert ps[k] == init[k];
      }
    }
  }

  lemma {:induction false} ClaimsListPermissions(roles: seq<Role>, text: string)
    ensures text in RolePermissions(roles) <==> SomePermission(roles, text)
  {
    if roles != [] {
      var init, role := roles[..|roles| - 1], roles[|roles| - 1];
      ClaimsListPermissions(init, text);
      PermissionTextsList(role.permissions, text);
      if SomePermission(init, text) {
        var i :| 0 <= i < |init| && SomeText(init[i].permissions, text);
        assert roles[i] == init[i];
      }
      if SomePermission(roles, text) && !SomeText(role.permissions, text) {
        var i :| 0 <= i < |roles| && SomeText(roles[i].permissions, text);
        assert init[i] == roles[i];
      }
    }
  }
}
