/**
  Seeding call by call: repository calls inside a transaction, in loops over the declared roles
  and their permissions. Any call may return an error or panic; the transaction commits only if none does.
 */
module SeedUseCase {
  import opened Prelude
  import opened RoleSeed

  datatype Fault = Fine | Fails | Panics

  /** How a commit ends: its error may mean that it was refused, or only that its answer was lost. */
  datatype CommitOutcome = Commits | Refused | AnswerLost | Crashes

  /** How a call ends: normally, with an error, or by a panic passed on. */
  datatype Ending = Done | Failed | Panicked

  class Database {
    var committed: Tables

    constructor (tables: Tables)
      ensures committed == tables
    {
      committed := tables;
    }
  }

  /** The role repository bound to one transaction: its writes go to the transaction's own copy. */
  class RoleTransaction {
    var working: Tables
    var calls: nat
    const faults: nat -> Fault

    constructor (working: Tables, faults: nat -> Fault)
      ensures this.working == working
    {
      this.working, this.faults, calls := working, faults, 0;
    }

    method Call() returns (e: Ending)
      modifies this`calls
    {
      var fault := faults(calls);
      calls := calls + 1;
      e := match fault case Fine => Done case Fails => Failed case Panics => Panicked;
    }

    method FindAll() returns (names: set<string>, e: Ending)
      modifies this`calls
      ensures e == Done ==> names == working.roles.Keys
    {
      e := Call();
      names := working.roles.Keys;
    }

    method DeleteByNames(obsolete: set<string>) returns (e: Ending)
      modifies this
      ensures e == Done ==> working == DropObsolete(old(working), old(working).roles.Keys - obsolete)
    {
      e := Call();
      if e == Done {
        working := DropObsolete(working, working.roles.Keys - obsolete);
      }
    }

    method FindByName(name: string) returns (role: Option<RoleRow>, e: Ending)
      modifies this`calls
      ensures e == Done ==> role == if name in working.roles then Some(working.roles[name]) else None
    {
      e := Call();
      role := if name in working.roles then Some(working.roles[name]) else None;
    }

    method RemoveAllPermissions(roleId: Uuid) returns (e: Ending)
      modifies this
      ensures e == Done ==> working == Ungranted(old(working), roleId)
    {
      e := Call();
      if e == Done {
        working := Ungranted(working, roleId);
      }
    }

    /** Insert, or on a taken name update in place and keep the ID. */
    method UpsertRole(name: string, row: RoleRow) returns (e: Ending)
      modifies this
      ensures e == Done ==>
        working == old(working).(roles := old(working).roles[name := row.(id := if name in old(working).roles then old(working).roles[name].id else row.id)])
    {
      e := Call();
      if e == Done {
        var id := if name in working.roles then working.roles[name].id else row.id;
        working := working.(roles := working.roles[name := row.(id := id)]);
      }
    }

    method UpsertPermission(name: string, row: PermissionRow) returns (id: Uuid, e: Ending)
      modifies this
      ensures e == Done ==> id == if name in old(working).permissions then old(working).permissions[name].id else row.id
      ensures e == Done ==> working == old(working).(permissions := old(working).permissions[name := row.(id := id)])
    {
      e := Call();
      id := if name in working.permissions then working.permissions[name].id else row.id;
      if e == Done {
        working := working.(permissions := working.permissions[name := row.(id := id)]);
      }
    }

    method AddPermissionToRole(roleId: Uuid, permissionId: Uuid) returns (e: Ending)
      modifies this
      ensures e == Done ==> working == old(working).(grants := old(working).grants + {(roleId, permissionId)})
    {
      e := Call();
      if e == Done {
        working := working.(grants := working.grants + {(roleId, permissionId)});
      }
    }

    /** Save the role's row, then each permission of the entity and the row that grants it. */
    method Save(ids: Ids, name: string, row: RoleRow, permissions: seq<Pair>) returns (e: Ending)
      requires name in working.roles ==> row.id == working.roles[name].id
      modifies this
      ensures e == Done ==>
        working == GrantedAll(old(working).(roles := old(working).roles[name := row]), ids, name, row.id, permissions)
    {
      ghost var start := working.(roles := working.roles[name := row]);
      e := UpsertRole(name, row);
      if e != Done {
        return;
      }
      for i := 0 to |permissions|
        invariant e == Done && working == GrantedAll(start, ids, name, row.id, permissions[..i])
      {
        var p := permissions[i];
        assert permissions[..i + 1][..i] == permissions[..i];
        var id;
        id, e := UpsertPermission(PermissionName(p), PermissionRow(ids.permissionId(name, PermissionName(p)), p));
        if e != Done {
          return;
        }
        e := AddPermissionToRole(row.id, id);
        if e != Done {
          return;
        }
      }
      assert permissions[..|permissions|] == permissions;
    }
  }

  /** The function run inside the transaction. */
  method SyncRoles(tx: RoleTransaction, ids: Ids, now: Time, desired: seq<Declared>) returns (e: Ending)
    requires Sound(tx.working)
    modifies tx
    ensures e == Done ==> tx.working == Seeded(old(tx.working), ids, now, desired)
  {
    var existing;
    existing, e := tx.FindAll();
    if e != Done {
      return;
    }
    var names := set d | d in desired :: d.name;
    var obsolete := existing - names;
    if obsolete != {} {
      e := tx.DeleteByNames(obsolete);
      if e != Done {
        return;
      }
    } else {
      assert forall n | n in existing :: n in obsolete || n in names;
      NothingObsolete(tx.working, names);
    }
    ghost var start := DropObsolete(old(tx.working), Names(desired));
    SameDrop(old(tx.working), names);
    for i := 0 to |desired|
      invariant e == Done && tx.working == SeededRoles(start, ids, now, desired[..i])
    {
      assert desired[..i + 1][..i] == desired[..i];
      e := SyncRole(tx, ids, now, desired[i]);
      if e != Done {
        return;
      }
    }
    assert desired[..|desired|] == desired;
  }

  /** Dropping by the names to delete is dropping by the names to keep. */
  lemma SameDrop(db: Tables, names: set<string>)
    ensures DropObsolete(db, db.roles.Keys - (db.roles.Keys - names)) == DropObsolete(db, names)
  {
    var a, b := DropObsolete(db, db.roles.Keys - (db.roles.Keys - names)), DropObsolete(db, names);
    assert a.roles == b.roles;
  }

  method SyncRole(tx: RoleTransaction, ids: Ids, now: Time, d: Declared) returns (e: Ending)
    modifies tx
    ensures e == Done ==> tx.working == SeededRole(old(tx.working), ids, now, d)
  {
    var role;
    role, e := tx.FindByName(d.name);
    if e != Done {
      return;
    }
    var id := if role.None? then ids.roleId(d.name) else role.value.id;
    e := tx.RemoveAllPermissions(id);
    if e != Done {
      return;
    }
    e := tx.Save(ids, d.name, RoleRow(id, d.description, now), d.permissions);
  }

  /**
    Begin, run, then commit or roll back. A panic rolls back and goes on; only a commit that reaches the
    database changes it.
   */
  method RunInTransaction(db: Database, ids: Ids, now: Time, desired: seq<Declared>, begin: Fault, faults: nat -> Fault,
                          commit: CommitOutcome)
    returns (e: Ending)
    requires Sound(db.committed)
    modifies db
    ensures e == Done ==> db.committed == Seeded(old(db.committed), ids, now, desired)
    ensures e != Done ==>
      db.committed == old(db.committed) || (commit == AnswerLost && db.committed == Seeded(old(db.committed), ids, now, desired))
  {
    if begin != Fine {
      return if begin == Fails then Failed else Panicked;
    }
    var tx := new RoleTransaction(db.committed, faults);
    e := SyncRoles(tx, ids, now, desired);
    if e != Done {
      return;
    }
    if commit == Refused {
      return Failed;
    }
    if commit == Crashes {
      return Panicked;
    }
    db.committed := tx.working;
    if commit == AnswerLost {
      return Failed;
    }
  }

  /** The declared roles exactly, each in sync, those that were there before under their old IDs. */
  ghost predicate DeclaredExactly(before: Tables, after: Tables) {
    && Sound(after) && after.roles.Keys == Names(DECLARED)
    && (forall d | d in DECLARED :: Synced(after, d))
    && (forall n | n in before.roles && n in Names(DECLARED) :: after.roles[n].id == before.roles[n].id)
  }

  /** All or nothing: the declared roles exactly, or the database as it was. An error means nothing, unless only the answer was lost. */
  method SeedSystemRoles(db: Database, ids: Ids, now: Time, begin: Fault, faults: nat -> Fault, commit: CommitOutcome) returns (e: Ending)
    requires Sound(db.committed) && Fresh(db.committed, ids)
    modifies db
    ensures e == Done ==> DeclaredExactly(old(db.committed), db.committed)
    ensures e != Done ==>
      db.committed == old(db.committed) || (commit == AnswerLost && DeclaredExactly(old(db.committed), db.committed))
  {
    DeclaredWellFormed();
    SeedingExact(db.committed, ids, now, DECLARED);
    e := RunInTransaction(db, ids, now, DECLARED, begin, faults, commit);
  }
}
