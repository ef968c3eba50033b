/**
 * The one-off migration script (migrate.py) that copies the JSON users file and the per-user
 * project files into the tables. It differs from `save_project` in three ways: a user already
 * present is skipped (`INSERT IGNORE`), a project already present only gets a new modification
 * time and keeps its old rooms (nothing is deleted first), and material rows leave the "type"
 * column NULL.
 */
module Migrate {
  import opened Wrappers
  import opened Dicts
  import opened Strings
  import opened Document
  import opened Db
  import opened DbInvariants

  // ---------------------------------------------------------------- migrate_users

  /** `INSERT IGNORE` of one user: a name already in the table keeps its row and stored hash. */
  function UserInserted(t: Tables, name: string, passwordHash: string): Tables {
    if UserIdIn(t.users, name).Some? then t
    else t.(users := t.users + [UserRow(t.nextUser, name, passwordHash)], nextUser := t.nextUser + 1)
  }

  /** `migrate_users`: the users file's entries in order; the password hash is a parameter. */
  function UsersMigrated(t: Tables, file: Dict<string>, hash: string -> string): Tables {
    if file == [] then t
    else
      var n := |file| - 1;
      UserInserted(UsersMigrated(t, file[..n], hash), file[n].0, hash(file[n].1))
  }

  /** One insert-ignore keeps the schema's invariants: a new row gets a fresh id and a new name. */
  lemma UserInsertedValid(t: Tables, name: string, passwordHash: string)
    requires Valid(t)
    ensures Valid(UserInserted(t, name, passwordHash))
  {
    if UserIdIn(t.users, name).None? {
      var after := UserInserted(t, name, passwordHash);
      assert after.users[|t.users|].username == name;
      assert forall i :: 0 <= i < |t.users| ==> after.users[i] == t.users[i];
    }
  }

  /**
   * One insert-ignore keeps the old rows as a prefix, leaves the name with a row and changes
   * nothing but the users table and its counter.
   */
  lemma {:induction false} UserInsertedFacts(t: Tables, name: string, passwordHash: string)
    ensures var after := UserInserted(t, name, passwordHash);
      && |t.users| <= |after.users| && after.users[..|t.users|] == t.users
      && UserIdIn(after.users, name).Some?
      && after.(users := t.users, nextUser := t.nextUser) == t
  {
    var after := UserInserted(t, name, passwordHash);
    if UserIdIn(t.users, name).None? {
      assert after.users[|t.users|].username == name;
      assert after.users[..|t.users|] == t.users;
    }
  }

  /** A name that has a row keeps one when another row is appended before it in the table. */
  lemma {:induction false} UserStillPresent(users: seq<UserRow>, more: seq<UserRow>, name: string)
    requires |users| <= |more| && more[..|users|] == users
    requires UserIdIn(users, name).Some?
    ensures UserIdIn(more, name).Some?
  {
    var u :| u in users && u.username == name;
    var k :| 0 <= k < |users| && users[k] == u;
    assert more[k] == u;
  }

  lemma PrefixOfPrefix(a: seq<UserRow>, b: seq<UserRow>, c: seq<UserRow>)
    requires |a| <= |b| && b[..|a|] == a && |b| <= |c| && c[..|b|] == b
    ensures |a| <= |c| && c[..|a|] == a
  {
    assert forall i :: 0 <= i < |a| ==> c[i] == b[i];
  }

  /** `migrate_users` keeps the schema's invariants. */
  lemma {:induction false} UsersMigratedValid(t: Tables, file: Dict<string>, hash: string -> string)
    requires Valid(t)
    ensures Valid(UsersMigrated(t, file, hash))
  {
    if file != [] {
      var n := |file| - 1;
      UsersMigratedValid(t, file[..n], hash);
      UserInsertedValid(UsersMigrated(t, file[..n], hash), file[n].0, hash(file[n].1));
    }
  }

  /**
   * `migrate_users` keeps every existing user row (and so its stored hash) in place and changes
   * nothing but the users table and its counter.
   */
  lemma {:induction false} UsersMigratedKeeps(t: Tables, file: Dict<string>, hash: string -> string)
    ensures var after := UsersMigrated(t, file, hash);
      && |t.users| <= |after.users| && after.users[..|t.users|] == t.users
      && after.(users := t.users, nextUser := t.nextUser) == t
  {
    if file != [] {
      var n := |file| - 1;
      var prev := UsersMigrated(t, file[..n], hash);
      UsersMigratedKeeps(t, file[..n], hash);
      UserInsertedFacts(prev, file[n].0, hash(file[n].1));
      PrefixOfPrefix(t.users, prev.users, UserInserted(prev, file[n].0, hash(file[n].1)).users);
    }
  }

  /** The last name of the users file has a row after its own insert. */
  lemma {:induction false} UsersMigratedHasLast(t: Tables, file: Dict<string>, hash: string -> string)
    requires file != []
    ensures UserIdIn(UsersMigrated(t, file, hash).users, file[|file| - 1].0).Some?
  {
    var n := |file| - 1;
    UserInsertedFacts(UsersMigrated(t, file[..n], hash), file[n].0, hash(file[n].1));
  }

  /** The rows before the last insert stay a prefix of the users table. */
  lemma {:induction false} UsersMigratedStep(t: Tables, file: Dict<string>, hash: string -> string)
    requires file != []
    ensures var prev := UsersMigrated(t, file[..|file| - 1], hash).users;
      var users := UsersMigrated(t, file, hash).users;
      |prev| <= |users| && users[..|prev|] == prev
  {
    var n := |file| - 1;
    UserInsertedFacts(UsersMigrated(t, file[..n], hash), file[n].0, hash(file[n].1));
  }

  /** After `migrate_users` every name of the users file has a row. */
  lemma {:induction false} UsersMigratedHas(t: Tables, file: Dict<string>, hash: string -> string, k: nat)
    requires k < |file|
    ensures UserIdIn(UsersMigrated(t, file, hash).users, file[k].0).Some?
  {
    var n := |file| - 1;
    if k == n {
      UsersMigratedHasLast(t, file, hash);
    } else {
      UsersMigratedHas(t, file[..n], hash, k);
      assert file[..n][k] == file[k];
      UsersMigratedStep(t, file, hash);
      UserStillPresent(UsersMigrated(t, file[..n], hash).users, UsersMigrated(t, file, hash).users, file[k].0);
    }
  }

  // ---------------------------------------------------------------- migrate_project

  /** The project upsert of the migration: a duplicate only takes the new modification time. */
  function MigrateUpserted(t: Tables, uid: nat, name: string, now: string): Tables {
    match ProjectIndex(t.projects, uid, name)
    case Some(i) => t.(projects := t.projects[i := t.projects[i].(lastModified := now)])
    case None =>
      t.(projects := t.projects + [ProjectRow(t.nextProject, uid, name, now, now, None, None)],
         nextProject := t.nextProject + 1)
  }

  /** The migrated project's row can be found after the upsert. */
  lemma {:induction false} MigrateUpsertFinds(t: Tables, uid: nat, name: string, now: string)
    ensures ProjectIndex(MigrateUpserted(t, uid, name, now).projects, uid, name).Some?
  {
    var ps := MigrateUpserted(t, uid, name, now).projects;
    match ProjectIndex(t.projects, uid, name)
    case Some(i) =>
      assert ps[i].userId == uid && ps[i].name == name;
    case None =>
      assert ps[|t.projects|].userId == uid && ps[|t.projects|].name == name;
  }

  function MigratedId(t: Tables, uid: nat, name: string, now: string): nat {
    var t1 := MigrateUpserted(t, uid, name, now);
    MigrateUpsertFinds(t, uid, name, now);
    t1.projects[ProjectIndex(t1.projects, uid, name).value].id
  }

  /**
   * `migrate_project`: nothing for an unknown user; otherwise the upsert, then the rooms,
   * elements and non-empty material choices appended without the "type" column.
   */
  function ProjectMigrated(t: Tables, username: string, projectName: string, doc: Project, now: string): Tables {
    var uid := UserIdIn(t.users, username);
    if !Known(uid) then t
    else
      var pid := MigratedId(t, uid.value, projectName, now);
      Inserted(MigrateUpserted(t, uid.value, projectName, now), pid, doc.rooms.GetOr([]), doc.elementMaterials.GetOr([]), false)
  }

  /** An unknown user's project is not migrated: the tables stay as they were. */
  lemma UnknownUserNotMigrated(t: Tables, username: string, projectName: string, doc: Project, now: string)
    requires !Known(UserIdIn(t.users, username))
    ensures ProjectMigrated(t, username, projectName, doc, now) == t
  {
  }

  /**
   * The upsert of the migration: the row under the (user, name) key keeps everything but its
   * modification time, which becomes `now`; a new row has `now` for both times and no house
   * type or bedroom count. No other row changes.
   */
  lemma {:induction false} MigrateUpsertRow(t: Tables, uid: nat, name: string, now: string)
    ensures var ps := MigrateUpserted(t, uid, name, now).projects;
      var i := ProjectIndex(ps, uid, name);
      && i.Some?
      && (forall j :: 0 <= j < |t.projects| && j != i.value ==> ps[j] == t.projects[j])
      && match ProjectIndex(t.projects, uid, name)
         case Some(j) => i.value == j && |ps| == |t.projects| && ps[j] == t.projects[j].(lastModified := now)
         case None => i.value == |t.projects| == |ps| - 1 && ps[i.value] == ProjectRow(t.nextProject, uid, name, now, now, None, None)
  {
    var ps := MigrateUpserted(t, uid, name, now).projects;
    MigrateUpsertFinds(t, uid, name, now);
    var i := ProjectIndex(ps, uid, name).value;
    match ProjectIndex(t.projects, uid, name)
    case Some(j) =>
      assert ps[j].userId == uid && ps[j].name == name;
      assert i == j;
    case None =>
      assert i == |t.projects|;
  }

  lemma MigrateUpsertKeepsValid(t: Tables, uid: nat, name: string, now: string)
    requires Valid(t)
    ensures Valid(MigrateUpserted(t, uid, name, now))
  {
    match ProjectIndex(t.projects, uid, name)
    case Some(i) =>
      ProjectRewriteKeepsValid(t, i, t.projects[i].(lastModified := now));
    case None =>
      ProjectAppendKeepsValid(t, ProjectRow(t.nextProject, uid, name, now, now, None, None));
  }

  /** `migrate_project` keeps the schema's invariants. */
  lemma ProjectMigratedValid(t: Tables, username: string, projectName: string, doc: Project, now: string)
    requires Valid(t)
    ensures Valid(ProjectMigrated(t, username, projectName, doc, now))
  {
    var uid := UserIdIn(t.users, username);
    if Known(uid) {
      MigrateUpsertKeepsValid(t, uid.value, projectName, now);
      InsertKeepsValid(MigrateUpserted(t, uid.value, projectName, now), MigratedId(t, uid.value, projectName, now),
        doc.rooms.GetOr([]), doc.elementMaterials.GetOr([]), false);
    }
  }

  /** The "type" column is filled exactly when `withType` is set. */
  lemma {:induction false} CategoryRowsTyped(eid: nat, cm: CategoryMaterials, cats: seq<string>, withType: bool)
    ensures forall m :: m in CategoryRows(eid, cm, cats, withType) ==> (m.kind.Some? <==> withType)
  {
    if cats != [] {
      CategoryRowsTyped(eid, cm, cats[..|cats| - 1], withType);
    }
  }

  lemma {:induction false} MaterialRowsTyped(units: seq<Unit>, em: ElementMaterials, base: nat, withType: bool)
    ensures forall m :: m in MaterialRowsOf(units, em, base, withType) ==> (m.kind.Some? <==> withType)
  {
    if units != [] {
      var n := |units| - 1;
      MaterialRowsTyped(units[..n], em, base, withType);
      CategoryRowsTyped(base + n, GetOr(em, MaterialKey(units[n].id), []), Categories, withType);
    }
  }

  /**
   * The migration only appends: the old room, element and material rows stay as a prefix, area
   * rows and users are untouched, and every material row it adds has no "type".
   */
  lemma MigrateAppends(t: Tables, username: string, projectName: string, doc: Project, now: string)
    ensures var after := ProjectMigrated(t, username, projectName, doc, now);
      && after.users == t.users && after.areas == t.areas
      && |t.rooms| <= |after.rooms| && after.rooms[..|t.rooms|] == t.rooms
      && |t.elements| <= |after.elements| && after.elements[..|t.elements|] == t.elements
      && |t.materials| <= |after.materials| && after.materials[..|t.materials|] == t.materials
      && (forall k :: |t.materials| <= k < |after.materials| ==> after.materials[k].kind.None?)
  {
    var uid := UserIdIn(t.users, username);
    if Known(uid) {
      var t1 := MigrateUpserted(t, uid.value, projectName, now);
      var added := MaterialRowsOf(Flatten(doc.rooms.GetOr([])), doc.elementMaterials.GetOr([]), t1.nextElement, false);
      MaterialRowsTyped(Flatten(doc.rooms.GetOr([])), doc.elementMaterials.GetOr([]), t1.nextElement, false);
      var after := ProjectMigrated(t, username, projectName, doc, now);
      assert after.materials == t.materials + added;
      forall k | |t.materials| <= k < |after.materials|
        ensures after.materials[k].kind.None?
      {
        assert after.materials[k] == added[k - |t.materials|];
        assert added[k - |t.materials|] in added;
      }
    }
  }

  /** What one migration of a known user's project leaves in the projects and rooms. */
  lemma {:induction false} MigratedShape(t: Tables, username: string, projectName: string, doc: Project, now: string)
    requires Known(UserIdIn(t.users, username))
    ensures var uid := UserIdIn(t.users, username).value;
      var after := ProjectMigrated(t, username, projectName, doc, now);
      && after.users == t.users
      && after.projects == MigrateUpserted(t, uid, projectName, now).projects
      && after.rooms == t.rooms + RoomRowsOf(MigratedId(t, uid, projectName, now), doc.rooms.GetOr([]), t.nextRoom)
      && after.nextRoom == t.nextRoom + |doc.rooms.GetOr([])|
  {
  }

  /** The room rows one migration of a known user's project appends. */
  lemma {:induction false} MigratedRooms(t: Tables, username: string, projectName: string, doc: Project, now: string, uid: nat)
    requires Known(UserIdIn(t.users, username)) && uid == UserIdIn(t.users, username).value
    ensures var after := ProjectMigrated(t, username, projectName, doc, now);
      && after.rooms == t.rooms + RoomRowsOf(MigratedId(t, uid, projectName, now), doc.rooms.GetOr([]), t.nextRoom)
      && after.nextRoom == t.nextRoom + |doc.rooms.GetOr([])|
      && after.users == t.users
  {
    MigratedShape(t, username, projectName, doc, now);
  }

  /** The id part of `MigratedAgainSameId`. */
  lemma {:induction false} MigratedIdAgain(t: Tables, username: string, projectName: string, doc: Project, now1: string, now2: string, uid: nat)
    requires Known(UserIdIn(t.users, username)) && uid == UserIdIn(t.users, username).value
    ensures MigratedId(ProjectMigrated(t, username, projectName, doc, now1), uid, projectName, now2) == MigratedId(t, uid, projectName, now1)
  {
    MigratedAgainSameId(t, username, projectName, doc, now1, now2);
  }

  /** A second migration finds the project row the first one wrote. */
  lemma {:induction false} MigratedAgainSameId(t: Tables, username: string, projectName: string, doc: Project, now1: string, now2: string)
    requires Known(UserIdIn(t.users, username))
    ensures var uid := UserIdIn(t.users, username).value;
      var once := ProjectMigrated(t, username, projectName, doc, now1);
      && |MigrateUpserted(once, uid, projectName, now2).projects| == |once.projects|
      && MigratedId(once, uid, projectName, now2) == MigratedId(t, uid, projectName, now1)
  {
    var uid := UserIdIn(t.users, username).value;
    var once := ProjectMigrated(t, username, projectName, doc, now1);
    MigratedShape(t, username, projectName, doc, now1);
    MigrateUpsertRow(t, uid, projectName, now1);
    MigrateUpsertRow(once, uid, projectName, now2);
  }

  /** `MigratedRooms` with the rows before, the project id and the first room id named. */
  lemma {:induction false} MigratedRoomsAt(t: Tables, username: string, projectName: string, doc: Project, now: string, uid: nat,
                        before: seq<RoomRow>, pid: nat, base: nat)
    requires Known(UserIdIn(t.users, username)) && uid == UserIdIn(t.users, username).value
    requires before == t.rooms && pid == MigratedId(t, uid, projectName, now) && base == t.nextRoom
    ensures ProjectMigrated(t, username, projectName, doc, now).rooms == before + RoomRowsOf(pid, doc.rooms.GetOr([]), base)
  {
    MigratedRooms(t, username, projectName, doc, now, uid);
  }

  /** Migrating the same project twice keeps one project row for it. */
  lemma {:induction false} MigrateTwiceOneRow(t: Tables, username: string, projectName: string, doc: Project, now1: string, now2: string)
    requires Known(UserIdIn(t.users, username))
    ensures var once := ProjectMigrated(t, username, projectName, doc, now1);
      |ProjectMigrated(once, username, projectName, doc, now2).projects| == |once.projects|
  {
    var uid := UserIdIn(t.users, username).value;
    var once := ProjectMigrated(t, username, projectName, doc, now1);
    MigratedShape(t, username, projectName, doc, now1);
    MigratedAgainSameId(t, username, projectName, doc, now1, now2);
    MigratedShape(once, username, projectName, doc, now2);
  }

  /**
   * Migrating the same project twice appends its rooms twice: the rooms table ends with two
   * copies of the document's rooms, both under the project's id.
   */
  lemma {:induction false} MigrateTwiceDuplicates(t: Tables, username: string, projectName: string, doc: Project, now1: string, now2: string, uid: nat)
    requires Known(UserIdIn(t.users, username)) && uid == UserIdIn(t.users, username).value
    ensures var rs := doc.rooms.GetOr([]);
      var pid := MigratedId(t, uid, projectName, now1);
      var once := ProjectMigrated(t, username, projectName, doc, now1);
      ProjectMigrated(once, username, projectName, doc, now2).rooms
        == t.rooms + RoomRowsOf(pid, rs, t.nextRoom) + RoomRowsOf(pid, rs, t.nextRoom + |rs|)
  {
    var once := ProjectMigrated(t, username, projectName, doc, now1);
    var rs := doc.rooms.GetOr([]);
    var pid := MigratedId(t, uid, projectName, now1);
    MigratedRooms(t, username, projectName, doc, now1, uid);
    MigratedIdAgain(t, username, projectName, doc, now1, now2, uid);
    MigratedRoomsAt(once, username, projectName, doc, now2, uid, t.rooms + RoomRowsOf(pid, rs, t.nextRoom), pid, t.nextRoom + |rs|);
  }

  // ---------------------------------------------------------------- the script's main block

  /** The ".json" files of one user directory, migrated in listing order. */
  function FilesMigrated(t: Tables, username: string, files: Dict<Project>, now: string): Tables {
    if files == [] then t
    else
      var n := |files| - 1;
      var prev := FilesMigrated(t, username, files[..n], now);
      var (file, doc) := files[n];
      if EndsWith(file, ".json") then ProjectMigrated(prev, username, ProjectNameOf(file), doc, now) else prev
  }

  /** Every user directory in listing order. */
  function DirsMigrated(t: Tables, dirs: seq<(string, Dict<Project>)>, now: string): Tables {
    if dirs == [] then t
    else
      var n := |dirs| - 1;
      FilesMigrated(DirsMigrated(t, dirs[..n], now), dirs[n].0, dirs[n].1, now)
  }

  /** Every ".json" file the migration reads holds its Bunk Beds as sections; other files are never opened. */
  predicate DirsReadable(dirs: seq<(string, Dict<Project>)>) {
    forall i, j :: 0 <= i < |dirs| && 0 <= j < |dirs[i].1| && EndsWith(dirs[i].1[j].0, ".json") ==>
      BunkBedsSectioned(dirs[i].1[j].1.rooms.GetOr([]))
  }

  /** The whole migration keeps the schema's invariants. */
  lemma {:induction false} DirsMigratedValid(t: Tables, dirs: seq<(string, Dict<Project>)>, now: string)
    requires Valid(t)
    ensures Valid(DirsMigrated(t, dirs, now))
  {
    if dirs != [] {
      var n := |dirs| - 1;
      DirsMigratedValid(t, dirs[..n], now);
      FilesMigratedValid(DirsMigrated(t, dirs[..n], now), dirs[n].0, dirs[n].1, now);
    }
  }

  lemma {:induction false} FilesMigratedValid(t: Tables, username: string, files: Dict<Project>, now: string)
    requires Valid(t)
    ensures Valid(FilesMigrated(t, username, files, now))
  {
    if files != [] {
      var n := |files| - 1;
      FilesMigratedValid(t, username, files[..n], now);
      ProjectMigratedValid(FilesMigrated(t, username, files[..n], now), username, ProjectNameOf(files[n].0), files[n].1, now);
    }
  }

  // ---------------------------------------------------------------- the script as statements

  /** `migrate_users` on the database. */
  method MigrateUsers(db: Database, file: Dict<string>, hash: string -> string)
    modifies db
    ensures db.State() == UsersMigrated(old(db.State()), file, hash)
  {
    ghost var t := db.State();
    for k := 0 to |file|
      invariant db.State() == UsersMigrated(t, file[..k], hash)
    {
      assert file[..k + 1][..k] == file[..k];
      var (name, password) := file[k];
      var found := UserIdIn(db.users, name);
      if found.None? {
        db.users := db.users + [UserRow(db.nextUser, name, hash(password))];
        db.nextUser := db.nextUser + 1;
      }
    }
    assert file[..|file|] == file;
  }

  /** `migrate_project` on the database. */
  method MigrateProject(db: Database, username: string, projectName: string, doc: Project, now: string)
    requires BunkBedsSectioned(doc.rooms.GetOr([]))
    modifies db
    ensures db.State() == ProjectMigrated(old(db.State()), username, projectName, doc, now)
  {
    var uid := UserIdIn(db.users, username);
    if !Known(uid) {
      return;
    }
    ghost var t := db.State();
    var i := ProjectIndex(db.projects, uid.value, projectName);
    if i.Some? {
      db.projects := db.projects[i.value := db.projects[i.value].(lastModified := now)];
    } else {
      db.projects := db.projects + [ProjectRow(db.nextProject, uid.value, projectName, now, now, None, None)];
      db.nextProject := db.nextProject + 1;
    }
    assert db.State() == MigrateUpserted(t, uid.value, projectName, now);
    MigrateUpsertFinds(t, uid.value, projectName, now);
    var j := ProjectIndex(db.projects, uid.value, projectName);
    var pid := db.projects[j.value].id;
    db.InsertDocument(pid, doc.rooms.GetOr([]), doc.elementMaterials.GetOr([]), false);
  }

  /** The script's main block: the users file first, then every ".json" file of every user directory. */
  method MigrateAll(db: Database, usersFile: Dict<string>, hash: string -> string, dirs: seq<(string, Dict<Project>)>, now: string)
    requires DirsReadable(dirs)
    modifies db
    ensures db.State() == DirsMigrated(UsersMigrated(old(db.State()), usersFile, hash), dirs, now)
  {
    MigrateUsers(db, usersFile, hash);
    ghost var t := db.State();
    for i := 0 to |dirs|
      invariant db.State() == DirsMigrated(t, dirs[..i], now)
    {
      assert dirs[..i + 1][..i] == dirs[..i];
      var (username, files) := dirs[i];
      ghost var t0 := db.State();
      for j := 0 to |files|
        invariant db.State() == FilesMigrated(t0, username, files[..j], now)
      {
        assert files[..j + 1][..j] == files[..j];
        var (file, doc) := files[j];
        if EndsWith(file, ".json") {
          MigrateProject(db, username, ProjectNameOf(file), doc, now);
        }
      }
      assert files[..|files|] == files;
    }
    assert dirs[..|dirs|] == dirs;
  }
}
