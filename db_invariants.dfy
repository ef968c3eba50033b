/**
 * What the persistence layer (utils/db.py) keeps true across its writes: every save leaves the
 * schema's keys and references intact, a second save of the same project replaces the first,
 * a saved project is listed once under its name, and the area upsert keeps one row per
 * (element, section) with the last areas written.
 */
module DbInvariants {
  import opened Wrappers
  import opened Dicts
  import opened Document
  import opened Db
  import opened DbRoundTrip

  // ---------------------------------------------------------------- the inserted rows

  /** Every material row of one element refers to that element. */
  lemma {:induction false} CategoryRowsOwn(eid: nat, cm: CategoryMaterials, cats: seq<string>, withType: bool)
    ensures forall m :: m in CategoryRows(eid, cm, cats, withType) ==> m.elementId == eid
  {
    if cats != [] {
      CategoryRowsOwn(eid, cm, cats[..|cats| - 1], withType);
    }
  }

  /** The material rows inserted for `units` refer to the element ids handed out for them. */
  lemma {:induction false} MaterialRowsBounds(units: seq<Unit>, em: ElementMaterials, base: nat, withType: bool)
    ensures forall m :: m in MaterialRowsOf(units, em, base, withType) ==> base <= m.elementId < base + |units|
    ensures |MaterialRowsOf(units, em, base, withType)| <= |Categories| * |units|
  {
    if units != [] {
      var n := |units| - 1;
      MaterialRowsBounds(units[..n], em, base, withType);
      CategoryRowsOwn(base + n, GetOr(em, MaterialKey(units[n].id), []), Categories, withType);
    }
  }

  /** The element rows inserted for `units` take ids from `base` on and refer to the new rooms. */
  lemma {:induction false} ElementRowsBounds(units: seq<Unit>, rb: nat, eb: nat, roomCount: nat)
    requires forall u :: u in units ==> u.roomIndex < roomCount
    ensures forall e :: e in ElementRowsOf(units, rb, eb) ==> eb <= e.id < eb + |units| && e.roomId < rb + roomCount
  {
    if units != [] {
      var n := |units| - 1;
      assert units[n] in units;
      assert forall u :: u in units[..n] ==> u in units;
      ElementRowsBounds(units[..n], rb, eb, roomCount);
    }
  }

  /** The room rows inserted for `rs` take ids from `base` on. */
  lemma {:induction false} RoomRowsBounds(pid: nat, rs: Rooms, base: nat)
    ensures forall r :: r in RoomRowsOf(pid, rs, base) ==> r.projectId == pid && base <= r.id < base + |rs|
  {
    RoomRowsShape(pid, rs, base);
  }

  // ---------------------------------------------------------------- Valid across the writes

  /** Rewriting one project row's non-key columns keeps the schema's invariants. */
  lemma ProjectRewriteKeepsValid(t: Tables, i: nat, p: ProjectRow)
    requires Valid(t) && i < |t.projects|
    requires p.id == t.projects[i].id && p.userId == t.projects[i].userId && p.name == t.projects[i].name
    ensures Valid(t.(projects := t.projects[i := p]))
  {
    var ps := t.projects[i := p];
    assert forall j :: 0 <= j < |ps| ==>
      ps[j].id == t.projects[j].id && ps[j].userId == t.projects[j].userId && ps[j].name == t.projects[j].name;
    assert forall q :: q in ps ==> exists j :: 0 <= j < |ps| && ps[j] == q;
  }

  /** Appending a project row with the next id and a new (user, name) pair keeps the invariants. */
  lemma ProjectAppendKeepsValid(t: Tables, p: ProjectRow)
    requires Valid(t) && p.id == t.nextProject
    requires ProjectIndex(t.projects, p.userId, p.name).None?
    ensures Valid(t.(projects := t.projects + [p], nextProject := t.nextProject + 1))
  {
    var ps := t.projects + [p];
    assert forall j :: 0 <= j < |t.projects| ==> ps[j] == t.projects[j];
  }

  /** The project upsert keeps ids below the counter and (user, name) pairs unique. */
  lemma UpsertKeepsValid(t: Tables, uid: nat, name: string, now: string, houseType: Option<string>, numBedrooms: Option<int>)
    requires Valid(t)
    ensures Valid(Upserted(t, uid, name, now, houseType, numBedrooms))
  {
    match ProjectIndex(t.projects, uid, name)
    case Some(i) =>
      ProjectRewriteKeepsValid(t, i, t.projects[i].(lastModified := now, houseType := houseType, numBedrooms := numBedrooms));
    case None =>
      ProjectAppendKeepsValid(t, ProjectRow(t.nextProject, uid, name, now, now, houseType, numBedrooms));
  }

  /** The DELETEs only remove rows. */
  lemma ClearKeepsValid(t: Tables, pid: nat)
    requires Valid(t)
    ensures Valid(Cleared(t, pid))
  {
    var elementIds := ElementIdsIn(t.elements, RoomIdsOf(t.rooms, pid));
    FilterMembers(t.rooms, RoomOfOther(pid));
    FilterMembers(t.elements, ElementOutside(elementIds));
    FilterMembers(t.materials, MaterialOutside(elementIds));
  }

  /** The INSERT loops hand out fresh ids and refer only to rows inserted before. */
  lemma InsertKeepsValid(t: Tables, pid: nat, rs: Rooms, em: ElementMaterials, withType: bool)
    requires Valid(t)
    ensures Valid(Inserted(t, pid, rs, em, withType))
  {
    var units := Flatten(rs);
    RoomRowsBounds(pid, rs, t.nextRoom);
    FlattenIn(rs);
    ElementRowsBounds(units, t.nextRoom, t.nextElement, |rs|);
    MaterialRowsBounds(units, em, t.nextElement, withType);
  }

  /** `save_project` keeps the schema's invariants and never touches the users. */
  lemma SavedValid(t: Tables, username: string, projectName: string, doc: Project, now: string)
    requires Valid(t)
    ensures Valid(Saved(t, username, projectName, doc, now).0)
    ensures Saved(t, username, projectName, doc, now).0.users == t.users
  {
    var uid := UserIdIn(t.users, username);
    if Known(uid) {
      var t1 := Upserted(t, uid.value, projectName, now, doc.houseType, doc.numBedrooms);
      var pid := UpsertedId(t, uid.value, projectName, now, doc.houseType, doc.numBedrooms);
      UpsertKeepsValid(t, uid.value, projectName, now, doc.houseType, doc.numBedrooms);
      ClearKeepsValid(t1, pid);
      InsertKeepsValid(Cleared(t1, pid), pid, doc.rooms.GetOr([]), doc.elementMaterials.GetOr([]), true);
    }
  }

  /**
   * A second save of the same project replaces the first wholesale: loading it gives what
   * saving only the second document would have given.
   */
  lemma {:induction false} SaveReplaces(t: Tables, username: string, projectName: string, first: Project, second: Project, now1: string, now2: string)
    requires Valid(t) && Known(UserIdIn(t.users, username))
    requires BunkBedsSectioned(first.rooms.GetOr([])) && BunkBedsSectioned(second.rooms.GetOr([]))
    requires Restorable(second.rooms.GetOr([])) && UnitKeysDistinct(Flatten(second.rooms.GetOr([])))
    ensures var once := Saved(t, username, projectName, second, now2).0;
      var twice := Saved(Saved(t, username, projectName, first, now1).0, username, projectName, second, now2).0;
      Loaded(twice, username, projectName) == Loaded(once, username, projectName)
  {
    var t1 := Saved(t, username, projectName, first, now1).0;
    SavedValid(t, username, projectName, first, now1);
    SaveThenLoad(t1, username, projectName, second, now2);
    SaveThenLoad(t, username, projectName, second, now2);
  }

  // ---------------------------------------------------------------- list after save

  lemma {:induction false} ListingOfHas(ps: seq<ProjectRow>, uid: nat, j: nat)
    requires j < |ps| && ps[j].userId == uid
    ensures Listing(ps[j].name, ps[j].createdAt, ps[j].lastModified) in ListingOf(ps, uid)
  {
    var n := |ps| - 1;
    if j < n {
      ListingOfHas(ps[..n], uid, j);
    }
  }

  /** Rewriting one row in place, under the same user, keeps the listing's length. */
  lemma {:induction false} ListingOfUpdate(ps: seq<ProjectRow>, uid: nat, j: nat, p: ProjectRow)
    requires j < |ps| && p.userId == ps[j].userId
    ensures |ListingOf(ps[j := p], uid)| == |ListingOf(ps, uid)|
  {
    var n := |ps| - 1;
    if j < n {
      assert ps[j := p][..n] == ps[..n][j := p];
      ListingOfUpdate(ps[..n], uid, j, p);
    } else {
      assert ps[j := p][..n] == ps[..n];
    }
  }

  lemma {:induction false} ListingOfAppend(ps: seq<ProjectRow>, uid: nat, p: ProjectRow)
    requires p.userId == uid
    ensures |ListingOf(ps + [p], uid)| == |ListingOf(ps, uid)| + 1
  {
    assert (ps + [p])[..|ps|] == ps;
  }

  /**
   * After a save by a known user the project is listed under its name with the save time as
   * its modification time, and the listing grows by one exactly when the name was new.
   */
  lemma {:induction false} SaveThenList(t: Tables, username: string, projectName: string, doc: Project, now: string)
    requires Known(UserIdIn(t.users, username))
    ensures var after := Listed(Saved(t, username, projectName, doc, now).0, username);
      && (exists created :: Listing(projectName, created, now) in after)
      && |after| == |Listed(t, username)| + (if ProjectIndex(t.projects, UserIdIn(t.users, username).value, projectName).None? then 1 else 0)
  {
    var uid := UserIdIn(t.users, username).value;
    var t1 := Upserted(t, uid, projectName, now, doc.houseType, doc.numBedrooms);
    var pid := UpsertedId(t, uid, projectName, now, doc.houseType, doc.numBedrooms);
    var t3 := Inserted(Cleared(t1, pid), pid, doc.rooms.GetOr([]), doc.elementMaterials.GetOr([]), true);
    assert Saved(t, username, projectName, doc, now).0 == t3;
    assert t3.users == t.users && t3.projects == t1.projects;
    UpsertedRow(t, uid, projectName, now, doc.houseType, doc.numBedrooms);
    var i := ProjectIndex(t1.projects, uid, projectName).value;
    ListingOfHas(t1.projects, uid, i);
    match ProjectIndex(t.projects, uid, projectName)
    case Some(j) =>
      assert t1.projects == t.projects[j := t1.projects[j]];
      ListingOfUpdate(t.projects, uid, j, t1.projects[j]);
    case None =>
      assert t1.projects == t.projects + [t1.projects[i]];
      ListingOfAppend(t.projects, uid, t1.projects[i]);
  }

  // ---------------------------------------------------------------- save_area_details

  /**
   * The area upsert: the (element, section) row is found again holding the new areas; it
   * replaces the row that had the key, or is appended when none had it; no other row changes.
   */
  lemma {:induction false} AreaUpsert(t: Tables, eid: nat, section: string, info: Dict<real>)
    ensures var a := AreaSaved(t, eid, section, info).areas;
      var k := AreaIndex(a, eid, section);
      && k.Some? && a[k.value] == AreaRowOf(eid, section, info)
      && |a| == |t.areas| + (if AreaIndex(t.areas, eid, section).None? then 1 else 0)
      && (forall j :: 0 <= j < |t.areas| && j != k.value ==> a[j] == t.areas[j])
  {
    var a := AreaSaved(t, eid, section, info).areas;
    match AreaIndex(t.areas, eid, section)
    case Some(i) =>
      assert a[i].elementId == eid && a[i].section == section;
      AreaIndexFirst(a, eid, section, i);
    case None =>
      assert a[|t.areas|].elementId == eid && a[|t.areas|].section == section;
      AreaIndexFirst(a, eid, section, |t.areas|);
  }

  /** The lookup finds the first row with the key. */
  lemma {:induction false} AreaIndexFirst(areas: seq<AreaRow>, eid: nat, section: string, i: nat)
    requires i < |areas| && areas[i].elementId == eid && areas[i].section == section
    requires forall j :: 0 <= j < i ==> areas[j].elementId != eid || areas[j].section != section
    ensures AreaIndex(areas, eid, section) == Some(i)
  {
    if i > 0 {
      AreaIndexFirst(areas[1..], eid, section, i - 1);
    }
  }

  /** Saving the areas of a section twice keeps only the second write. */
  lemma AreaLastWriteWins(t: Tables, eid: nat, section: string, first: Dict<real>, second: Dict<real>)
    ensures AreaSaved(AreaSaved(t, eid, section, first), eid, section, second) == AreaSaved(t, eid, section, second)
  {
    var a := AreaSaved(t, eid, section, first).areas;
    match AreaIndex(t.areas, eid, section)
    case Some(i) =>
      AreaIndexFirst(a, eid, section, i);
    case None =>
      AreaIndexFirst(a, eid, section, |t.areas|);
  }

  // ---------------------------------------------------------------- unknown users

  /**
   * A user with no row (or the falsy id 0) is refused everywhere: the save answers `false` and
   * changes nothing, the load answers `None`, and the listing is empty.
   */
  lemma UnknownUserRefused(t: Tables, username: string, projectName: string, doc: Project, now: string)
    requires !Known(UserIdIn(t.users, username))
    ensures Saved(t, username, projectName, doc, now) == (t, false)
    ensures Loaded(t, username, projectName) == None
    ensures Listed(t, username) == []
  {
  }
}
