/**
 * The MySQL persistence layer (utils/db.py), with the tables held in memory. A SELECT is a
 * filter over a table in row order, an INSERT appends a row and takes the table's next
 * AUTO_INCREMENT id (`cursor.lastrowid`), a DELETE keeps the rows that do not match, and an
 * upsert (`ON DUPLICATE KEY UPDATE`) rewrites the row holding the unique key or appends one.
 */
module Db {
  import opened Wrappers
  import opened Dicts
  import opened Strings
  import opened Document

  datatype UserRow = UserRow(id: nat, username: string, passwordHash: string)

  datatype ProjectRow = ProjectRow(
    id: nat, userId: nat, name: string, createdAt: string, lastModified: string,
    houseType: Option<string>, numBedrooms: Option<int>)

  datatype RoomRow = RoomRow(id: nat, projectId: nat, name: string)

  datatype ElementRow = ElementRow(
    id: nat, roomId: nat, name: string, height: real, length: real, width: real, numShelves: real)

  /** `kind` is the "type" column; it stays NULL (`None`) in rows the migration script writes. */
  datatype MaterialRow = MaterialRow(
    elementId: nat, category: string, kind: Option<string>,
    brand: string, model: string, grade: string, thickness: string, rate: real)

  datatype AreaRow = AreaRow(
    elementId: nat, section: string, shutterArea: real, sideArea: real, topBottomArea: real,
    backPanelArea: real, shelfArea: real, totalArea: real)

  /** The database: six tables, and the next AUTO_INCREMENT id of each table that has one. */
  datatype Tables = Tables(
    users: seq<UserRow>, projects: seq<ProjectRow>, rooms: seq<RoomRow>,
    elements: seq<ElementRow>, materials: seq<MaterialRow>, areas: seq<AreaRow>,
    nextUser: nat, nextProject: nat, nextRoom: nat, nextElement: nat)

  const EmptyTables := Tables([], [], [], [], [], [], 1, 1, 1, 1)

  /**
   * What the schema keeps true: ids are positive and below the table's counter, a row refers
   * only to ids already handed out, and usernames and (user, project name) pairs are unique keys.
   */
  predicate Valid(t: Tables) {
    && 0 < t.nextUser && 0 < t.nextProject && 0 < t.nextRoom && 0 < t.nextElement
    && (forall u :: u in t.users ==> 0 < u.id < t.nextUser)
    && (forall i, j :: 0 <= i < j < |t.users| ==> t.users[i].username != t.users[j].username)
    && (forall p :: p in t.projects ==> 0 < p.id < t.nextProject)
    && (forall i, j :: 0 <= i < j < |t.projects| ==>
          t.projects[i].userId != t.projects[j].userId || t.projects[i].name != t.projects[j].name)
    && (forall r :: r in t.rooms ==> 0 < r.id < t.nextRoom)
    && (forall e :: e in t.elements ==> 0 < e.id < t.nextElement && e.roomId < t.nextRoom)
    && (forall m :: m in t.materials ==> m.elementId < t.nextElement)
  }

  /** The rows of `s` that `keep` accepts, in table order. */
  function Filter<T>(s: seq<T>, keep: T -> bool): (r: seq<T>)
    ensures |r| <= |s|
  {
    if s == [] then []
    else
      var n := |s| - 1;
      Filter(s[..n], keep) + (if keep(s[n]) then [s[n]] else [])
  }

  lemma {:induction false} FilterMembers<T>(s: seq<T>, keep: T -> bool)
    ensures forall x :: x in Filter(s, keep) <==> x in s && keep(x)
  {
    if s != [] {
      var n := |s| - 1;
      FilterMembers(s[..n], keep);
      SplitLast(s);
    }
  }

  lemma {:induction false} FilterAppend<T>(a: seq<T>, b: seq<T>, keep: T -> bool)
    ensures Filter(a + b, keep) == Filter(a, keep) + Filter(b, keep)
    decreases |b|
  {
    if b == [] {
      assert a + b == a;
    } else {
      var n := |b| - 1;
      assert (a + b)[..|a + b| - 1] == a + b[..n];
      assert (a + b)[|a + b| - 1] == b[n];
      FilterAppend(a, b[..n], keep);
    }
  }

  /** A SELECT that matches no row gives nothing. */
  lemma {:induction false} FilterNone<T>(s: seq<T>, keep: T -> bool)
    requires forall x :: x in s ==> !keep(x)
    ensures Filter(s, keep) == []
  {
    if s != [] {
      var n := |s| - 1;
      assert s[n] in s;
      assert forall x :: x in s[..n] ==> x in s;
      FilterNone(s[..n], keep);
    }
  }

  /** A DELETE that matches no row leaves the table as it is. */
  lemma {:induction false} FilterKeepsAll<T>(s: seq<T>, keep: T -> bool)
    requires forall x :: x in s ==> keep(x)
    ensures Filter(s, keep) == s
  {
    if s != [] {
      var n := |s| - 1;
      assert forall x :: x in s[..n] ==> x in s;
      FilterKeepsAll(s[..n], keep);
      SplitLast(s);
    }
  }

  /** With no element ids to delete, the three element-side DELETEs keep every row. */
  lemma {:induction false} NothingOutsideKept(areas: seq<AreaRow>, materials: seq<MaterialRow>, elements: seq<ElementRow>)
    ensures Filter(areas, AreaOutside({})) == areas
    ensures Filter(materials, MaterialOutside({})) == materials
    ensures Filter(elements, ElementOutside({})) == elements
  {
    FilterKeepsAll(areas, AreaOutside({}));
    FilterKeepsAll(materials, MaterialOutside({}));
    FilterKeepsAll(elements, ElementOutside({}));
  }

  /** `Cleared`, field by field. */
  lemma ClearedIs(t: Tables, pid: nat, ids: set<nat>, areas: seq<AreaRow>, materials: seq<MaterialRow>,
                  elements: seq<ElementRow>, rooms: seq<RoomRow>)
    requires ids == ElementIdsIn(t.elements, RoomIdsOf(t.rooms, pid))
    requires areas == Filter(t.areas, AreaOutside(ids)) && materials == Filter(t.materials, MaterialOutside(ids))
    requires elements == Filter(t.elements, ElementOutside(ids)) && rooms == Filter(t.rooms, RoomOfOther(pid))
    ensures t.(areas := areas, materials := materials, elements := elements, rooms := rooms) == Cleared(t, pid)
  {
  }

  /** A project without rooms has no elements to delete and keeps every room row. */
  lemma {:induction false} NoRoomsKept(rooms: seq<RoomRow>, elements: seq<ElementRow>, pid: nat)
    requires RoomIdsOf(rooms, pid) == {}
    ensures ElementIdsIn(elements, {}) == {}
    ensures Filter(rooms, RoomOfOther(pid)) == rooms
  {
    forall r | r in rooms
      ensures r.projectId != pid
    {
      assert r.projectId == pid ==> r.id in RoomIdsOf(rooms, pid);
    }
    FilterKeepsAll(rooms, RoomOfOther(pid));
  }

  // ---------------------------------------------------------------- lookups

  /** `get_user_id`: the id of the first user row with that name. */
  function UserIdIn(users: seq<UserRow>, name: string): (r: Option<nat>)
    ensures r.Some? <==> exists u :: u in users && u.username == name
    ensures r.Some? ==> exists u :: u in users && u.username == name && u.id == r.value
  {
    if users == [] then None
    else if users[0].username == name then Some(users[0].id)
    else
      assert forall u :: u in users[1..] ==> u in users;
      UserIdIn(users[1..], name)
  }

  /** The source's `if not user_id`: no row, or the falsy id 0. */
  predicate Known(uid: Option<nat>) {
    uid.Some? && uid.value != 0
  }

  /** The position of the project row with this user and name, if any. */
  function ProjectIndex(projects: seq<ProjectRow>, uid: nat, name: string): (r: Option<nat>)
    ensures r.Some? ==> r.value < |projects| && projects[r.value].userId == uid && projects[r.value].name == name
    ensures r.Some? ==> forall i :: 0 <= i < r.value ==> projects[i].userId != uid || projects[i].name != name
    ensures r.None? ==> forall i :: 0 <= i < |projects| ==> projects[i].userId != uid || projects[i].name != name
  {
    if projects == [] then None
    else if projects[0].userId == uid && projects[0].name == name then Some(0)
    else
      match ProjectIndex(projects[1..], uid, name)
      case None => None
      case Some(i) => Some(i + 1)
  }

  // ---------------------------------------------------------------- save_project

  /**
   * The project upsert of `save_project`: a new (user, name) pair gets a row whose creation and
   * modification times are both `now`; an existing row keeps its id and creation time and takes
   * the new modification time, house type and bedroom count.
   */
  function Upserted(t: Tables, uid: nat, name: string, now: string, houseType: Option<string>, numBedrooms: Option<int>): Tables {
    match ProjectIndex(t.projects, uid, name)
    case Some(i) =>
      t.(projects := t.projects[i := t.projects[i].(lastModified := now, houseType := houseType, numBedrooms := numBedrooms)])
    case None =>
      t.(projects := t.projects + [ProjectRow(t.nextProject, uid, name, now, now, houseType, numBedrooms)],
         nextProject := t.nextProject + 1)
  }

  /** The ids of the project's rooms. */
  function RoomIdsOf(rooms: seq<RoomRow>, pid: nat): set<nat> {
    set r | r in rooms && r.projectId == pid :: r.id
  }

  /** The ids of the elements that sit in one of the rooms `roomIds`. */
  function ElementIdsIn(elements: seq<ElementRow>, roomIds: set<nat>): set<nat> {
    set e | e in elements && e.roomId in roomIds :: e.id
  }

  function AreaOutside(ids: set<nat>): AreaRow -> bool {
    (a: AreaRow) => a.elementId !in ids
  }

  function MaterialOutside(ids: set<nat>): MaterialRow -> bool {
    (m: MaterialRow) => m.elementId !in ids
  }

  function ElementOutside(ids: set<nat>): ElementRow -> bool {
    (e: ElementRow) => e.id !in ids
  }

  function RoomOfOther(pid: nat): RoomRow -> bool {
    (r: RoomRow) => r.projectId != pid
  }

  /** The DELETEs of `save_project`: the project's rooms and their elements, materials and area rows. */
  function Cleared(t: Tables, pid: nat): Tables {
    var elementIds := ElementIdsIn(t.elements, RoomIdsOf(t.rooms, pid));
    t.(areas := Filter(t.areas, AreaOutside(elementIds)),
       materials := Filter(t.materials, MaterialOutside(elementIds)),
       elements := Filter(t.elements, ElementOutside(elementIds)),
       rooms := Filter(t.rooms, RoomOfOther(pid)))
  }

  /** The rows inserted for the rooms, with ids from `base` on. */
  function RoomRowsOf(pid: nat, rs: Rooms, base: nat): seq<RoomRow> {
    if rs == [] then []
    else
      var n := |rs| - 1;
      RoomRowsOf(pid, rs[..n], base) + [RoomRow(base + n, pid, rs[n].0)]
  }

  /**
   * The element row of one visited element or Bunk Bed section: its room is the one inserted
   * for the unit's room, its name is the "Element" label ("Bunk Bed - <section>" for a section)
   * and a missing dimension is stored as 0.
   */
  function ElementRowOf(u: Unit, roomBase: nat, id: nat): ElementRow {
    ElementRow(id, roomBase + u.roomIndex, Label(u.id),
      Field(u.dims.height), Field(u.dims.length), Field(u.dims.width), Field(u.dims.numShelves))
  }

  function ElementRowsOf(units: seq<Unit>, roomBase: nat, base: nat): seq<ElementRow> {
    if units == [] then []
    else
      var n := |units| - 1;
      ElementRowsOf(units[..n], roomBase, base) + [ElementRowOf(units[n], roomBase, base + n)]
  }

  /** The last unit's row closes the element rows. */
  lemma {:induction false} ElementRowsAt(units: seq<Unit>, rb: nat, eb: nat, n: nat, id: nat)
    requires n + 1 == |units| && id == eb + n
    ensures ElementRowsOf(units, rb, eb) == ElementRowsOf(units[..n], rb, eb) + [ElementRowOf(units[n], rb, id)]
  {
  }

  /** One stored material choice; a missing field is stored as "" (the rate as 0). */
  function MaterialRowOf(eid: nat, category: string, m: MaterialEntry, withType: bool): MaterialRow {
    MaterialRow(eid, category, if withType then Some(m.kind.GetOr("")) else None,
      m.brand.GetOr(""), m.model.GetOr(""), m.grade.GetOr(""), m.thickness.GetOr(""), Field(m.rate))
  }

  /** The rows of one element's non-empty choices, in the order of `cats`. */
  function CategoryRows(eid: nat, cm: CategoryMaterials, cats: seq<string>, withType: bool): (r: seq<MaterialRow>)
    ensures |r| <= |cats|
  {
    if cats == [] then []
    else
      var n := |cats| - 1;
      var m := GetOr(cm, cats[n], EmptyEntry);
      CategoryRows(eid, cm, cats[..n], withType) + (if IsEmpty(m) then [] else [MaterialRowOf(eid, cats[n], m, withType)])
  }

  function MaterialRowsOf(units: seq<Unit>, em: ElementMaterials, base: nat, withType: bool): seq<MaterialRow> {
    if units == [] then []
    else
      var n := |units| - 1;
      MaterialRowsOf(units[..n], em, base, withType)
        + CategoryRows(base + n, GetOr(em, MaterialKey(units[n].id), []), Categories, withType)
  }

  /**
   * The tables once the rooms `done` and the units `units` have been inserted: room rows take
   * ids from the room counter, element rows from the element counter, in visiting order.
   */
  function Placed(t: Tables, pid: nat, done: Rooms, units: seq<Unit>, em: ElementMaterials, withType: bool): Tables {
    t.(rooms := t.rooms + RoomRowsOf(pid, done, t.nextRoom), nextRoom := t.nextRoom + |done|,
       elements := t.elements + ElementRowsOf(units, t.nextRoom, t.nextElement),
       nextElement := t.nextElement + |units|,
       materials := t.materials + MaterialRowsOf(units, em, t.nextElement, withType))
  }

  /** The INSERT loops: every room, then every element or Bunk Bed section of it, then its materials. */
  function Inserted(t: Tables, pid: nat, rs: Rooms, em: ElementMaterials, withType: bool): Tables {
    Placed(t, pid, rs, Flatten(rs), em, withType)
  }

  /** After the upsert the project row can be found. */
  lemma {:induction false} UpsertFinds(t: Tables, uid: nat, name: string, now: string, houseType: Option<string>, numBedrooms: Option<int>)
    ensures ProjectIndex(Upserted(t, uid, name, now, houseType, numBedrooms).projects, uid, name).Some?
  {
    var ps := Upserted(t, uid, name, now, houseType, numBedrooms).projects;
    match ProjectIndex(t.projects, uid, name)
    case Some(i) =>
      assert ps[i].userId == uid && ps[i].name == name;
    case None =>
      assert ps[|t.projects|].userId == uid && ps[|t.projects|].name == name;
  }

  /** The id of the project row the upsert wrote. */
  function UpsertedId(t: Tables, uid: nat, name: string, now: string, houseType: Option<string>, numBedrooms: Option<int>): nat {
    var t1 := Upserted(t, uid, name, now, houseType, numBedrooms);
    UpsertFinds(t, uid, name, now, houseType, numBedrooms);
    t1.projects[ProjectIndex(t1.projects, uid, name).value].id
  }

  /**
   * The row the upsert wrote: found again under its (user, name) key, with the new modification
   * time, house type and bedroom count; it keeps the id and creation time of the row it
   * replaced, or is a new row with the next id and `now` as its creation time. No other row changes.
   */
  lemma {:induction false} UpsertedRow(t: Tables, uid: nat, name: string, now: string, houseType: Option<string>, numBedrooms: Option<int>)
    ensures var ps := Upserted(t, uid, name, now, houseType, numBedrooms).projects;
      var i := ProjectIndex(ps, uid, name);
      && i.Some?
      && ps[i.value].userId == uid && ps[i.value].name == name
      && ps[i.value].lastModified == now && ps[i.value].houseType == houseType && ps[i.value].numBedrooms == numBedrooms
      && (forall j :: 0 <= j < |t.projects| && j != i.value ==> ps[j] == t.projects[j])
      && match ProjectIndex(t.projects, uid, name)
         case Some(j) => i.value == j && ps[j].id == t.projects[j].id && ps[j].createdAt == t.projects[j].createdAt
         case None => i.value == |t.projects| && ps[i.value].id == t.nextProject && ps[i.value].createdAt == now
  {
    var ps := Upserted(t, uid, name, now, houseType, numBedrooms).projects;
    UpsertFinds(t, uid, name, now, houseType, numBedrooms);
    var i := ProjectIndex(ps, uid, name).value;
    match ProjectIndex(t.projects, uid, name)
    case Some(j) =>
      assert ps[j].userId == uid && ps[j].name == name;
      assert i == j;
    case None =>
      assert i == |t.projects|;
  }

  /**
   * `save_project`: `false` with nothing changed for an unknown user; otherwise the project
   * upsert, the removal of the project's old rooms, elements, materials and area rows, and the
   * insertion of the document's rooms, elements and non-empty material choices.
   */
  function Saved(t: Tables, username: string, projectName: string, doc: Project, now: string): (Tables, bool) {
    var uid := UserIdIn(t.users, username);
    if !Known(uid) then (t, false)
    else
      var t1 := Upserted(t, uid.value, projectName, now, doc.houseType, doc.numBedrooms);
      var pid := UpsertedId(t, uid.value, projectName, now, doc.houseType, doc.numBedrooms);
      (Inserted(Cleared(t1, pid), pid, doc.rooms.GetOr([]), doc.elementMaterials.GetOr([]), true), true)
  }

  // ---------------------------------------------------------------- load_project

  /** `room_id_map`: room id to room name. */
  function RoomNames(rows: seq<RoomRow>): map<nat, string> {
    if rows == [] then map[]
    else
      var n := |rows| - 1;
      RoomNames(rows[..n])[rows[n].id := rows[n].name]
  }

  /** `rooms[room_name] = {}` for each room row. */
  function Skeleton(rows: seq<RoomRow>): Rooms {
    if rows == [] then []
    else
      var n := |rows| - 1;
      Put(Skeleton(rows[..n]), rows[n].name, [])
  }

  /** The dimension record rebuilt from an element row: all four keys present. */
  function RowDims(e: ElementRow): DimRecord {
    DimRecord(Some(e.length), Some(e.width), Some(e.height), Some(e.numShelves))
  }

  /**
   * One element row placed into the rebuilt rooms. A name starting with "Bunk Bed - " is a
   * section of the room's "Bunk Bed", created empty when missing; the section name is the name
   * with every "Bunk Bed - " removed. A Bunk Bed that already holds a single record keeps its
   * dimensions (the section lands under an extra key of that record, which the model does not
   * represent).
   */
  function PlaceElement(rs: Rooms, room: string, name: string, d: DimRecord): Rooms {
    var elems := GetOr(rs, room, []);
    if StartsWith(name, SectionMarker) then
      var section := RemoveAll(name, SectionMarker);
      var withBase := if BunkBed in Keys(elems) then elems else Put(elems, BunkBed, Sectioned([]));
      match GetOr(withBase, BunkBed, Sectioned([]))
      case Sectioned(secs) => Put(rs, room, Put(withBase, BunkBed, Sectioned(Put(secs, section, d))))
      case Plain(_) => Put(rs, room, withBase)
    else
      Put(rs, room, Put(elems, name, Plain(d)))
  }

  /** The element loop of `load_project`; rows outside the project's rooms are not selected. */
  function PlaceElements(rs: Rooms, names: map<nat, string>, rows: seq<ElementRow>): Rooms {
    if rows == [] then rs
    else
      var n := |rows| - 1;
      var prev := PlaceElements(rs, names, rows[..n]);
      var e := rows[n];
      if e.roomId in names then PlaceElement(prev, names[e.roomId], e.name, RowDims(e)) else prev
  }

  /** The element part of a material key: "Bunk Bed|<section>" for a section row, else the name. */
  function ElementKey(name: string): string {
    if StartsWith(name, SectionMarker) then BunkBed + "|" + RemoveAll(name, SectionMarker) else name
  }

  /** `element_id_map`: element id to (room name, element key), for the project's element rows. */
  function ElementKeys(names: map<nat, string>, rows: seq<ElementRow>): map<nat, (string, string)> {
    if rows == [] then map[]
    else
      var n := |rows| - 1;
      var prev := ElementKeys(names, rows[..n]);
      var e := rows[n];
      if e.roomId in names then prev[e.id := (names[e.roomId], ElementKey(e.name))] else prev
  }

  /**
   * The material key rebuilt on load. Splitting the element key at its first "|" and joining
   * the parts again gives back "room|" followed by the element key, whichever branch runs.
   */
  function LoadKey(room: string, elKey: string): (key: string)
    ensures key == room + "|" + elKey
  {
    if '|' in elKey then
      var parts := SplitOnce(elKey, '|');
      assert room + "|" + parts.0 + "|" + parts.1 == room + "|" + (parts.0 + "|" + parts.1);
      room + "|" + parts.0 + "|" + parts.1
    else room + "|" + elKey
  }

  /** A loaded material record: all six fields present. */
  function EntryOf(m: MaterialRow): MaterialEntry {
    MaterialEntry(m.kind, Some(m.grade), Some(m.brand), Some(m.model), Some(m.thickness), Some(m.rate))
  }

  /** The material loop of `load_project`; rows of other elements are not selected. */
  function PlaceMaterials(em: ElementMaterials, keys: map<nat, (string, string)>, rows: seq<MaterialRow>): ElementMaterials {
    if rows == [] then em
    else
      var n := |rows| - 1;
      var prev := PlaceMaterials(em, keys, rows[..n]);
      var m := rows[n];
      if m.elementId in keys then
        var key := LoadKey(keys[m.elementId].0, keys[m.elementId].1);
        Put(prev, key, Put(GetOr(prev, key, []), m.category, EntryOf(m)))
      else prev
  }

  /** One more material row placed on what the rows before it built. */
  lemma PlaceMaterialsNext(keys: map<nat, (string, string)>, rows: seq<MaterialRow>, c: nat)
    requires c < |rows|
    ensures var prev := PlaceMaterials([], keys, rows[..c]);
      var m := rows[c];
      PlaceMaterials([], keys, rows[..c + 1])
        == if m.elementId in keys then
             var key := LoadKey(keys[m.elementId].0, keys[m.elementId].1);
             Put(prev, key, Put(GetOr(prev, key, []), m.category, EntryOf(m)))
           else prev
  {
    assert rows[..c + 1][..c] == rows[..c];
  }

  function RoomOf(pid: nat): RoomRow -> bool {
    (r: RoomRow) => r.projectId == pid
  }

  /**
   * `load_project`: `None` for an unknown user or project; otherwise the rooms, element
   * materials, house type and bedroom count. Area details are not part of the result.
   */
  function Loaded(t: Tables, username: string, projectName: string): Option<Project> {
    var uid := UserIdIn(t.users, username);
    if !Known(uid) then None
    else
      match ProjectIndex(t.projects, uid.value, projectName)
      case None => None
      case Some(i) =>
        var p := t.projects[i];
        var roomRows := Filter(t.rooms, RoomOf(p.id));
        var names := RoomNames(roomRows);
        var keys := ElementKeys(names, t.elements);
        Some(Project(None, None, None, p.houseType, p.numBedrooms,
          Some(PlaceElements(Skeleton(roomRows), names, t.elements)), None,
          Some(PlaceMaterials([], keys, t.materials)), None))
  }

  /** With no rooms selected no element row is selected. */
  lemma {:induction false} NoRoomsNoElements(rs: Rooms, rows: seq<ElementRow>)
    ensures PlaceElements(rs, map[], rows) == rs
    ensures ElementKeys(map[], rows) == map[]
  {
    if rows != [] {
      NoRoomsNoElements(rs, rows[..|rows| - 1]);
    }
  }

  /** With no elements selected no material row is selected. */
  lemma {:induction false} NoElementsNoMaterials(em: ElementMaterials, rows: seq<MaterialRow>)
    ensures PlaceMaterials(em, map[], rows) == em
  {
    if rows != [] {
      NoElementsNoMaterials(em, rows[..|rows| - 1]);
    }
  }

  // ---------------------------------------------------------------- list_projects, save_area_details

  datatype Listing = Listing(name: string, createdAt: string, lastModified: string)

  function ListingOf(projects: seq<ProjectRow>, uid: nat): seq<Listing> {
    if projects == [] then []
    else
      var n := |projects| - 1;
      var p := projects[n];
      ListingOf(projects[..n], uid) + (if p.userId == uid then [Listing(p.name, p.createdAt, p.lastModified)] else [])
  }

  /** `list_projects`: the user's projects in table order, or none for an unknown user. */
  function Listed(t: Tables, username: string): seq<Listing> {
    var uid := UserIdIn(t.users, username);
    if !Known(uid) then [] else ListingOf(t.projects, uid.value)
  }

  /** The area row written for one element section; a missing area is stored as 0. */
  function AreaRowOf(eid: nat, section: string, info: Dict<real>): AreaRow {
    AreaRow(eid, section,
      GetOr(info, "shutter_area", 0.0), GetOr(info, "side_area", 0.0), GetOr(info, "top_bottom_area", 0.0),
      GetOr(info, "back_panel_area", 0.0), GetOr(info, "shelf_area", 0.0), GetOr(info, "total_area", 0.0))
  }

  function AreaIndex(areas: seq<AreaRow>, eid: nat, section: string): (r: Option<nat>)
    ensures r.Some? ==> r.value < |areas| && areas[r.value].elementId == eid && areas[r.value].section == section
    ensures r.Some? ==> forall i :: 0 <= i < r.value ==> areas[i].elementId != eid || areas[i].section != section
    ensures r.None? ==> forall i :: 0 <= i < |areas| ==> areas[i].elementId != eid || areas[i].section != section
  {
    if areas == [] then None
    else if areas[0].elementId == eid && areas[0].section == section then Some(0)
    else
      match AreaIndex(areas[1..], eid, section)
      case None => None
      case Some(i) => Some(i + 1)
  }

  /** `save_area_details`: upsert on (element, section), replacing all six areas on a duplicate. */
  function AreaSaved(t: Tables, eid: nat, section: string, info: Dict<real>): Tables {
    match AreaIndex(t.areas, eid, section)
    case Some(i) => t.(areas := t.areas[i := AreaRowOf(eid, section, info)])
    case None => t.(areas := t.areas + [AreaRowOf(eid, section, info)])
  }

  // ---------------------------------------------------------------- step lemmas for the loops

  /** Regrouping a three-part concatenation; the loops' ghost unit lists grow at their end. */
  lemma AppendAssoc<T>(a: seq<T>, b: seq<T>, c: seq<T>)
    ensures a + (b + c) == (a + b) + c
  {
  }

  lemma {:induction false} RoomRowsNext(pid: nat, rs: Rooms, base: nat, i: nat)
    requires i < |rs|
    ensures RoomRowsOf(pid, rs[..i + 1], base) == RoomRowsOf(pid, rs[..i], base) + [RoomRow(base + i, pid, rs[i].0)]
  {
    assert rs[..i + 1][..i] == rs[..i];
  }

  lemma {:induction false} CategoryRowsNext(eid: nat, cm: CategoryMaterials, cats: seq<string>, c: nat, withType: bool)
    requires c < |cats|
    ensures var m := GetOr(cm, cats[c], EmptyEntry);
      CategoryRows(eid, cm, cats[..c + 1], withType)
        == CategoryRows(eid, cm, cats[..c], withType) + (if IsEmpty(m) then [] else [MaterialRowOf(eid, cats[c], m, withType)])
  {
    assert cats[..c + 1][..c] == cats[..c];
  }

  /** One more visited unit appends its element row and its material rows. */
  lemma {:induction false} PlacedNextUnit(t: Tables, pid: nat, done: Rooms, units: seq<Unit>, u: Unit, em: ElementMaterials, withType: bool)
    ensures var p := Placed(t, pid, done, units, em, withType);
      Placed(t, pid, done, units + [u], em, withType)
        == p.(elements := p.elements + [ElementRowOf(u, t.nextRoom, p.nextElement)],
              nextElement := p.nextElement + 1,
              materials := p.materials + CategoryRows(p.nextElement, GetOr(em, MaterialKey(u.id), []), Categories, withType))
  {
    assert (units + [u])[..|units|] == units;
  }

  /** The rows one unit adds, applied to the tables placed so far. */
  lemma UnitPlaced(t: Tables, pid: nat, done: Rooms, units: seq<Unit>, u: Unit, em: ElementMaterials, withType: bool,
                   p: Tables, q: Tables)
    requires p == Placed(t, pid, done, units, em, withType)
    requires q == p.(elements := p.elements + [ElementRowOf(u, t.nextRoom, p.nextElement)],
                     nextElement := p.nextElement + 1,
                     materials := p.materials + CategoryRows(p.nextElement, GetOr(em, MaterialKey(u.id), []), Categories, withType))
    ensures q == Placed(t, pid, done, units + [u], em, withType)
  {
    PlacedNextUnit(t, pid, done, units, u, em, withType);
  }

  /** One more room appends its room row. */
  lemma PlacedNextRoom(t: Tables, pid: nat, rs: Rooms, i: nat, units: seq<Unit>, em: ElementMaterials, withType: bool)
    requires i < |rs|
    ensures var p := Placed(t, pid, rs[..i], units, em, withType);
      Placed(t, pid, rs[..i + 1], units, em, withType)
        == p.(rooms := p.rooms + [RoomRow(p.nextRoom, pid, rs[i].0)], nextRoom := p.nextRoom + 1)
  {
    RoomRowsNext(pid, rs, t.nextRoom, i);
  }

  // ---------------------------------------------------------------- the database

  class Database {
    var users: seq<UserRow>
    var projects: seq<ProjectRow>
    var rooms: seq<RoomRow>
    var elements: seq<ElementRow>
    var materials: seq<MaterialRow>
    var areas: seq<AreaRow>
    var nextUser: nat
    var nextProject: nat
    var nextRoom: nat
    var nextElement: nat

    function State(): Tables
      reads this
    {
      Tables(users, projects, rooms, elements, materials, areas, nextUser, nextProject, nextRoom, nextElement)
    }

    /** An empty database; every AUTO_INCREMENT starts at 1. */
    constructor ()
      ensures State() == EmptyTables
    {
      users, projects, rooms, elements, materials, areas := [], [], [], [], [], [];
      nextUser, nextProject, nextRoom, nextElement := 1, 1, 1, 1;
    }

    method UpsertProject(uid: nat, name: string, now: string, houseType: Option<string>, numBedrooms: Option<int>)
      modifies this
      ensures State() == Upserted(old(State()), uid, name, now, houseType, numBedrooms)
    {
      var i := ProjectIndex(projects, uid, name);
      if i.Some? {
        projects := projects[i.value := projects[i.value].(lastModified := now, houseType := houseType, numBedrooms := numBedrooms)];
      } else {
        projects := projects + [ProjectRow(nextProject, uid, name, now, now, houseType, numBedrooms)];
        nextProject := nextProject + 1;
      }
    }

    /** The DELETEs, guarded as in the source by "any rooms" and "any elements". */
    method ClearProject(pid: nat)
      modifies this
      ensures State() == Cleared(old(State()), pid)
    {
      ghost var t := State();
      var roomIds := RoomIdsOf(rooms, pid);
      var elementIds := ElementIdsIn(elements, roomIds);
      if roomIds != {} {
        if elementIds != {} {
          areas := Filter(areas, AreaOutside(elementIds));
          materials := Filter(materials, MaterialOutside(elementIds));
          elements := Filter(elements, ElementOutside(elementIds));
        } else {
          NothingOutsideKept(areas, materials, elements);
        }
        rooms := Filter(rooms, RoomOfOther(pid));
      } else {
        NoRoomsKept(rooms, elements, pid);
        NothingOutsideKept(areas, materials, elements);
      }
      ClearedIs(t, pid, elementIds, areas, materials, elements, rooms);
    }

    method InsertRoom(pid: nat, name: string) returns (id: nat)
      modifies this
      ensures id == old(nextRoom)
      ensures State() == old(State()).(rooms := old(rooms) + [RoomRow(id, pid, name)], nextRoom := id + 1)
    {
      id := nextRoom;
      rooms := rooms + [RoomRow(id, pid, name)];
      nextRoom := nextRoom + 1;
    }

    method InsertElement(roomId: nat, name: string, d: DimRecord) returns (id: nat)
      modifies this
      ensures id == old(nextElement)
      ensures State() == old(State()).(
        elements := old(elements) + [ElementRow(id, roomId, name, Field(d.height), Field(d.length), Field(d.width), Field(d.numShelves))],
        nextElement := id + 1)
    {
      id := nextElement;
      elements := elements + [ElementRow(id, roomId, name, Field(d.height), Field(d.length), Field(d.width), Field(d.numShelves))];
      nextElement := nextElement + 1;
    }

    /** The inner `for mat_type in [...]` loop: one row per non-empty choice. */
    method InsertMaterials(eid: nat, cm: CategoryMaterials, withType: bool)
      modifies this
      ensures State() == old(State()).(materials := old(materials) + CategoryRows(eid, cm, Categories, withType))
    {
      ghost var m0 := materials;
      for c := 0 to |Categories|
        invariant State() == old(State()).(materials := m0 + CategoryRows(eid, cm, Categories[..c], withType))
      {
        var mat := GetOr(cm, Categories[c], EmptyEntry);
        CategoryRowsNext(eid, cm, Categories, c, withType);
        if !IsEmpty(mat) {
          materials := materials + [MaterialRowOf(eid, Categories[c], mat, withType)];
        }
      }
      assert Categories[..|Categories|] == Categories;
    }

    /** One element or Bunk Bed section: its element row, then its material rows. */
    method InsertUnit(ghost t: Tables, pid: nat, ghost done: Rooms, ghost units: seq<Unit>, u: Unit, roomId: nat, em: ElementMaterials, withType: bool)
      requires State() == Placed(t, pid, done, units, em, withType)
      requires roomId == t.nextRoom + u.roomIndex
      modifies this
      ensures State() == Placed(t, pid, done, units + [u], em, withType)
    {
      ghost var p := State();
      var eid := InsertElement(roomId, Label(u.id), u.dims);
      assert elements == p.elements + [ElementRowOf(u, t.nextRoom, p.nextElement)];
      InsertMaterials(eid, GetOr(em, MaterialKey(u.id), []), withType);
      UnitPlaced(t, pid, done, units, u, em, withType, p, State());
    }

    /** The loop over a Bunk Bed's sections: each becomes an element row "Bunk Bed - <section>". */
    method InsertSections(ghost t: Tables, pid: nat, ghost done: Rooms, ghost before: seq<Unit>, i: nat, roomName: string,
                          secs: Dict<DimRecord>, roomId: nat, em: ElementMaterials, withType: bool)
      requires State() == Placed(t, pid, done, before, em, withType)
      requires roomId == t.nextRoom + i
      modifies this
      ensures State() == Placed(t, pid, done, before + SectionUnits(i, roomName, secs), em, withType)
    {
      assert before + SectionUnits(i, roomName, secs[..0]) == before;
      for k := 0 to |secs|
        invariant State() == Placed(t, pid, done, before + SectionUnits(i, roomName, secs[..k]), em, withType)
      {
        SectionUnitsNext(i, roomName, secs, k);
        var u := Unit(i, ElementId(roomName, BunkBed, Some(secs[k].0)), secs[k].1);
        InsertUnit(t, pid, done, before + SectionUnits(i, roomName, secs[..k]), u, roomId, em, withType);
        AppendAssoc(before, SectionUnits(i, roomName, secs[..k]), [u]);
      }
      assert secs[..|secs|] == secs;
    }

    /** The loop over a room's elements. */
    method InsertElements(ghost t: Tables, pid: nat, ghost done: Rooms, ghost before: seq<Unit>, i: nat, roomName: string,
                          elems: Room, roomId: nat, em: ElementMaterials, withType: bool)
      requires State() == Placed(t, pid, done, before, em, withType)
      requires roomId == t.nextRoom + i
      modifies this
      ensures State() == Placed(t, pid, done, before + RoomUnits(i, roomName, elems), em, withType)
    {
      assert before + RoomUnits(i, roomName, elems[..0]) == before;
      for j := 0 to |elems|
        invariant State() == Placed(t, pid, done, before + RoomUnits(i, roomName, elems[..j]), em, withType)
      {
        ghost var sofar := before + RoomUnits(i, roomName, elems[..j]);
        RoomUnitsNext(i, roomName, elems, j);
        AppendAssoc(before, RoomUnits(i, roomName, elems[..j]), ElementUnits(i, roomName, elems[j].0, elems[j].1));
        var (elName, el) := elems[j];
        if elName == BunkBed && el.Sectioned? {
          InsertSections(t, pid, done, sofar, i, roomName, el.sections, roomId, em, withType);
        } else {
          var u := Unit(i, ElementId(roomName, elName, None), PlainDims(el));
          InsertUnit(t, pid, done, sofar, u, roomId, em, withType);
        }
      }
      assert elems[..|elems|] == elems;
    }

    /** The nested INSERT loops over rooms, elements and Bunk Bed sections. */
    method InsertDocument(pid: nat, rs: Rooms, em: ElementMaterials, withType: bool)
      modifies this
      ensures State() == Inserted(old(State()), pid, rs, em, withType)
    {
      ghost var t := State();
      for i := 0 to |rs|
        invariant State() == Placed(t, pid, rs[..i], Flatten(rs[..i]), em, withType)
      {
        var (roomName, elems) := rs[i];
        PlacedNextRoom(t, pid, rs, i, Flatten(rs[..i]), em, withType);
        var roomId := InsertRoom(pid, roomName);
        InsertElements(t, pid, rs[..i + 1], Flatten(rs[..i]), i, roomName, elems, roomId, em, withType);
        FlattenNext(rs, i);
      }
      assert rs[..|rs|] == rs;
    }

    /** `save_project`. */
    method SaveProject(username: string, projectName: string, doc: Project, now: string) returns (ok: bool)
      requires BunkBedsSectioned(doc.rooms.GetOr([]))
      modifies this
      ensures (State(), ok) == Saved(old(State()), username, projectName, doc, now)
    {
      var uid := UserIdIn(users, username);
      if !Known(uid) {
        return false;
      }
      ghost var t := State();
      UpsertProject(uid.value, projectName, now, doc.houseType, doc.numBedrooms);
      UpsertFinds(t, uid.value, projectName, now, doc.houseType, doc.numBedrooms);
      var i := ProjectIndex(projects, uid.value, projectName);
      var pid := projects[i.value].id;
      ClearProject(pid);
      InsertDocument(pid, doc.rooms.GetOr([]), doc.elementMaterials.GetOr([]), true);
      return true;
    }

    /** One pass of the element loop of `load_project`, for a row whose room was loaded. */
    static method PlaceElementRow(rs: Rooms, room: string, e: ElementRow) returns (loaded: Rooms, elKey: string)
      ensures loaded == PlaceElement(rs, room, e.name, RowDims(e))
      ensures elKey == ElementKey(e.name)
    {
      if StartsWith(e.name, SectionMarker) {
        var section := RemoveAll(e.name, SectionMarker);
        var elems := GetOr(rs, room, []);
        if BunkBed !in Keys(elems) {
          elems := Put(elems, BunkBed, Sectioned([]));
        }
        var base := GetOr(elems, BunkBed, Sectioned([]));
        if base.Sectioned? {
          elems := Put(elems, BunkBed, Sectioned(Put(base.sections, section, RowDims(e))));
        }
        loaded := Put(rs, room, elems);
        elKey := BunkBed + "|" + section;
      } else {
        loaded := Put(rs, room, Put(GetOr(rs, room, []), e.name, Plain(RowDims(e))));
        elKey := e.name;
      }
    }

    /** The element loop of `load_project`, over the rows in the project's rooms. */
    method PlaceElementRows(skeleton: Rooms, names: map<nat, string>) returns (loaded: Rooms, keys: map<nat, (string, string)>)
      ensures loaded == PlaceElements(skeleton, names, elements)
      ensures keys == ElementKeys(names, elements)
    {
      loaded, keys := skeleton, map[];
      for b := 0 to |elements|
        invariant loaded == PlaceElements(skeleton, names, elements[..b])
        invariant keys == ElementKeys(names, elements[..b])
      {
        assert elements[..b + 1][..b] == elements[..b];
        var e := elements[b];
        if e.roomId in names {
          var room := names[e.roomId];
          var elKey;
          loaded, elKey := PlaceElementRow(loaded, room, e);
          keys := keys[e.id := (room, elKey)];
        }
      }
      assert elements[..|elements|] == elements;
    }

    /** The material loop of `load_project`, over the rows of the loaded elements. */
    method PlaceMaterialRows(keys: map<nat, (string, string)>) returns (em: ElementMaterials)
      ensures em == PlaceMaterials([], keys, materials)
    {
      var rows := materials;
      em := [];
      for c := 0 to |rows|
        invariant em == PlaceMaterials([], keys, rows[..c])
      {
        PlaceMaterialsNext(keys, rows, c);
        var m := rows[c];
        if m.elementId in keys {
          var (room, elKey) := keys[m.elementId];
          var key := LoadKey(room, elKey);
          em := Put(em, key, Put(GetOr(em, key, []), m.category, EntryOf(m)));
        }
      }
      assert rows[..|rows|] == rows;
    }

    /** `load_project`: reads the tables, changes nothing. */
    method LoadProject(username: string, projectName: string) returns (r: Option<Project>)
      ensures r == Loaded(State(), username, projectName)
    {
      var uid := UserIdIn(users, username);
      if !Known(uid) {
        return None;
      }
      var i := ProjectIndex(projects, uid.value, projectName);
      if i.None? {
        return None;
      }
      var p := projects[i.value];
      var roomRows := Filter(rooms, RoomOf(p.id));
      var loaded: Rooms := [];
      var names: map<nat, string> := map[];
      for a := 0 to |roomRows|
        invariant loaded == Skeleton(roomRows[..a]) && names == RoomNames(roomRows[..a])
      {
        assert roomRows[..a + 1][..a] == roomRows[..a];
        loaded := Put(loaded, roomRows[a].name, []);
        names := names[roomRows[a].id := roomRows[a].name];
      }
      assert roomRows[..|roomRows|] == roomRows;
      var em: ElementMaterials := [];
      if |names| > 0 {
        var keys;
        loaded, keys := PlaceElementRows(loaded, names);
        if |keys| > 0 {
          em := PlaceMaterialRows(keys);
        } else {
          NoElementsNoMaterials([], materials);
        }
      } else {
        NoRoomsNoElements(loaded, elements);
        NoElementsNoMaterials([], materials);
      }
      return Some(Project(None, None, None, p.houseType, p.numBedrooms, Some(loaded), None, Some(em), None));
    }

    /** `list_projects`. */
    method ListProjects(username: string) returns (rows: seq<Listing>)
      ensures rows == Listed(State(), username)
    {
      var uid := UserIdIn(users, username);
      if !Known(uid) {
        return [];
      }
      rows := [];
      for i := 0 to |projects|
        invariant rows == ListingOf(projects[..i], uid.value)
      {
        assert projects[..i + 1][..i] == projects[..i];
        var p := projects[i];
        if p.userId == uid.value {
          rows := rows + [Listing(p.name, p.createdAt, p.lastModified)];
        }
      }
      assert projects[..|projects|] == projects;
    }

    /** `save_area_details`. */
    method SaveAreaDetails(eid: nat, section: string, info: Dict<real>)
      modifies this
      ensures State() == AreaSaved(old(State()), eid, section, info)
    {
      var i := AreaIndex(areas, eid, section);
      if i.Some? {
        areas := areas[i.value := AreaRowOf(eid, section, info)];
      } else {
        areas := areas + [AreaRowOf(eid, section, info)];
      }
    }
  }
}
