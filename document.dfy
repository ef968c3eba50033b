/**
 * The project document the pages pass around and store, and the one traversal order in which
 * every page visits its elements: rooms in order, elements of a room in order, and the sections
 * of a Bunk Bed in order.
 */
module Document {
  import opened Wrappers
  import opened Dicts
  import opened Strings

  /** The one element whose value is a dict of sections rather than one dimension record. */
  const BunkBed: string := "Bunk Bed"
  /** A Bunk Bed section is shown and stored under the element name "Bunk Bed - <section>". */
  const SectionMarker: string := "Bunk Bed - "

  /** A dimension record as stored; a key may be missing from an old document. */
  datatype DimRecord = DimRecord(length: Option<real>, width: Option<real>, height: Option<real>, numShelves: Option<real>)

  const NoDims := DimRecord(None, None, None, None)

  /** `record.get(key, 0)`. */
  function Field(o: Option<real>): real {
    o.GetOr(0.0)
  }

  /** A room's element value: one record, or (for a Bunk Bed) a dict of section records. */
  datatype ElementValue = Plain(dims: DimRecord) | Sectioned(sections: Dict<DimRecord>)

  type Room = Dict<ElementValue>
  type Rooms = Dict<Room>

  datatype AreaRecord = AreaRecord(
    shutterArea: real, sideArea: real, topBottomArea: real,
    backPanelArea: real, shelfArea: real, totalArea: real)

  datatype AreaValue = PlainArea(record: AreaRecord) | SectionedArea(sections: Dict<AreaRecord>)

  type AreaDetails = Dict<Dict<AreaValue>>

  /**
   * One material choice. Board choices carry type, grade, brand, model, thickness and rate;
   * laminate choices only type, thickness and rate. (`kind` is the "type" key.)
   */
  datatype MaterialEntry = MaterialEntry(
    kind: Option<string>, grade: Option<string>, brand: Option<string>,
    model: Option<string>, thickness: Option<string>, rate: Option<real>)

  const EmptyEntry := MaterialEntry(None, None, None, None, None, None)

  /** Python's truth value of a dict: false exactly for `{}`. */
  predicate IsEmpty(m: MaterialEntry) {
    m == EmptyEntry
  }

  /** The three surface categories, in the order every page visits them. */
  const Shutter: string := "shutter"
  const Carcus: string := "carcus"
  const Laminate: string := "laminate"
  const Categories: seq<string> := [Shutter, Carcus, Laminate]

  type CategoryMaterials = Dict<MaterialEntry>
  type ElementMaterials = Dict<CategoryMaterials>

  /** The JSON project document; a key that may be absent is an `Option`. */
  datatype Project = Project(
    name: Option<string>,
    createdAt: Option<string>,
    lastModified: Option<string>,
    houseType: Option<string>,
    numBedrooms: Option<int>,
    rooms: Option<Rooms>,
    areaDetails: Option<AreaDetails>,
    elementMaterials: Option<ElementMaterials>,
    materials: Option<CategoryMaterials>)

  const EmptyProject := Project(None, None, None, None, None, None, None, None, None)

  /** Which element (or Bunk Bed section) of which room. */
  datatype ElementId = ElementId(room: string, element: string, section: Option<string>)

  /** The key of `element_materials`: "room|element|section" or "room|element". */
  function MaterialKey(id: ElementId): string {
    match id.section
    case Some(s) => id.room + "|" + id.element + "|" + s
    case None => id.room + "|" + id.element
  }

  /** The "Element" column of a row: "Bunk Bed - <section>" for a section, else the element name. */
  function Label(id: ElementId): string {
    match id.section
    case Some(s) => id.element + " - " + s
    case None => id.element
  }

  /** One visited element or section, with the index of its room and its dimension record. */
  datatype Unit = Unit(roomIndex: nat, id: ElementId, dims: DimRecord)

  /**
   * The record read for an element that is not handled as a Bunk Bed. A dict of sections read
   * as a record has none of the dimension keys.
   */
  function PlainDims(v: ElementValue): DimRecord {
    match v
    case Plain(d) => d
    case Sectioned(_) => NoDims
  }

  function SectionUnits(i: nat, room: string, secs: Dict<DimRecord>): seq<Unit> {
    if secs == [] then []
    else
      var last := secs[|secs| - 1];
      SectionUnits(i, room, secs[..|secs| - 1]) + [Unit(i, ElementId(room, BunkBed, Some(last.0)), last.1)]
  }

  /** The source tests the name "Bunk Bed"; a Bunk Bed holding one record is refused by BunkBedsSectioned. */
  function ElementUnits(i: nat, room: string, name: string, v: ElementValue): seq<Unit> {
    if name == BunkBed && v.Sectioned? then SectionUnits(i, room, v.sections)
    else [Unit(i, ElementId(room, name, None), PlainDims(v))]
  }

  function RoomUnits(i: nat, room: string, elems: Room): seq<Unit> {
    if elems == [] then []
    else
      var last := elems[|elems| - 1];
      RoomUnits(i, room, elems[..|elems| - 1]) + ElementUnits(i, room, last.0, last.1)
  }

  /** All elements and sections of the document, in the order the pages' nested loops visit them. */
  function Flatten(rooms: Rooms): seq<Unit> {
    if rooms == [] then []
    else
      var n := |rooms| - 1;
      Flatten(rooms[..n]) + RoomUnits(n, rooms[n].0, rooms[n].1)
  }

  /**
   * Every element named "Bunk Bed" holds a dict of sections. Iterating the items of a single
   * record as sections raises in the source, so every consumer of `rooms` needs this.
   */
  predicate BunkBedsSectioned(rooms: Rooms) {
    forall i, j :: 0 <= i < |rooms| && 0 <= j < |rooms[i].1| && rooms[i].1[j].0 == BunkBed ==>
      rooms[i].1[j].1.Sectioned?
  }

  /** `file.replace(".json", "")`. */
  function ProjectNameOf(file: string): string {
    RemoveAll(file, ".json")
  }

  /** A project stored as "<name>.json" is read back under its own name when ".json" does not occur in the name. */
  lemma {:induction false} ProjectNameOfFile(name: string)
    requires !Contains(name, ".json")
    ensures ProjectNameOf(name + ".json") == name
  {
    if name == [] {
      assert name + ".json" == ".json" + [];
      RemoveAllLeading(".json", []);
    } else {
      var s := name + ".json";
      assert s[..5] != ".json" by {
        if |name| >= 5 {
          assert !OccursAt(name, ".json", 0);
          assert s[..5] == name[..5];
        } else {
          // the suffix's '.' falls inside the first five characters, where ".json" has a letter
          assert s[..5][|name|] == '.' != ".json"[|name|];
        }
      }
      assert !Contains(name[1..], ".json") by {
        if i :| 0 <= i <= |name[1..]| && OccursAt(name[1..], ".json", i) {
          assert name[1..][i..i + 5] == name[i + 1..i + 6];
          assert OccursAt(name, ".json", i + 1);
        }
      }
      assert s[1..] == name[1..] + ".json";
      ProjectNameOfFile(name[1..]);
      assert name == [name[0]] + name[1..];
    }
  }

  /** A non-empty sequence is its front followed by its last element. */
  lemma SplitLast<T>(s: seq<T>)
    requires s != []
    ensures s == s[..|s| - 1] + [s[|s| - 1]]
  {
  }

  /** The prefix of length `n + 1` is the prefix of length `n` and the next item. */
  lemma PrefixSnoc<T>(s: seq<T>, n: nat, i: nat)
    requires i == n + 1 && i <= |s|
    ensures s[..i] == s[..n] + [s[n]]
  {
  }

  /** The loops' next room. */
  lemma FlattenNext(rooms: Rooms, i: nat)
    requires i < |rooms|
    ensures Flatten(rooms[..i + 1]) == Flatten(rooms[..i]) + RoomUnits(i, rooms[i].0, rooms[i].1)
  {
    assert rooms[..i + 1][..i] == rooms[..i];
  }

  /** The loops' next element of a room. */
  lemma {:induction false} RoomUnitsNext(i: nat, room: string, elems: Room, j: nat)
    requires j < |elems|
    ensures RoomUnits(i, room, elems[..j + 1])
         == RoomUnits(i, room, elems[..j]) + ElementUnits(i, room, elems[j].0, elems[j].1)
  {
    assert elems[..j + 1][..j] == elems[..j];
  }

  /** The loops' next Bunk Bed section. */
  lemma {:induction false} SectionUnitsNext(i: nat, room: string, secs: Dict<DimRecord>, k: nat)
    requires k < |secs|
    ensures SectionUnits(i, room, secs[..k + 1])
         == SectionUnits(i, room, secs[..k]) + [Unit(i, ElementId(room, BunkBed, Some(secs[k].0)), secs[k].1)]
  {
    assert secs[..k + 1][..k] == secs[..k];
  }
}
