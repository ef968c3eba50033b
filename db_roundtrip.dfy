/**
 * What a save followed by a load gives back (utils/db.py). The rooms come back with every
 * dimension key present (a missing one as 0), a Bunk Bed without sections is gone, and only
 * the non-empty material choices return, each with all six fields. Area details do not come
 * back at all.
 */
module DbRoundTrip {
  import opened Wrappers
  import opened Dicts
  import opened Strings
  import opened Document
  import opened Db

  // ---------------------------------------------------------------- the document as it comes back

  /** A dimension record as it is reloaded: all four keys, a missing one as 0. */
  function NormDims(d: DimRecord): DimRecord {
    DimRecord(Some(Field(d.length)), Some(Field(d.width)), Some(Field(d.height)), Some(Field(d.numShelves)))
  }

  function NormSections(secs: Dict<DimRecord>): (r: Dict<DimRecord>)
    ensures |r| == |secs| && forall m :: 0 <= m < |secs| ==> r[m].0 == secs[m].0
  {
    if secs == [] then []
    else
      var n := |secs| - 1;
      NormSections(secs[..n]) + [(secs[n].0, NormDims(secs[n].1))]
  }

  /** The Bunk Bed entry a room gets back for the sections `ss`: none when there are no sections. */
  function SectionEntry(ss: Dict<DimRecord>): Room {
    if ss == [] then [] else [(BunkBed, Sectioned(NormSections(ss)))]
  }

  function NormRoom(elems: Room): Room {
    if elems == [] then []
    else
      var n := |elems| - 1;
      var prev := NormRoom(elems[..n]);
      var name := elems[n].0;
      var v := elems[n].1;
      if name == BunkBed && v.Sectioned? then prev + SectionEntry(v.sections)
      else prev + [(name, Plain(NormDims(PlainDims(v))))]
  }

  function NormRooms(rs: Rooms): (r: Rooms)
    ensures |r| == |rs| && forall m :: 0 <= m < |rs| ==> r[m].0 == rs[m].0
  {
    if rs == [] then []
    else
      var n := |rs| - 1;
      NormRooms(rs[..n]) + [(rs[n].0, NormRoom(rs[n].1))]
  }

  /** The rooms as the load first lays them out: every room, with no elements yet. */
  function EmptyRooms(rs: Rooms): (r: Rooms)
    ensures |r| == |rs|
  {
    if rs == [] then [] else [(rs[0].0, [])] + EmptyRooms(rs[1..])
  }

  /**
   * What the load needs to rebuild the rooms: room names, element names and section names are
   * each distinct (they are dict keys), a section name does not contain "Bunk Bed - ", and no
   * other element's name starts with it.
   */
  predicate ElementRestorable(name: string, v: ElementValue) {
    if name == BunkBed && v.Sectioned? then
      KeysDistinct(v.sections) && forall k :: 0 <= k < |v.sections| ==> !Contains(v.sections[k].0, SectionMarker)
    else !StartsWith(name, SectionMarker)
  }

  predicate RoomRestorable(elems: Room) {
    KeysDistinct(elems) && forall j :: 0 <= j < |elems| ==> ElementRestorable(elems[j].0, elems[j].1)
  }

  predicate Restorable(rs: Rooms) {
    KeysDistinct(rs) && forall i :: 0 <= i < |rs| ==> RoomRestorable(rs[i].1)
  }

  /** Every unit placed in turn into the rebuilt rooms, as its element row would be. */
  function PlaceUnits(acc: Rooms, units: seq<Unit>): Rooms {
    if units == [] then acc
    else
      var n := |units| - 1;
      var u := units[n];
      PlaceElement(PlaceUnits(acc, units[..n]), u.id.room, Label(u.id), NormDims(u.dims))
  }

  // ---------------------------------------------------------------- small facts

  lemma {:induction false} PlaceUnitsAppend(acc: Rooms, a: seq<Unit>, b: seq<Unit>)
    ensures PlaceUnits(acc, a + b) == PlaceUnits(PlaceUnits(acc, a), b)
    decreases |b|
  {
    if b == [] {
      assert a + b == a;
    } else {
      var n := |b| - 1;
      assert (a + b)[..|a + b| - 1] == a + b[..n];
      assert (a + b)[|a + b| - 1] == b[n];
      PlaceUnitsAppend(acc, a, b[..n]);
    }
  }

  lemma {:induction false} PlaceOne(acc: Rooms, u: Unit)
    ensures PlaceUnits(acc, [u]) == PlaceElement(acc, u.id.room, Label(u.id), NormDims(u.dims))
  {
    assert [u][..0] == [];
  }

  /** A key that no pair carries is not among the keys. */
  lemma {:induction false} NotAKey<V>(d: Dict<V>, k: string)
    requires forall m :: 0 <= m < |d| ==> d[m].0 != k
    ensures k !in Keys(d)
  {
  }

  /** A key of the prefix `d[..n]` is a key of `d`. */
  lemma {:induction false} KeyOfPrefix<V>(d: Dict<V>, n: nat, k: string)
    requires n <= |d| && k in Keys(d[..n])
    ensures k in Keys(d)
  {
    var m :| 0 <= m < n && Keys(d[..n])[m] == k;
    assert Keys(d)[m] == k;
  }

  /** Normalising a room's elements only drops or keeps names: it never invents one. */
  lemma {:induction false} NormRoomKey(elems: Room, k: string)
    ensures k in Keys(NormRoom(elems)) ==> k in Keys(elems)
  {
    if elems != [] && k in Keys(NormRoom(elems)) {
      var n := |elems| - 1;
      var prev := NormRoom(elems[..n]);
      var tail := NormRoom(elems)[|prev|..];
      assert NormRoom(elems) == prev + tail;
      KeysAppend(prev, tail);
      if k in Keys(prev) {
        NormRoomKey(elems[..n], k);
        KeyOfPrefix(elems, n, k);
      } else {
        assert Keys(elems)[n] == k;
      }
    }
  }

  /** In a dict with distinct keys, the last key is not among the earlier ones. */
  lemma LastKeyFresh<V>(d: Dict<V>, n: nat)
    requires KeysDistinct(d) && n < |d|
    ensures d[n].0 !in Keys(d[..n])
  {
    NotAKey(d[..n], d[n].0);
  }

  /** The label of a section unit is "Bunk Bed - " followed by the section name. */
  lemma SectionLabel(room: string, s: string)
    ensures Label(ElementId(room, BunkBed, Some(s))) == SectionMarker + s
  {
    assert BunkBed + " - " == SectionMarker;
  }

  /** Reading a section row's name back gives the section name. */
  lemma {:induction false} SectionNameBack(s: string)
    requires !Contains(s, SectionMarker)
    ensures StartsWith(SectionMarker + s, SectionMarker)
    ensures RemoveAll(SectionMarker + s, SectionMarker) == s
  {
    assert (SectionMarker + s)[..|SectionMarker|] == SectionMarker;
    RemoveAllLeading(SectionMarker, s);
    RemoveAllAbsent(s, SectionMarker);
  }

  // ---------------------------------------------------------------- one element row placed

  /** A plain element is appended to its room, which keeps its place among the rooms. */
  lemma {:induction false} PlainStep(p: Rooms, room: string, r: Room, q: Rooms, name: string, d: DimRecord)
    requires room !in Keys(p) && name !in Keys(r) && !StartsWith(name, SectionMarker)
    ensures PlaceElement(p + [(room, r)] + q, room, name, d) == p + [(room, r + [(name, Plain(d))])] + q
  {
    GetInMiddle(p, room, r, q);
    PutInMiddle(p, room, r, q, r + [(name, Plain(d))]);
  }

  /** The first section of a Bunk Bed creates its entry at the end of the room. */
  lemma {:induction false} FirstSectionStep(r: Room, s: string, d: DimRecord)
    requires BunkBed !in Keys(r)
    ensures var withBase := Put(r, BunkBed, Sectioned([]));
      withBase == r + [(BunkBed, Sectioned([]))]
      && GetOr(withBase, BunkBed, Sectioned([])) == Sectioned([])
      && Put(withBase, BunkBed, Sectioned(Put([], s, d))) == r + [(BunkBed, Sectioned([(s, d)]))]
  {
    GetInMiddle(r, BunkBed, Sectioned([]), []);
    PutInMiddle(r, BunkBed, Sectioned([]), [], Sectioned([(s, d)]));
    assert r + [(BunkBed, Sectioned([]))] + [] == r + [(BunkBed, Sectioned([]))];
    assert r + [(BunkBed, Sectioned([(s, d)]))] + [] == r + [(BunkBed, Sectioned([(s, d)]))];
  }

  /** A later section is appended to the Bunk Bed's sections. */
  lemma {:induction false} NextSectionStep(r: Room, ns: Dict<DimRecord>, s: string, d: DimRecord)
    requires BunkBed !in Keys(r) && s !in Keys(ns)
    ensures var e := r + [(BunkBed, Sectioned(ns))];
      BunkBed in Keys(e)
      && GetOr(e, BunkBed, Sectioned([])) == Sectioned(ns)
      && Put(e, BunkBed, Sectioned(Put(ns, s, d))) == r + [(BunkBed, Sectioned(ns + [(s, d)]))]
  {
    var e := r + [(BunkBed, Sectioned(ns))];
    assert Keys(e)[|r|] == BunkBed;
    assert e == r + [(BunkBed, Sectioned(ns))] + [];
    GetInMiddle(r, BunkBed, Sectioned(ns), []);
    PutInMiddle(r, BunkBed, Sectioned(ns), [], Sectioned(ns + [(s, d)]));
  }

  /** One section row placed: the Bunk Bed entry of the room gains that section. */
  lemma {:induction false} SectionStep(p: Rooms, room: string, r: Room, q: Rooms, ss: Dict<DimRecord>, s: string, d: DimRecord)
    requires room !in Keys(p) && BunkBed !in Keys(r)
    requires s !in Keys(ss) && !Contains(s, SectionMarker)
    ensures PlaceElement(p + [(room, r + SectionEntry(ss))] + q, room, SectionMarker + s, NormDims(d))
         == p + [(room, r + SectionEntry(ss + [(s, d)]))] + q
  {
    var e := r + SectionEntry(ss);
    GetInMiddle(p, room, e, q);
    SectionNameBack(s);
    var e' := r + SectionEntry(ss + [(s, d)]);
    assert (ss + [(s, d)])[..|ss|] == ss;
    if ss == [] {
      assert e == r;
      FirstSectionStep(r, s, NormDims(d));
      assert ss + [(s, d)] == [(s, d)];
      assert NormSections([(s, d)]) == [(s, NormDims(d))];
    } else {
      NotAKey(NormSections(ss), s);
      NextSectionStep(r, NormSections(ss), s, NormDims(d));
    }
    PutInMiddle(p, room, e, q, e');
  }

  // ---------------------------------------------------------------- a room, then all rooms

  /** The next section row placed after those of `ss`. */
  lemma {:induction false} SectionsPlacedNext(p: Rooms, room: string, r: Room, q: Rooms, i: nat, ss: Dict<DimRecord>, s: string, d: DimRecord)
    requires room !in Keys(p) && BunkBed !in Keys(r)
    requires s !in Keys(ss) && !Contains(s, SectionMarker)
    requires PlaceUnits(p + [(room, r)] + q, SectionUnits(i, room, ss)) == p + [(room, r + SectionEntry(ss))] + q
    ensures PlaceUnits(p + [(room, r)] + q, SectionUnits(i, room, ss + [(s, d)]))
         == p + [(room, r + SectionEntry(ss + [(s, d)]))] + q
  {
    var x := p + [(room, r)] + q;
    var u := Unit(i, ElementId(room, BunkBed, Some(s)), d);
    assert (ss + [(s, d)])[..|ss|] == ss;
    assert SectionUnits(i, room, ss + [(s, d)]) == SectionUnits(i, room, ss) + [u];
    PlaceUnitsAppend(x, SectionUnits(i, room, ss), [u]);
    PlaceOne(PlaceUnits(x, SectionUnits(i, room, ss)), u);
    SectionLabel(room, s);
    SectionStep(p, room, r, q, ss, s, d);
  }

  /** The section `secs[n]` placed after the sections before it. */
  lemma {:induction false} SectionsPlacedStep(p: Rooms, room: string, r: Room, q: Rooms, i: nat, secs: Dict<DimRecord>, n: nat, k: nat)
    requires room !in Keys(p) && BunkBed !in Keys(r)
    requires KeysDistinct(secs) && forall m :: 0 <= m < |secs| ==> !Contains(secs[m].0, SectionMarker)
    requires k == n + 1 && k <= |secs|
    requires PlaceUnits(p + [(room, r)] + q, SectionUnits(i, room, secs[..n])) == p + [(room, r + SectionEntry(secs[..n]))] + q
    ensures PlaceUnits(p + [(room, r)] + q, SectionUnits(i, room, secs[..k])) == p + [(room, r + SectionEntry(secs[..k]))] + q
  {
    var s := secs[n];
    PrefixSnoc(secs, n, k);
    LastKeyFresh(secs, n);
    SectionsPlacedNext(p, room, r, q, i, secs[..n], s.0, s.1);
  }

  /** Placing a Bunk Bed's section rows builds its entry section by section. */
  lemma {:induction false} SectionsPlaced(p: Rooms, room: string, r: Room, q: Rooms, i: nat, secs: Dict<DimRecord>, k: nat)
    requires room !in Keys(p) && BunkBed !in Keys(r)
    requires KeysDistinct(secs) && forall m :: 0 <= m < |secs| ==> !Contains(secs[m].0, SectionMarker)
    requires k <= |secs|
    ensures PlaceUnits(p + [(room, r)] + q, SectionUnits(i, room, secs[..k])) == p + [(room, r + SectionEntry(secs[..k]))] + q
  {
    if k == 0 {
      assert SectionUnits(i, room, secs[..k]) == [];
      assert r + SectionEntry(secs[..k]) == r;
    } else {
      var n := k - 1;
      SectionsPlaced(p, room, r, q, i, secs, n);
      SectionsPlacedStep(p, room, r, q, i, secs, n, k);
    }
  }

  /** The next element of a room placed after those of `es`. */
  lemma {:induction false} ElementsPlacedNext(p: Rooms, room: string, q: Rooms, i: nat, es: Room, name: string, v: ElementValue)
    requires room !in Keys(p) && name !in Keys(NormRoom(es)) && ElementRestorable(name, v)
    requires PlaceUnits(p + [(room, [])] + q, RoomUnits(i, room, es)) == p + [(room, NormRoom(es))] + q
    ensures PlaceUnits(p + [(room, [])] + q, RoomUnits(i, room, es + [(name, v)]))
         == p + [(room, NormRoom(es + [(name, v)]))] + q
  {
    var x := p + [(room, [])] + q;
    var r := NormRoom(es);
    assert (es + [(name, v)])[..|es|] == es;
    assert RoomUnits(i, room, es + [(name, v)]) == RoomUnits(i, room, es) + ElementUnits(i, room, name, v);
    PlaceUnitsAppend(x, RoomUnits(i, room, es), ElementUnits(i, room, name, v));
    if name == BunkBed && v.Sectioned? {
      SectionsPlaced(p, room, r, q, i, v.sections, |v.sections|);
      assert v.sections[..|v.sections|] == v.sections;
    } else {
      var u := Unit(i, ElementId(room, name, None), PlainDims(v));
      PlaceOne(p + [(room, r)] + q, u);
      PlainStep(p, room, r, q, name, NormDims(PlainDims(v)));
    }
  }

  /** The element `elems[n]` placed after the elements before it. */
  lemma {:induction false} ElementsPlacedStep(p: Rooms, room: string, q: Rooms, i: nat, elems: Room, n: nat, j: nat)
    requires room !in Keys(p) && RoomRestorable(elems) && j == n + 1 && j <= |elems|
    requires PlaceUnits(p + [(room, [])] + q, RoomUnits(i, room, elems[..n])) == p + [(room, NormRoom(elems[..n]))] + q
    ensures PlaceUnits(p + [(room, [])] + q, RoomUnits(i, room, elems[..j])) == p + [(room, NormRoom(elems[..j]))] + q
  {
    var e := elems[n];
    PrefixSnoc(elems, n, j);
    LastKeyFresh(elems, n);
    NormRoomKey(elems[..n], e.0);
    assert ElementRestorable(e.0, e.1);
    ElementsPlacedNext(p, room, q, i, elems[..n], e.0, e.1);
  }

  /** Placing a room's element rows rebuilds that room, leaving the other rooms alone. */
  lemma {:induction false} ElementsPlaced(p: Rooms, room: string, q: Rooms, i: nat, elems: Room, j: nat)
    requires room !in Keys(p) && RoomRestorable(elems) && j <= |elems|
    ensures PlaceUnits(p + [(room, [])] + q, RoomUnits(i, room, elems[..j])) == p + [(room, NormRoom(elems[..j]))] + q
  {
    if j == 0 {
      assert RoomUnits(i, room, elems[..j]) == [];
    } else {
      var n := j - 1;
      ElementsPlaced(p, room, q, i, elems, n);
      ElementsPlacedStep(p, room, q, i, elems, n, j);
    }
  }

  lemma {:induction false} EmptyRoomsKeys(rs: Rooms)
    ensures Keys(EmptyRooms(rs)) == Keys(rs)
  {
    if rs != [] {
      EmptyRoomsKeys(rs[1..]);
    }
  }

  lemma EmptyRoomsFrom(rs: Rooms, n: nat, i: nat)
    requires i == n + 1 && i <= |rs|
    ensures EmptyRooms(rs[n..]) == [(rs[n].0, [])] + EmptyRooms(rs[i..])
  {
    assert rs[n..][1..] == rs[i..];
  }

  /** The next room's units placed after those of the rooms `done`. */
  /** Appending one room extends both its units and its reloaded form by that room alone. */
  lemma SnocRoom(done: Rooms, room: string, elems: Room, cur: Rooms)
    requires cur == done + [(room, elems)]
    ensures Flatten(cur) == Flatten(done) + RoomUnits(|done|, room, elems)
    ensures NormRooms(cur) == NormRooms(done) + [(room, NormRoom(elems))]
  {
    assert cur[..|done|] == done;
  }

  lemma {:induction false} RoomsPlacedNext(acc: Rooms, done: Rooms, room: string, elems: Room, rest: Rooms, cur: Rooms)
    requires cur == done + [(room, elems)]
    requires room !in Keys(done) && RoomRestorable(elems)
    requires PlaceUnits(acc, Flatten(done)) == NormRooms(done) + ([(room, [])] + EmptyRooms(rest))
    ensures PlaceUnits(acc, Flatten(cur)) == NormRooms(cur) + EmptyRooms(rest)
  {
    var p := NormRooms(done);
    SnocRoom(done, room, elems, cur);
    PlaceUnitsAppend(acc, Flatten(done), RoomUnits(|done|, room, elems));
    NotAKey(p, room);
    assert p + ([(room, [])] + EmptyRooms(rest)) == p + [(room, [])] + EmptyRooms(rest);
    ElementsPlaced(p, room, EmptyRooms(rest), |done|, elems, |elems|);
    assert elems[..|elems|] == elems;
  }

  /** The room `rs[n]` placed after the rooms before it. */
  lemma {:induction false} RoomsPlacedStep(rs: Rooms, n: nat, i: nat)
    requires Restorable(rs) && i == n + 1 && i <= |rs|
    requires PlaceUnits(EmptyRooms(rs), Flatten(rs[..n])) == NormRooms(rs[..n]) + EmptyRooms(rs[n..])
    ensures PlaceUnits(EmptyRooms(rs), Flatten(rs[..i])) == NormRooms(rs[..i]) + EmptyRooms(rs[i..])
  {
    var room := rs[n];
    EmptyRoomsFrom(rs, n, i);
    LastKeyFresh(rs, n);
    assert RoomRestorable(room.1);
    PrefixSnoc(rs, n, i);
    RoomsPlacedNext(EmptyRooms(rs), rs[..n], room.0, room.1, rs[i..], rs[..i]);
  }

  /** Placing every unit of the first `i` rooms rebuilds exactly those rooms. */
  lemma {:induction false} RoomsPlaced(rs: Rooms, i: nat)
    requires Restorable(rs) && i <= |rs|
    ensures PlaceUnits(EmptyRooms(rs), Flatten(rs[..i])) == NormRooms(rs[..i]) + EmptyRooms(rs[i..])
  {
    if i == 0 {
      assert Flatten(rs[..i]) == [];
      assert rs[i..] == rs;
    } else {
      var n := i - 1;
      RoomsPlaced(rs, n);
      RoomsPlacedStep(rs, n, i);
    }
  }

  /** The rooms rebuilt from the units of a restorable document are that document, normalised. */
  lemma {:induction false} RoomsRebuilt(rs: Rooms)
    requires Restorable(rs)
    ensures PlaceUnits(EmptyRooms(rs), Flatten(rs)) == NormRooms(rs)
  {
    RoomsPlaced(rs, |rs|);
    assert rs[..|rs|] == rs;
    assert rs[|rs|..] == [];
  }

  // ---------------------------------------------------------------- the room and element rows read back

  lemma {:induction false} EmptyRoomsSnoc(a: Rooms, x: (string, Room))
    ensures EmptyRooms(a + [x]) == EmptyRooms(a) + [(x.0, [])]
  {
    if a == [] {
      assert [x][1..] == [];
    } else {
      assert (a + [x])[1..] == a[1..] + [x];
      EmptyRoomsSnoc(a[1..], x);
    }
  }

  /** The room rows inserted for `rs`: one per room, with consecutive ids from `base`. */
  lemma {:induction false} RoomRowsShape(pid: nat, rs: Rooms, base: nat)
    ensures |RoomRowsOf(pid, rs, base)| == |rs|
    ensures forall m :: 0 <= m < |rs| ==> RoomRowsOf(pid, rs, base)[m] == RoomRow(base + m, pid, rs[m].0)
  {
    if rs != [] {
      RoomRowsShape(pid, rs[..|rs| - 1], base);
    }
  }

  lemma {:induction false} SkeletonSnoc(rows: seq<RoomRow>, x: RoomRow)
    ensures Skeleton(rows + [x]) == Put(Skeleton(rows), x.name, [])
  {
    assert (rows + [x])[..|rows|] == rows;
  }

  /** The project's room rows, read back, give its rooms with no elements yet. */
  lemma {:induction false} SkeletonOfRows(pid: nat, rs: Rooms, base: nat)
    requires KeysDistinct(rs)
    ensures Skeleton(RoomRowsOf(pid, rs, base)) == EmptyRooms(rs)
  {
    if rs != [] {
      var n := |rs| - 1;
      var prev := RoomRowsOf(pid, rs[..n], base);
      assert KeysDistinct(rs[..n]);
      SkeletonOfRows(pid, rs[..n], base);
      SkeletonSnoc(prev, RoomRow(base + n, pid, rs[n].0));
      EmptyRoomsKeys(rs[..n]);
      LastKeyFresh(rs, n);
      EmptyRoomsSnoc(rs[..n], rs[n]);
      assert rs[..n] + [rs[n]] == rs;
    }
  }

  /** `room_id_map` of the inserted room rows: each new id names its room. */
  lemma {:induction false} RoomNamesOf(pid: nat, rs: Rooms, base: nat)
    ensures forall k :: k in RoomNames(RoomRowsOf(pid, rs, base)) <==> base <= k < base + |rs|
    ensures forall k :: base <= k < base + |rs| ==> RoomNames(RoomRowsOf(pid, rs, base))[k] == rs[k - base].0
  {
    if rs != [] {
      var n := |rs| - 1;
      RoomRowsShape(pid, rs, base);
      RoomRowsShape(pid, rs[..n], base);
      assert RoomRowsOf(pid, rs, base)[..n] == RoomRowsOf(pid, rs[..n], base);
      RoomNamesOf(pid, rs[..n], base);
    }
  }

  lemma {:induction false} SectionUnitsIn(i: nat, room: string, secs: Dict<DimRecord>)
    ensures forall u :: u in SectionUnits(i, room, secs) ==> u.roomIndex == i && u.id.room == room
  {
    if secs != [] {
      SectionUnitsIn(i, room, secs[..|secs| - 1]);
    }
  }

  lemma {:induction false} RoomUnitsIn(i: nat, room: string, elems: Room)
    ensures forall u :: u in RoomUnits(i, room, elems) ==> u.roomIndex == i && u.id.room == room
  {
    if elems != [] {
      var last := elems[|elems| - 1];
      RoomUnitsIn(i, room, elems[..|elems| - 1]);
      if last.0 == BunkBed && last.1.Sectioned? {
        SectionUnitsIn(i, room, last.1.sections);
      }
    }
  }

  /** Every visited unit belongs to the room its index points at. */
  lemma {:induction false} FlattenIn(rs: Rooms)
    ensures forall u :: u in Flatten(rs) ==> u.roomIndex < |rs| && u.id.room == rs[u.roomIndex].0
  {
    if rs != [] {
      var n := |rs| - 1;
      FlattenIn(rs[..n]);
      RoomUnitsIn(n, rs[n].0, rs[n].1);
    }
  }

  lemma {:induction false} PlaceElementsAppend(acc: Rooms, names: map<nat, string>, a: seq<ElementRow>, b: seq<ElementRow>)
    ensures PlaceElements(acc, names, a + b) == PlaceElements(PlaceElements(acc, names, a), names, b)
    decreases |b|
  {
    if b == [] {
      assert a + b == a;
    } else {
      var n := |b| - 1;
      assert (a + b)[..|a + b| - 1] == a + b[..n];
      assert (a + b)[|a + b| - 1] == b[n];
      PlaceElementsAppend(acc, names, a, b[..n]);
    }
  }

  /** Element rows of rooms outside the project leave the rebuilt rooms alone. */
  lemma {:induction false} PlaceElementsSkip(acc: Rooms, names: map<nat, string>, rows: seq<ElementRow>)
    requires forall e :: e in rows ==> e.roomId !in names
    ensures PlaceElements(acc, names, rows) == acc
  {
    if rows != [] {
      var n := |rows| - 1;
      assert rows[n] in rows;
      assert forall e :: e in rows[..n] ==> e in rows;
      PlaceElementsSkip(acc, names, rows[..n]);
    }
  }

  /** A single row of a selected room places its element. */
  lemma {:induction false} PlaceElementsOne(acc: Rooms, names: map<nat, string>, row: ElementRow, room: string, name: string, d: DimRecord)
    requires row.roomId in names && names[row.roomId] == room && row.name == name && RowDims(row) == d
    ensures PlaceElements(acc, names, [row]) == PlaceElement(acc, room, name, d)
  {
    assert [row][..0] == [];
  }

  lemma {:induction false} PlaceRowAsUnit(x: Rooms, names: map<nat, string>, u: Unit, rb: nat, id: nat)
    requires rb + u.roomIndex in names && names[rb + u.roomIndex] == u.id.room
    ensures PlaceElements(x, names, [ElementRowOf(u, rb, id)]) == PlaceElement(x, u.id.room, Label(u.id), NormDims(u.dims))
  {
    PlaceElementsOne(x, names, ElementRowOf(u, rb, id), u.id.room, Label(u.id), NormDims(u.dims));
  }

  lemma {:induction false} PlaceUnitsSnoc(acc: Rooms, init: seq<Unit>, u: Unit)
    ensures PlaceUnits(acc, init + [u]) == PlaceElement(PlaceUnits(acc, init), u.id.room, Label(u.id), NormDims(u.dims))
  {
    assert (init + [u])[..|init|] == init;
  }

  /** The rows of `units` place what the rows before the last one place, then the last row. */
  lemma {:induction false} ElementRowsSplit(acc: Rooms, names: map<nat, string>, units: seq<Unit>, rb: nat, eb: nat, n: nat, id: nat, mid: Rooms)
    requires n + 1 == |units| && id == eb + n
    requires PlaceElements(acc, names, ElementRowsOf(units[..n], rb, eb)) == mid
    ensures PlaceElements(acc, names, ElementRowsOf(units, rb, eb)) == PlaceElements(mid, names, [ElementRowOf(units[n], rb, id)])
  {
    ElementRowsAt(units, rb, eb, n, id);
    PlaceElementsAppend(acc, names, ElementRowsOf(units[..n], rb, eb), [ElementRowOf(units[n], rb, id)]);
  }

  lemma {:induction false} PlaceUnitsSplit(acc: Rooms, units: seq<Unit>, n: nat)
    requires n + 1 == |units|
    ensures PlaceUnits(acc, units) == PlaceUnits(acc, units[..n] + [units[n]])
  {
    SplitLast(units);
  }

  /** The last unit's row, placed after the units before it, completes the placement of `units`. */
  lemma {:induction false} LastRowPlaced(acc: Rooms, names: map<nat, string>, init: seq<Unit>, u: Unit, rb: nat, id: nat)
    requires rb + u.roomIndex in names && names[rb + u.roomIndex] == u.id.room
    ensures PlaceElements(PlaceUnits(acc, init), names, [ElementRowOf(u, rb, id)]) == PlaceUnits(acc, init + [u])
  {
    PlaceRowAsUnit(PlaceUnits(acc, init), names, u, rb, id);
    PlaceUnitsSnoc(acc, init, u);
  }

  lemma {:induction false} LastRowPlacedAt(acc: Rooms, names: map<nat, string>, units: seq<Unit>, rb: nat, n: nat, id: nat)
    requires n + 1 == |units|
    requires rb + units[n].roomIndex in names && names[rb + units[n].roomIndex] == units[n].id.room
    ensures PlaceElements(PlaceUnits(acc, units[..n]), names, [ElementRowOf(units[n], rb, id)]) == PlaceUnits(acc, units)
  {
    LastRowPlaced(acc, names, units[..n], units[n], rb, id);
    PlaceUnitsSplit(acc, units, n);
  }

  lemma {:induction false} ElementRowsPlacedNext(acc: Rooms, names: map<nat, string>, units: seq<Unit>, rb: nat, eb: nat, n: nat)
    requires n + 1 == |units|
    requires PlaceElements(acc, names, ElementRowsOf(units[..n], rb, eb)) == PlaceUnits(acc, units[..n])
    requires rb + units[n].roomIndex in names && names[rb + units[n].roomIndex] == units[n].id.room
    ensures PlaceElements(acc, names, ElementRowsOf(units, rb, eb)) == PlaceUnits(acc, units)
  {
    var id := eb + n;
    ElementRowsSplit(acc, names, units, rb, eb, n, id, PlaceUnits(acc, units[..n]));
    LastRowPlacedAt(acc, names, units, rb, n, id);
  }

  /** The inserted element rows, read back in order, place exactly the visited units. */
  lemma {:induction false} ElementRowsPlaced(acc: Rooms, names: map<nat, string>, units: seq<Unit>, rb: nat, eb: nat)
    requires forall u :: u in units ==> rb + u.roomIndex in names && names[rb + u.roomIndex] == u.id.room
    ensures PlaceElements(acc, names, ElementRowsOf(units, rb, eb)) == PlaceUnits(acc, units)
  {
    if units != [] {
      var n := |units| - 1;
      assert units[n] in units;
      assert forall v :: v in units[..n] ==> v in units;
      ElementRowsPlaced(acc, names, units[..n], rb, eb);
      ElementRowsPlacedNext(acc, names, units, rb, eb, n);
    }
  }

  lemma {:induction false} ElementKeysNone(names: map<nat, string>, rows: seq<ElementRow>)
    requires forall e :: e in rows ==> e.roomId !in names
    ensures ElementKeys(names, rows) == map[]
  {
    if rows != [] {
      var n := |rows| - 1;
      assert rows[n] in rows;
      assert forall e :: e in rows[..n] ==> e in rows;
      ElementKeysNone(names, rows[..n]);
    }
  }

  lemma {:induction false} ElementKeysSkip(names: map<nat, string>, a: seq<ElementRow>, b: seq<ElementRow>)
    requires forall e :: e in a ==> e.roomId !in names
    ensures ElementKeys(names, a + b) == ElementKeys(names, b)
    decreases |b|
  {
    if b == [] {
      assert a + b == a;
      ElementKeysNone(names, a);
    } else {
      var n := |b| - 1;
      assert (a + b)[..|a + b| - 1] == a + b[..n];
      assert (a + b)[|a + b| - 1] == b[n];
      ElementKeysSkip(names, a, b[..n]);
    }
  }

  /** `element_id_map` of the inserted element rows holds exactly the new ids ... */
  lemma {:induction false} ElementKeysDomain(names: map<nat, string>, units: seq<Unit>, rb: nat, eb: nat)
    requires forall u :: u in units ==> rb + u.roomIndex in names && names[rb + u.roomIndex] == u.id.room
    ensures forall k :: k in ElementKeys(names, ElementRowsOf(units, rb, eb)) <==> eb <= k < eb + |units|
  {
    forall k: nat
      ensures k in ElementKeys(names, ElementRowsOf(units, rb, eb)) <==> eb <= k < eb + |units|
    {
      ElementKeyRange(names, units, rb, eb, k);
      if eb <= k < eb + |units| {
        ElementKeyAt(names, units, rb, eb, k, k - eb);
      }
    }
  }

  lemma {:induction false} ElementKeysSnoc(names: map<nat, string>, rows: seq<ElementRow>, prev: seq<ElementRow>, row: ElementRow)
    requires rows == prev + [row]
    ensures ElementKeys(names, rows)
         == if row.roomId in names then ElementKeys(names, prev)[row.id := (names[row.roomId], ElementKey(row.name))] else ElementKeys(names, prev)
  {
    assert rows[..|prev|] == prev;
  }

  /** The row of the last unit keys that unit. */
  lemma {:induction false} ElementKeysLast(names: map<nat, string>, units: seq<Unit>, rb: nat, eb: nat, n: nat, id: nat)
    requires n + 1 == |units| && id == eb + n
    requires rb + units[n].roomIndex in names && names[rb + units[n].roomIndex] == units[n].id.room
    ensures id in ElementKeys(names, ElementRowsOf(units, rb, eb))
    ensures ElementKeys(names, ElementRowsOf(units, rb, eb))[id] == (units[n].id.room, ElementKey(Label(units[n].id)))
  {
    ElementRowsAt(units, rb, eb, n, id);
    ElementKeysSnoc(names, ElementRowsOf(units, rb, eb), ElementRowsOf(units[..n], rb, eb), ElementRowOf(units[n], rb, id));
  }

  /** The row of the last unit leaves every other id of the map as it was. */
  lemma {:induction false} ElementKeysEarlier(names: map<nat, string>, units: seq<Unit>, rb: nat, eb: nat, n: nat, id: nat, k: nat)
    requires n + 1 == |units| && id == eb + n && k != id
    ensures k in ElementKeys(names, ElementRowsOf(units, rb, eb)) <==> k in ElementKeys(names, ElementRowsOf(units[..n], rb, eb))
    ensures k in ElementKeys(names, ElementRowsOf(units, rb, eb)) ==>
      ElementKeys(names, ElementRowsOf(units, rb, eb))[k] == ElementKeys(names, ElementRowsOf(units[..n], rb, eb))[k]
  {
    ElementRowsAt(units, rb, eb, n, id);
    ElementKeysSnoc(names, ElementRowsOf(units, rb, eb), ElementRowsOf(units[..n], rb, eb), ElementRowOf(units[n], rb, id));
  }

  /** `element_id_map` of the inserted element rows: the id handed to the unit `units[j]` keys that unit. */
  lemma {:induction false} ElementKeyAt(names: map<nat, string>, units: seq<Unit>, rb: nat, eb: nat, k: nat, j: nat)
    requires forall u :: u in units ==> rb + u.roomIndex in names && names[rb + u.roomIndex] == u.id.room
    requires k == eb + j && j < |units|
    ensures k in ElementKeys(names, ElementRowsOf(units, rb, eb))
    ensures ElementKeys(names, ElementRowsOf(units, rb, eb))[k] == (units[j].id.room, ElementKey(Label(units[j].id)))
  {
    var n := |units| - 1;
    var id := eb + n;
    if j == n {
      assert units[n] in units;
      ElementKeysLast(names, units, rb, eb, n, id);
    } else {
      assert forall v :: v in units[..n] ==> v in units;
      ElementKeyAt(names, units[..n], rb, eb, k, j);
      assert units[..n][j] == units[j];
      ElementKeysEarlier(names, units, rb, eb, n, id, k);
    }
  }

  /** ... and no other id is in the map. */
  lemma {:induction false} ElementKeyRange(names: map<nat, string>, units: seq<Unit>, rb: nat, eb: nat, k: nat)
    ensures k in ElementKeys(names, ElementRowsOf(units, rb, eb)) ==> eb <= k < eb + |units|
  {
    if units != [] {
      var n := |units| - 1;
      var id := eb + n;
      if k != id {
        ElementKeysEarlier(names, units, rb, eb, n, id, k);
        ElementKeyRange(names, units[..n], rb, eb, k);
      }
    }
  }

  // ---------------------------------------------------------------- the material rows read back

  /** A material choice as it is reloaded: all six fields, a missing one as "" (the rate as 0). */
  function NormEntry(m: MaterialEntry): MaterialEntry {
    MaterialEntry(Some(m.kind.GetOr("")), Some(m.grade.GetOr("")), Some(m.brand.GetOr("")),
      Some(m.model.GetOr("")), Some(m.thickness.GetOr("")), Some(Field(m.rate)))
  }

  /** The non-empty choices among the categories `cats`, in that order, as they come back. */
  function NormChoices(cm: CategoryMaterials, cats: seq<string>): CategoryMaterials {
    if cats == [] then []
    else
      var n := |cats| - 1;
      var m := GetOr(cm, cats[n], EmptyEntry);
      NormChoices(cm, cats[..n]) + (if IsEmpty(m) then [] else [(cats[n], NormEntry(m))])
  }

  /** The entry an element key gets back: none when no choice survives. */
  function EntryFor(key: string, ch: CategoryMaterials): ElementMaterials {
    if ch == [] then [] else [(key, ch)]
  }

  /**
   * The element materials as they come back: for each visited unit in order, its key with its
   * non-empty choices, when it has any. Choices stored under keys of no visited unit are gone.
   */
  function NormEM(units: seq<Unit>, em: ElementMaterials): ElementMaterials {
    if units == [] then []
    else
      var n := |units| - 1;
      var key := MaterialKey(units[n].id);
      NormEM(units[..n], em) + EntryFor(key, NormChoices(GetOr(em, key, []), Categories))
  }

  /** The material keys of the visited units. */
  function UnitKeys(units: seq<Unit>): (r: seq<string>)
    ensures |r| == |units| && forall m :: 0 <= m < |units| ==> r[m] == MaterialKey(units[m].id)
  {
    if units == [] then [] else UnitKeys(units[..|units| - 1]) + [MaterialKey(units[|units| - 1].id)]
  }

  /** No two visited units share a material key. */
  predicate UnitKeysDistinct(units: seq<Unit>) {
    forall a, b :: 0 <= a < b < |units| ==> MaterialKey(units[a].id) != MaterialKey(units[b].id)
  }

  /** A unit whose stored element name reads back as its material key. */
  predicate KeyReadable(id: ElementId) {
    match id.section
    case Some(s) => id.element == BunkBed && !Contains(s, SectionMarker)
    case None => !StartsWith(id.element, SectionMarker)
  }

  lemma {:induction false} NormChoicesKeys(cm: CategoryMaterials, cats: seq<string>)
    ensures forall k :: k in Keys(NormChoices(cm, cats)) ==> k in cats
  {
    if cats != [] {
      var n := |cats| - 1;
      var m := GetOr(cm, cats[n], EmptyEntry);
      var prev := NormChoices(cm, cats[..n]);
      var tail := if IsEmpty(m) then [] else [(cats[n], NormEntry(m))];
      var r := NormChoices(cm, cats);
      assert r == prev + tail;
      NormChoicesKeys(cm, cats[..n]);
      forall k | k in Keys(r) ensures k in cats {
        var j :| 0 <= j < |r| && Keys(r)[j] == k;
        if j < |prev| {
          assert r[j] == prev[j];
          assert Keys(prev)[j] == k;
          assert k in cats[..n];
        } else {
          assert r[j] == tail[j - |prev|];
          assert k == cats[n];
        }
      }
    }
  }

  lemma {:induction false} NormEMKeys(units: seq<Unit>, em: ElementMaterials)
    ensures forall k :: k in Keys(NormEM(units, em)) ==> k in UnitKeys(units)
  {
    if units != [] {
      var n := |units| - 1;
      var key := MaterialKey(units[n].id);
      var prev := NormEM(units[..n], em);
      var tail := EntryFor(key, NormChoices(GetOr(em, key, []), Categories));
      assert NormEM(units, em) == prev + tail;
      KeysAppend(prev, tail);
      assert forall k :: k in Keys(tail) ==> k == key;
      assert UnitKeys(units) == UnitKeys(units[..n]) + [key];
      NormEMKeys(units[..n], em);
    }
  }

  /** Section names never contain the marker, and other names do not start with it: keys read back. */
  lemma {:induction false} SectionUnitsReadable(i: nat, room: string, secs: Dict<DimRecord>)
    requires forall m :: 0 <= m < |secs| ==> !Contains(secs[m].0, SectionMarker)
    ensures forall u :: u in SectionUnits(i, room, secs) ==> KeyReadable(u.id)
  {
    if secs != [] {
      SectionUnitsReadable(i, room, secs[..|secs| - 1]);
    }
  }

  lemma {:induction false} RoomUnitsReadable(i: nat, room: string, elems: Room)
    requires forall j :: 0 <= j < |elems| ==> ElementRestorable(elems[j].0, elems[j].1)
    ensures forall u :: u in RoomUnits(i, room, elems) ==> KeyReadable(u.id)
  {
    if elems != [] {
      var n := |elems| - 1;
      RoomUnitsReadable(i, room, elems[..n]);
      assert ElementRestorable(elems[n].0, elems[n].1);
      if elems[n].0 == BunkBed && elems[n].1.Sectioned? {
        SectionUnitsReadable(i, room, elems[n].1.sections);
      }
    }
  }

  lemma {:induction false} FlattenReadable(rs: Rooms)
    requires forall i :: 0 <= i < |rs| ==> RoomRestorable(rs[i].1)
    ensures forall u :: u in Flatten(rs) ==> KeyReadable(u.id)
  {
    if rs != [] {
      var n := |rs| - 1;
      FlattenReadable(rs[..n]);
      assert RoomRestorable(rs[n].1);
      RoomUnitsReadable(n, rs[n].0, rs[n].1);
    }
  }

  /** The key `load_project` rebuilds from a unit's stored row is the key the unit was saved under. */
  lemma LoadKeyOfUnit(id: ElementId)
    requires KeyReadable(id)
    ensures LoadKey(id.room, ElementKey(Label(id))) == MaterialKey(id)
  {
    match id.section
    case Some(s) =>
      SectionLabel(id.room, s);
      SectionNameBack(s);
      assert id.room + "|" + (BunkBed + "|" + s) == id.room + "|" + BunkBed + "|" + s;
    case None =>
  }

  /** Every visited unit of a restorable document is stored under a name that reads back as its key. */
  lemma {:induction false} FlattenKeysRead(rs: Rooms)
    requires forall i :: 0 <= i < |rs| ==> RoomRestorable(rs[i].1)
    ensures forall u :: u in Flatten(rs) ==> LoadKey(u.id.room, ElementKey(Label(u.id))) == MaterialKey(u.id)
  {
    FlattenReadable(rs);
    forall u | u in Flatten(rs) ensures LoadKey(u.id.room, ElementKey(Label(u.id))) == MaterialKey(u.id) {
      LoadKeyOfUnit(u.id);
    }
  }

  lemma {:induction false} PlaceMaterialsAppend(em: ElementMaterials, keys: map<nat, (string, string)>, a: seq<MaterialRow>, b: seq<MaterialRow>)
    ensures PlaceMaterials(em, keys, a + b) == PlaceMaterials(PlaceMaterials(em, keys, a), keys, b)
    decreases |b|
  {
    if b == [] {
      assert a + b == a;
    } else {
      var n := |b| - 1;
      assert (a + b)[..|a + b| - 1] == a + b[..n];
      assert (a + b)[|a + b| - 1] == b[n];
      PlaceMaterialsAppend(em, keys, a, b[..n]);
    }
  }

  /** Material rows of elements outside the project leave the rebuilt materials alone. */
  lemma {:induction false} PlaceMaterialsSkip(em: ElementMaterials, keys: map<nat, (string, string)>, rows: seq<MaterialRow>)
    requires forall m :: m in rows ==> m.elementId !in keys
    ensures PlaceMaterials(em, keys, rows) == em
  {
    if rows != [] {
      var n := |rows| - 1;
      assert rows[n] in rows;
      assert forall m :: m in rows[..n] ==> m in rows;
      PlaceMaterialsSkip(em, keys, rows[..n]);
    }
  }

  /** One choice read back: it joins its element's entry, which is created at the end when new. */
  lemma {:induction false} ChoiceStep(p: ElementMaterials, key: string, ch: CategoryMaterials, c: string, e: MaterialEntry)
    requires key !in Keys(p) && c !in Keys(ch)
    ensures var prev := p + EntryFor(key, ch);
      Put(prev, key, Put(GetOr(prev, key, []), c, e)) == p + [(key, ch + [(c, e)])]
  {
    if ch == [] {
      assert p + EntryFor(key, ch) == p;
      GetPresent(p, key);
    } else {
      assert p + EntryFor(key, ch) == p + [(key, ch)] + [];
      GetInMiddle(p, key, ch, []);
      PutInMiddle(p, key, ch, [], ch + [(c, e)]);
    }
  }

  lemma CategoriesDistinct()
    ensures forall a, b :: 0 <= a < b < |Categories| ==> Categories[a] != Categories[b]
  {
    assert Shutter[0] == 's' && Carcus[0] == 'c' && Laminate[0] == 'l';
  }

  lemma {:induction false} CategoryRowsPlacedNext(p: ElementMaterials, keys: map<nat, (string, string)>, eid: nat, key: string,
                               cm: CategoryMaterials, cats: seq<string>, c: nat)
    requires c < |cats| && cats[c] !in cats[..c]
    requires eid in keys && LoadKey(keys[eid].0, keys[eid].1) == key && key !in Keys(p)
    requires PlaceMaterials(p, keys, CategoryRows(eid, cm, cats[..c], true)) == p + EntryFor(key, NormChoices(cm, cats[..c]))
    ensures PlaceMaterials(p, keys, CategoryRows(eid, cm, cats[..c + 1], true)) == p + EntryFor(key, NormChoices(cm, cats[..c + 1]))
  {
    var m := GetOr(cm, cats[c], EmptyEntry);
    var before := CategoryRows(eid, cm, cats[..c], true);
    var ch := NormChoices(cm, cats[..c]);
    CategoryRowsNext(eid, cm, cats, c, true);
    assert cats[..c + 1][..c] == cats[..c];
    if IsEmpty(m) {
      assert before + [] == before;
      assert ch + [] == ch;
    } else {
      NormChoicesKeys(cm, cats[..c]);
      ChoicePlaced(p, keys, eid, key, before, ch, cats[c], m);
    }
  }

  lemma {:induction false} ChoicePlaced(p: ElementMaterials, keys: map<nat, (string, string)>, eid: nat, key: string,
                     before: seq<MaterialRow>, ch: CategoryMaterials, c: string, m: MaterialEntry)
    requires eid in keys && LoadKey(keys[eid].0, keys[eid].1) == key && key !in Keys(p) && c !in Keys(ch)
    requires PlaceMaterials(p, keys, before) == p + EntryFor(key, ch)
    ensures PlaceMaterials(p, keys, before + [MaterialRowOf(eid, c, m, true)]) == p + EntryFor(key, ch + [(c, NormEntry(m))])
  {
    var row := MaterialRowOf(eid, c, m, true);
    PlaceMaterialsAppend(p, keys, before, [row]);
    assert [row][..0] == [];
    assert EntryOf(row) == NormEntry(m);
    ChoiceStep(p, key, ch, c, NormEntry(m));
  }

  /** One element's material rows read back give its entry of non-empty choices. */
  lemma {:induction false} CategoryRowsPlaced(p: ElementMaterials, keys: map<nat, (string, string)>, eid: nat, key: string,
                                              cm: CategoryMaterials, cats: seq<string>, c: nat)
    requires c <= |cats| && forall a, b :: 0 <= a < b < |cats| ==> cats[a] != cats[b]
    requires eid in keys && LoadKey(keys[eid].0, keys[eid].1) == key && key !in Keys(p)
    ensures PlaceMaterials(p, keys, CategoryRows(eid, cm, cats[..c], true)) == p + EntryFor(key, NormChoices(cm, cats[..c]))
  {
    if c == 0 {
      assert CategoryRows(eid, cm, cats[..c], true) == [];
      assert p + EntryFor(key, NormChoices(cm, cats[..c])) == p;
    } else {
      CategoryRowsPlaced(p, keys, eid, key, cm, cats, c - 1);
      assert cats[c - 1] !in cats[..c - 1];
      CategoryRowsPlacedNext(p, keys, eid, key, cm, cats, c - 1);
    }
  }

  lemma UnitMaterialsPlacedNext(keys: map<nat, (string, string)>, em: ElementMaterials, units: seq<Unit>, eb: nat)
    requires units != []
    requires var n := |units| - 1;
      eb + n in keys && LoadKey(keys[eb + n].0, keys[eb + n].1) == MaterialKey(units[n].id)
      && MaterialKey(units[n].id) !in UnitKeys(units[..n])
    requires var n := |units| - 1;
      PlaceMaterials([], keys, MaterialRowsOf(units[..n], em, eb, true)) == NormEM(units[..n], em)
    ensures PlaceMaterials([], keys, MaterialRowsOf(units, em, eb, true)) == NormEM(units, em)
  {
    var n := |units| - 1;
    var key := MaterialKey(units[n].id);
    var cm := GetOr(em, key, []);
    var prev := NormEM(units[..n], em);
    PlaceMaterialsAppend([], keys, MaterialRowsOf(units[..n], em, eb, true), CategoryRows(eb + n, cm, Categories, true));
    NormEMKeys(units[..n], em);
    CategoriesDistinct();
    CategoryRowsPlaced(prev, keys, eb + n, key, cm, Categories, |Categories|);
    assert Categories[..|Categories|] == Categories;
  }

  /** The inserted material rows, read back, give the non-empty choices of the visited units. */
  lemma {:induction false} UnitMaterialsPlaced(keys: map<nat, (string, string)>, em: ElementMaterials, units: seq<Unit>, eb: nat)
    requires UnitKeysDistinct(units)
    requires forall k :: eb <= k < eb + |units| ==> k in keys && LoadKey(keys[k].0, keys[k].1) == MaterialKey(units[k - eb].id)
    ensures PlaceMaterials([], keys, MaterialRowsOf(units, em, eb, true)) == NormEM(units, em)
  {
    if units != [] {
      var n := |units| - 1;
      var prefix := units[..n];
      assert UnitKeysDistinct(prefix);
      UnitMaterialsPlaced(keys, em, prefix, eb);
      assert forall j :: 0 <= j < n ==> UnitKeys(prefix)[j] != MaterialKey(units[n].id);
      UnitMaterialsPlacedNext(keys, em, units, eb);
    }
  }

  // ---------------------------------------------------------------- save, then load

  /** With the project's prior rooms deleted, the rooms selected are exactly those just inserted. */
  lemma {:induction false} RoomRowsSelected(prior: seq<RoomRow>, pid: nat, rs: Rooms, nr: nat)
    requires forall r :: r in prior ==> r.projectId != pid
    ensures Filter(prior + RoomRowsOf(pid, rs, nr), RoomOf(pid)) == RoomRowsOf(pid, rs, nr)
  {
    var rows := RoomRowsOf(pid, rs, nr);
    FilterAppend(prior, rows, RoomOf(pid));
    FilterNone(prior, RoomOf(pid));
    RoomRowsShape(pid, rs, nr);
    forall x | x in rows ensures RoomOf(pid)(x) {
      var m :| 0 <= m < |rows| && rows[m] == x;
    }
    FilterKeepsAll(rows, RoomOf(pid));
  }

  /** Each visited unit's room id names the unit's room. */
  lemma {:induction false} UnitRoomsNamed(pid: nat, rs: Rooms, nr: nat)
    ensures var names := RoomNames(RoomRowsOf(pid, rs, nr));
      forall u :: u in Flatten(rs) ==> nr + u.roomIndex in names && names[nr + u.roomIndex] == u.id.room
  {
    RoomNamesOf(pid, rs, nr);
    FlattenIn(rs);
  }

  /** The element rows read back, prior rows of other rooms included, rebuild the saved rooms. */
  lemma {:induction false} ElementsLoaded(prior: seq<ElementRow>, pid: nat, rs: Rooms, nr: nat, ne: nat)
    requires Restorable(rs) && forall e :: e in prior ==> e.roomId < nr
    ensures var names := RoomNames(RoomRowsOf(pid, rs, nr));
      PlaceElements(Skeleton(RoomRowsOf(pid, rs, nr)), names, prior + ElementRowsOf(Flatten(rs), nr, ne)) == NormRooms(rs)
  {
    var names := RoomNames(RoomRowsOf(pid, rs, nr));
    var skeleton := Skeleton(RoomRowsOf(pid, rs, nr));
    SkeletonOfRows(pid, rs, nr);
    RoomNamesOf(pid, rs, nr);
    PlaceElementsAppend(skeleton, names, prior, ElementRowsOf(Flatten(rs), nr, ne));
    PlaceElementsSkip(skeleton, names, prior);
    UnitRoomsNamed(pid, rs, nr);
    ElementRowsPlaced(skeleton, names, Flatten(rs), nr, ne);
    RoomsRebuilt(rs);
  }

  /** Each new element id keys its unit. */
  lemma {:induction false} ElementKeysValues(names: map<nat, string>, units: seq<Unit>, rb: nat, eb: nat)
    requires forall u :: u in units ==> rb + u.roomIndex in names && names[rb + u.roomIndex] == u.id.room
    ensures forall k :: eb <= k < eb + |units| ==>
      k in ElementKeys(names, ElementRowsOf(units, rb, eb)) &&
      ElementKeys(names, ElementRowsOf(units, rb, eb))[k] == (units[k - eb].id.room, ElementKey(Label(units[k - eb].id)))
  {
    forall k | eb <= k < eb + |units|
      ensures k in ElementKeys(names, ElementRowsOf(units, rb, eb)) &&
        ElementKeys(names, ElementRowsOf(units, rb, eb))[k] == (units[k - eb].id.room, ElementKey(Label(units[k - eb].id)))
    {
      ElementKeyAt(names, units, rb, eb, k, k - eb);
    }
  }

  /** Keys that point at units whose stored names read back as their keys. */
  lemma KeysReadBack(keys: map<nat, (string, string)>, units: seq<Unit>, ne: nat)
    requires forall k :: k in keys ==> ne <= k < ne + |units|
    requires forall k :: k in keys ==> keys[k] == (units[k - ne].id.room, ElementKey(Label(units[k - ne].id)))
    requires forall u :: u in units ==> LoadKey(u.id.room, ElementKey(Label(u.id))) == MaterialKey(u.id)
    ensures forall k :: k in keys ==> LoadKey(keys[k].0, keys[k].1) == MaterialKey(units[k - ne].id)
  {
    forall k | k in keys
      ensures LoadKey(keys[k].0, keys[k].1) == MaterialKey(units[k - ne].id)
    {
      assert units[k - ne] in units;
    }
  }

  /** `element_id_map` read back: each new element id keys its unit's material key. */
  lemma {:induction false} ElementKeysLoaded(prior: seq<ElementRow>, pid: nat, rs: Rooms, nr: nat, ne: nat, keys: map<nat, (string, string)>)
    requires Restorable(rs) && forall e :: e in prior ==> e.roomId < nr
    requires keys == ElementKeys(RoomNames(RoomRowsOf(pid, rs, nr)), prior + ElementRowsOf(Flatten(rs), nr, ne))
    ensures forall k :: k in keys <==> ne <= k < ne + |Flatten(rs)|
    ensures forall k :: k in keys ==> LoadKey(keys[k].0, keys[k].1) == MaterialKey(Flatten(rs)[k - ne].id)
  {
    var names := RoomNames(RoomRowsOf(pid, rs, nr));
    var units := Flatten(rs);
    RoomNamesOf(pid, rs, nr);
    ElementKeysSkip(names, prior, ElementRowsOf(units, nr, ne));
    UnitRoomsNamed(pid, rs, nr);
    ElementKeysDomain(names, units, nr, ne);
    ElementKeysValues(names, units, nr, ne);
    FlattenKeysRead(rs);
    KeysReadBack(keys, units, ne);
  }

  /** The material rows read back, old rows of other elements included, give the saved choices. */
  lemma {:induction false} MaterialsLoaded(keys: map<nat, (string, string)>, prior: seq<MaterialRow>, units: seq<Unit>, em: ElementMaterials, ne: nat)
    requires UnitKeysDistinct(units)
    requires forall k :: k in keys <==> ne <= k < ne + |units|
    requires forall k :: k in keys ==> LoadKey(keys[k].0, keys[k].1) == MaterialKey(units[k - ne].id)
    requires forall m :: m in prior ==> m.elementId < ne
    ensures PlaceMaterials([], keys, prior + MaterialRowsOf(units, em, ne, true)) == NormEM(units, em)
  {
    PlaceMaterialsAppend([], keys, prior, MaterialRowsOf(units, em, ne, true));
    PlaceMaterialsSkip([], keys, prior);
    UnitMaterialsPlaced(keys, em, units, ne);
  }

  /**
   * Once a project's old rooms are deleted, inserting a restorable document and reading the
   * project's rows back gives the document's rooms and choices, normalised.
   */
  lemma {:induction false} InsertedLoads(t: Tables, pid: nat, rs: Rooms, em: ElementMaterials)
    requires Restorable(rs) && UnitKeysDistinct(Flatten(rs))
    requires forall r :: r in t.rooms ==> r.projectId != pid
    requires forall e :: e in t.elements ==> e.roomId < t.nextRoom
    requires forall m :: m in t.materials ==> m.elementId < t.nextElement
    ensures var t3 := Inserted(t, pid, rs, em, true);
      var roomRows := Filter(t3.rooms, RoomOf(pid));
      var names := RoomNames(roomRows);
      && PlaceElements(Skeleton(roomRows), names, t3.elements) == NormRooms(rs)
      && PlaceMaterials([], ElementKeys(names, t3.elements), t3.materials) == NormEM(Flatten(rs), em)
  {
    var nr := t.nextRoom;
    var ne := t.nextElement;
    RoomRowsSelected(t.rooms, pid, rs, nr);
    ElementsLoaded(t.elements, pid, rs, nr, ne);
    var keys := ElementKeys(RoomNames(RoomRowsOf(pid, rs, nr)), t.elements + ElementRowsOf(Flatten(rs), nr, ne));
    ElementKeysLoaded(t.elements, pid, rs, nr, ne, keys);
    MaterialsLoaded(keys, t.materials, Flatten(rs), em, ne);
  }

  /** The tables after the DELETEs hold no room of the project and only rows that refer back. */
  lemma ClearedRefersBack(t: Tables, pid: nat)
    requires forall e :: e in t.elements ==> e.roomId < t.nextRoom
    requires forall m :: m in t.materials ==> m.elementId < t.nextElement
    ensures var c := Cleared(t, pid);
      && (forall r :: r in c.rooms ==> r.projectId != pid)
      && (forall e :: e in c.elements ==> e.roomId < c.nextRoom)
      && (forall m :: m in c.materials ==> m.elementId < c.nextElement)
  {
    var elementIds := ElementIdsIn(t.elements, RoomIdsOf(t.rooms, pid));
    FilterMembers(t.rooms, RoomOfOther(pid));
    FilterMembers(t.elements, ElementOutside(elementIds));
    FilterMembers(t.materials, MaterialOutside(elementIds));
  }

  /**
   * Saving a document and loading it back under the same user and project name gives the
   * document's house type, bedroom count, rooms and element materials, normalised, and nothing else.
   */
  lemma {:induction false} SaveThenLoad(t: Tables, username: string, projectName: string, doc: Project, now: string)
    requires Valid(t) && Known(UserIdIn(t.users, username))
    requires BunkBedsSectioned(doc.rooms.GetOr([]))
    requires Restorable(doc.rooms.GetOr([])) && UnitKeysDistinct(Flatten(doc.rooms.GetOr([])))
    ensures var rs := doc.rooms.GetOr([]);
      var em := doc.elementMaterials.GetOr([]);
      Loaded(Saved(t, username, projectName, doc, now).0, username, projectName)
        == Some(Project(None, None, None, doc.houseType, doc.numBedrooms,
                        Some(NormRooms(rs)), None, Some(NormEM(Flatten(rs), em)), None))
  {
    var uid := UserIdIn(t.users, username).value;
    var rs := doc.rooms.GetOr([]);
    var em := doc.elementMaterials.GetOr([]);
    var t1 := Upserted(t, uid, projectName, now, doc.houseType, doc.numBedrooms);
    var pid := UpsertedId(t, uid, projectName, now, doc.houseType, doc.numBedrooms);
    var t2 := Cleared(t1, pid);
    var t3 := Inserted(t2, pid, rs, em, true);
    assert Saved(t, username, projectName, doc, now).0 == t3;
    UpsertedRow(t, uid, projectName, now, doc.houseType, doc.numBedrooms);
    ClearedRefersBack(t1, pid);
    InsertedLoads(t2, pid, rs, em);
    assert t3.users == t.users && t3.projects == t1.projects;
  }
}
