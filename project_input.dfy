/**
 * pages/01_ProjectInput.py: the list of rooms, the element menu of each room, the room data the
 * form produces, and the "Calculate & Save" step that derives per-element areas, the project's
 * total area and the number of 8x4 sheets. The values typed into the form are an input.
 */
module ProjectInput {
  import opened Wrappers
  import opened Dicts
  import opened Strings
  import opened Document
  import opened Calculations
  import Db
  import DbRoundTrip

  /** numpy's `ceil` on a real. */
  function Ceil(x: real): (r: real)
    ensures x <= r < x + 1.0
    ensures r == r.Floor as real
  {
    var f := (-x).Floor;
    assert f as real <= -x < f as real + 1.0;
    assert (-(f as real)).Floor == -f;
    -(f as real)
  }

  const HouseTypes: seq<string> := ["Apartment Flat", "Independent House", "Villa"]

  /** The house-type selector's initial index: the stored type's position, else 0. */
  function HouseTypeIndex(stored: Option<string>): (i: nat)
    ensures i < |HouseTypes|
    ensures stored.Some? && stored.value in HouseTypes ==> HouseTypes[i] == stored.value
    ensures !(stored.Some? && stored.value in HouseTypes) ==> i == 0
  {
    if stored == Some(HouseTypes[0]) then 0
    else if stored == Some(HouseTypes[1]) then 1
    else if stored == Some(HouseTypes[2]) then 2
    else 0
  }

  /** The bedroom counter's initial value: `int(stored) if stored else 1`. */
  function DefaultBedrooms(stored: Option<int>): (n: int)
    ensures stored.Some? && stored.value != 0 ==> n == stored.value
    ensures stored.None? || stored.value == 0 ==> n == 1
  {
    if stored.Some? && stored.value != 0 then stored.value else 1
  }

  /** The name of the k-th generated bedroom (counting from 0). */
  function BedroomName(k: nat): string {
    if k == 0 then "Master Bedroom"
    else if k == 1 then "Kids Bedroom"
    else if k == 2 then "Guest Bedroom"
    else "Other Bedroom " + NatToString(k - 2)
  }

  /** The bedrooms of a house with n bedrooms. */
  function Bedrooms(n: nat): seq<string> {
    seq(n, k requires 0 <= k < n => BedroomName(k))
  }

  /** The append loop that names the bedrooms. */
  method BedroomIds(n: nat) returns (ids: seq<string>)
    ensures ids == Bedrooms(n)
  {
    ids := [];
    if n >= 1 {
      ids := ids + ["Master Bedroom"];
    }
    if n >= 2 {
      ids := ids + ["Kids Bedroom"];
    }
    if n >= 3 {
      ids := ids + ["Guest Bedroom"];
    }
    var i := 4;
    while i <= n
      invariant n >= 3 ==> 4 <= i <= n + 1 && ids == Bedrooms(i - 1)
      invariant n < 3 ==> ids == Bedrooms(n)
    {
      ids := ids + ["Other Bedroom " + NatToString(i - 3)];
      i := i + 1;
    }
  }

  /** Bedroom names are pairwise different. */
  lemma BedroomNamesDistinct(j: nat, k: nat)
    requires j != k
    ensures BedroomName(j) != BedroomName(k)
  {
    var p := "Other Bedroom ";
    if j >= 3 && k >= 3 {
      if BedroomName(j) == BedroomName(k) {
        assert NatToString(j - 2) == BedroomName(j)[|p|..];
        assert NatToString(k - 2) == BedroomName(k)[|p|..];
        NatToStringInjective(j - 2, k - 2);
      }
    } else {
      assert BedroomName(j)[0] != BedroomName(k)[0];
    }
  }

  const FixedRooms: seq<string> := ["Kitchen", "Living", "Dining"]

  /** `bedroom_ids + ["Kitchen", "Living", "Dining"]`. */
  function AllRooms(n: nat): seq<string> {
    Bedrooms(n) + FixedRooms
  }

  /** A bedroom name is one of three fixed names or "Other Bedroom " and digits. */
  lemma {:induction false} BedroomNameShape(k: nat)
    ensures k >= 3 ==> BedroomName(k) == "Other Bedroom " + NatToString(k - 2)
  {
  }

  lemma BedroomLacksC(k: nat)
    ensures 'c' !in BedroomName(k)
  {
    BedroomNameShape(k);
  }

  lemma BedroomLacksL(k: nat)
    ensures 'L' !in BedroomName(k)
  {
    BedroomNameShape(k);
  }

  lemma BedroomLacksD(k: nat)
    ensures 'D' !in BedroomName(k)
  {
    BedroomNameShape(k);
  }

  /** No bedroom name holds a 'c', an 'L' or a 'D'. */
  lemma BedroomLetters(k: nat)
    ensures 'c' !in BedroomName(k) && 'L' !in BedroomName(k) && 'D' !in BedroomName(k)
  {
    BedroomLacksC(k);
    BedroomLacksL(k);
    BedroomLacksD(k);
  }

  /** A house with n bedrooms has n + 3 rooms, all with different names, the three shared rooms last. */
  lemma AllRoomsDistinct(n: nat)
    ensures |AllRooms(n)| == n + 3
    ensures AllRooms(n)[n..] == FixedRooms
    ensures forall i, j :: 0 <= i < j < |AllRooms(n)| ==> AllRooms(n)[i] != AllRooms(n)[j]
  {
    var rooms := AllRooms(n);
    forall i, j | 0 <= i < j < |rooms| ensures rooms[i] != rooms[j] {
      if j < n {
        BedroomNamesDistinct(i, j);
      } else if i < n {
        BedroomLetters(i);
        assert 'c' in rooms[j] || 'L' in rooms[j] || 'D' in rooms[j] by {
          assert rooms[j] == FixedRooms[j - n];
          assert "Kitchen"[3] == 'c' && "Living"[0] == 'L' && "Dining"[0] == 'D';
        }
      }
    }
  }

  const KitchenElements: seq<string> := ["Kitchen Lower", "Kitchen Upper", "Kitchen Side", "Loft"]
  const LivingElements: seq<string> := ["TV Unit", "Pooja Unit"]
  const DiningElements: seq<string> := ["Crockery"]
  const BedroomElements: seq<string> := ["Wardrobe", "Dresser", "Loft", "TV Unit", "Bunk Bed", "Bed", "Pooja Unit"]

  /** The element menu of a room, chosen by the first of "Kitchen", "Living", "Dining" its name contains. */
  function ElementOptions(room: string): seq<string> {
    if Contains(room, "Kitchen") then KitchenElements
    else if Contains(room, "Living") then LivingElements
    else if Contains(room, "Dining") then DiningElements
    else BedroomElements
  }

  /** Each of the three shared rooms gets its own menu. */
  lemma FixedRoomMenus()
    ensures ElementOptions("Kitchen") == KitchenElements
    ensures ElementOptions("Living") == LivingElements
    ensures ElementOptions("Dining") == DiningElements
  {
    assert OccursAt("Kitchen", "Kitchen", 0);
    assert OccursAt("Living", "Living", 0);
    assert OccursAt("Dining", "Dining", 0);
    NotContainsByChar("Living", "Kitchen", 'K');
    NotContainsByChar("Dining", "Kitchen", 'K');
    NotContainsByChar("Dining", "Living", 'L');
  }

  /** Every generated bedroom gets the bedroom menu. */
  lemma BedroomMenu(k: nat)
    ensures ElementOptions(BedroomName(k)) == BedroomElements
  {
    BedroomLetters(k);
    assert "Kitchen"[3] == 'c' && "Living"[0] == 'L' && "Dining"[0] == 'D';
    NotContainsByChar(BedroomName(k), "Kitchen", 'c');
    NotContainsByChar(BedroomName(k), "Living", 'L');
    NotContainsByChar(BedroomName(k), "Dining", 'D');
  }

  /** Only the bedroom menu offers a Bunk Bed. */
  lemma BunkBedMenus()
    ensures BunkBed in BedroomElements
    ensures BunkBed !in KitchenElements && BunkBed !in LivingElements && BunkBed !in DiningElements
  {
    assert BedroomElements[4] == BunkBed;
  }

  /**
   * Each of the three shared rooms gets its own menu and every generated bedroom the bedroom menu,
   * so a Bunk Bed is offered exactly in the bedrooms.
   */
  lemma BunkBedOnlyInBedrooms(n: nat)
    ensures ElementOptions("Kitchen") == KitchenElements
    ensures ElementOptions("Living") == LivingElements
    ensures ElementOptions("Dining") == DiningElements
    ensures forall k :: 0 <= k < n ==> ElementOptions(Bedrooms(n)[k]) == BedroomElements
    ensures forall r :: r in AllRooms(n) ==> (BunkBed in ElementOptions(r) <==> r in Bedrooms(n))
  {
    FixedRoomMenus();
    BunkBedMenus();
    forall k | 0 <= k < n ensures ElementOptions(Bedrooms(n)[k]) == BedroomElements {
      BedroomMenu(k);
    }
    AllRoomsDistinct(n);
    forall r | r in AllRooms(n) ensures BunkBed in ElementOptions(r) <==> r in Bedrooms(n) {
      if r in Bedrooms(n) {
        var k :| 0 <= k < n && Bedrooms(n)[k] == r;
      } else {
        assert r in FixedRooms;
      }
    }
  }

  /** The members of `names` that are in `options`, in the order of `names`. */
  function KeepAllowed(names: seq<string>, options: seq<string>): (r: seq<string>)
    ensures |r| <= |names|
    ensures forall e :: e in r <==> e in names && e in options
  {
    if names == [] then []
    else
      var n := |names| - 1;
      assert names == names[..n] + [names[n]];
      KeepAllowed(names[..n], options) + (if names[n] in options then [names[n]] else [])
  }

  /** The elements preselected in a room: its stored element names that the room's menu offers. */
  function Preselected(stored: Option<Rooms>, room: string): (r: seq<string>)
    ensures forall e :: e in r <==> e in ElementOptions(room) && e in Keys(GetOr(stored.GetOr([]), room, []))
  {
    KeepAllowed(Keys(GetOr(stored.GetOr([]), room, [])), ElementOptions(room))
  }

  /** What the user leaves in one group of dimension inputs. */
  datatype FormEntry = FormEntry(length: real, width: real, height: real, shelves: int)

  /** The inputs' bounds: dimensions at least 0, shelves from 0 to 10. */
  predicate InBounds(e: FormEntry) {
    0.0 <= e.length && 0.0 <= e.width && 0.0 <= e.height && 0 <= e.shelves <= 10
  }

  /** Python's `int(x)`: truncation toward zero. */
  function Trunc(x: real): (r: int)
    ensures 0.0 <= x ==> r as real <= x < r as real + 1.0
    ensures x < 0.0 ==> r as real - 1.0 < x <= r as real
  {
    if 0.0 <= x then x.Floor else -((-x).Floor)
  }

  /** The stored record an input group starts from: a section of a stored Bunk Bed, or the element's record. */
  function StoredRecord(stored: Option<Rooms>, id: ElementId): DimRecord {
    var v := GetOr(GetOr(stored.GetOr([]), id.room, []), id.element, Plain(NoDims));
    match id.section
    case Some(s) => (match v case Sectioned(secs) => GetOr(secs, s, NoDims) case Plain(_) => NoDims)
    case None => PlainDims(v)
  }

  /** The inputs' initial values: the stored values, 0 where a value is missing, shelves truncated. */
  function Prefill(stored: Option<Rooms>, id: ElementId): (e: FormEntry)
    ensures var d := StoredRecord(stored, id);
      e.length == Field(d.length) && e.width == Field(d.width) && e.height == Field(d.height)
  {
    var d := StoredRecord(stored, id);
    FormEntry(Field(d.length), Field(d.width), Field(d.height), Trunc(Field(d.numShelves)))
  }

  /** The record saved for one input group: all four keys present. */
  function Record(e: FormEntry): DimRecord {
    DimRecord(Some(e.length), Some(e.width), Some(e.height), Some(e.shelves as real))
  }

  /** A stored record with all four values and a whole number of shelves is saved back unchanged when left as it is. */
  lemma PrefillKeepsRecord(stored: Option<Rooms>, id: ElementId)
    requires var d := StoredRecord(stored, id);
      d.length.Some? && d.width.Some? && d.height.Some? && d.numShelves.Some?
      && d.numShelves.value == d.numShelves.value.Floor as real
    ensures Record(Prefill(stored, id)) == StoredRecord(stored, id)
  {
    var d := StoredRecord(stored, id);
    var x := d.numShelves.value;
    assert Trunc(x) as real == x by {
      if x < 0.0 {
        assert (-x).Floor == -(x.Floor);
      }
    }
  }

  const BunkSections: seq<string> := ["Bunk bed Lower", "Bunk bed Upper", "Bunk Bed Extra"]

  /** What a selected element saves: three section records for a Bunk Bed, one record otherwise. */
  function EntryFor(room: string, el: string, form: ElementId -> FormEntry): ElementValue {
    if el == BunkBed then
      Sectioned(seq(3, j requires 0 <= j < 3 => (BunkSections[j], Record(form(ElementId(room, el, Some(BunkSections[j])))))))
    else Plain(Record(form(ElementId(room, el, None))))
  }

  /** `element_dims`: each selected element assigned in turn. */
  function RoomEntries(room: string, selected: seq<string>, form: ElementId -> FormEntry): Room {
    if selected == [] then []
    else
      var n := |selected| - 1;
      Put(RoomEntries(room, selected[..n], form), selected[n], EntryFor(room, selected[n], form))
  }

  /** `room_data`: each room assigned its element dict in turn. */
  function RoomDataOf(rooms: seq<string>, selected: seq<seq<string>>, form: ElementId -> FormEntry): Rooms
    requires |selected| == |rooms|
  {
    if rooms == [] then []
    else
      var n := |rooms| - 1;
      Put(RoomDataOf(rooms[..n], selected[..n], form), rooms[n], RoomEntries(rooms[n], selected[n], form))
  }

  /** The nested loops that fill `room_data` from the rooms, each room's selection and the form. */
  method BuildRoomData(rooms: seq<string>, selected: seq<seq<string>>, form: ElementId -> FormEntry)
    returns (roomData: Rooms)
    requires |selected| == |rooms|
    ensures roomData == RoomDataOf(rooms, selected, form)
  {
    roomData := [];
    for i := 0 to |rooms|
      invariant roomData == RoomDataOf(rooms[..i], selected[..i], form)
    {
      var elementDims: Room := [];
      for j := 0 to |selected[i]|
        invariant elementDims == RoomEntries(rooms[i], selected[i][..j], form)
      {
        var el := selected[i][j];
        assert selected[i][..j + 1][..j] == selected[i][..j];
        elementDims := Put(elementDims, el, EntryFor(rooms[i], el, form));
      }
      assert selected[i][..|selected[i]|] == selected[i];
      assert rooms[..i + 1][..i] == rooms[..i] && selected[..i + 1][..i] == selected[..i];
      roomData := Put(roomData, rooms[i], elementDims);
    }
    assert rooms[..|rooms|] == rooms && selected[..|selected|] == selected;
  }

  predicate Complete(d: DimRecord) {
    d.length.Some? && d.width.Some? && d.height.Some? && d.numShelves.Some?
  }

  /**
   * How the form stores an element: a Bunk Bed as complete records under exactly the three
   * section names, any other element as one complete record.
   */
  predicate FormTagged(name: string, v: ElementValue) {
    if name == BunkBed then
      v.Sectioned? && Keys(v.sections) == BunkSections
      && forall k :: 0 <= k < |v.sections| ==> Complete(v.sections[k].1)
    else v.Plain? && Complete(v.dims)
  }

  predicate RoomFormShaped(elems: Room) {
    KeysDistinct(elems) && forall j :: 0 <= j < |elems| ==> FormTagged(elems[j].0, elems[j].1)
  }

  /** Room data as the form produces it: every element tagged as above, keys distinct at each level. */
  predicate FormShaped(rooms: Rooms) {
    KeysDistinct(rooms)
    && forall i :: 0 <= i < |rooms| ==> RoomFormShaped(rooms[i].1)
  }

  /** The element dict of a room is form-shaped. */
  lemma {:induction false} RoomEntriesShaped(room: string, selected: seq<string>, form: ElementId -> FormEntry)
    ensures RoomFormShaped(RoomEntries(room, selected, form))
  {
    if selected != [] {
      var n := |selected| - 1;
      var prev := RoomEntries(room, selected[..n], form);
      RoomEntriesShaped(room, selected[..n], form);
      var v := EntryFor(room, selected[n], form);
      assert FormTagged(selected[n], v) by {
        if selected[n] == BunkBed {
          assert Keys(v.sections) == BunkSections;
          forall k | 0 <= k < |v.sections| ensures Complete(v.sections[k].1) {
            assert v.sections[k].1 == Record(form(ElementId(room, BunkBed, Some(BunkSections[k]))));
          }
        }
      }
      PutKeepsDistinct(prev, selected[n], v);
      PutKeepsEntries(prev, selected[n], v, FormTagged);
    }
  }

  /** A room holds exactly its selected elements, each with the values typed in. */
  lemma {:induction false} RoomEntriesLookup(room: string, selected: seq<string>, form: ElementId -> FormEntry)
    ensures forall e :: Get(RoomEntries(room, selected, form), e).Some? <==> e in selected
    ensures forall e :: e in selected ==> Get(RoomEntries(room, selected, form), e) == Some(EntryFor(room, e, form))
  {
    if selected != [] {
      var n := |selected| - 1;
      RoomEntriesLookup(room, selected[..n], form);
      assert selected == selected[..n] + [selected[n]];
    }
  }

  /** The room data the form produces is form-shaped. */
  lemma {:induction false} RoomDataShaped(rooms: seq<string>, selected: seq<seq<string>>, form: ElementId -> FormEntry)
    requires |selected| == |rooms|
    ensures FormShaped(RoomDataOf(rooms, selected, form))
  {
    if rooms != [] {
      var n := |rooms| - 1;
      var prev := RoomDataOf(rooms[..n], selected[..n], form);
      RoomDataShaped(rooms[..n], selected[..n], form);
      var elems := RoomEntries(rooms[n], selected[n], form);
      RoomEntriesShaped(rooms[n], selected[n], form);
      PutKeepsDistinct(prev, rooms[n], elems);
      var P := (k: string, v: Room) => RoomFormShaped(v);
      assert forall i :: 0 <= i < |prev| ==> P(prev[i].0, prev[i].1);
      PutKeepsEntries(prev, rooms[n], elems, P);
    }
  }

  /** With different room names, the room data holds exactly the listed rooms, each with its own selection. */
  lemma {:induction false} RoomDataLookup(rooms: seq<string>, selected: seq<seq<string>>, form: ElementId -> FormEntry)
    requires |selected| == |rooms|
    requires forall i, j :: 0 <= i < j < |rooms| ==> rooms[i] != rooms[j]
    ensures forall r :: Get(RoomDataOf(rooms, selected, form), r).Some? <==> r in rooms
    ensures forall i :: 0 <= i < |rooms| ==>
      Get(RoomDataOf(rooms, selected, form), rooms[i]) == Some(RoomEntries(rooms[i], selected[i], form))
  {
    if rooms != [] {
      var n := |rooms| - 1;
      RoomDataLookup(rooms[..n], selected[..n], form);
      assert rooms == rooms[..n] + [rooms[n]];
    }
  }

  /** The six figures of one element or section; the total is the ceiling of the five surfaces' sum. */
  function AreaOf(d: DimRecord): AreaRecord {
    var l, w, h, n := Field(d.length), Field(d.width), Field(d.height), Field(d.numShelves);
    var sa, sda, tba := ShutterArea(h, l), SideArea(w, h), TopBottomArea(l, w);
    var bpa, sha := BackPanelArea(h, l), ShelfArea(n, w, l);
    AreaRecord(sa, sda, tba, bpa, sha, Ceil(sa + sda + tba + bpa + sha))
  }

  /** A record's total is the element total of its dimensions, rounded up to a whole number. */
  lemma AreaTotalIsCeiledElementArea(d: DimRecord)
    ensures var a := AreaOf(d);
      var exact := CalculateTotalElementArea(Field(d.length), Field(d.width), Field(d.height), Field(d.numShelves));
      a.totalArea == Ceil(exact) && exact <= a.totalArea < exact + 1.0
      && exact == a.shutterArea + a.sideArea + a.topBottomArea + a.backPanelArea + a.shelfArea
  {
  }

  /** Length 4, width 2, height 7 and 2 shelves give surfaces 28, 28, 16, 28 and 16, and a total of 116. */
  lemma WorkedElement()
    ensures AreaOf(DimRecord(Some(4.0), Some(2.0), Some(7.0), Some(2.0)))
         == AreaRecord(28.0, 28.0, 16.0, 28.0, 16.0, 116.0)
  {
    assert Ceil(116.0) == 116.0 by {
      assert (-116.0).Floor == -116;
    }
  }

  /** `area_details[room][el]`: one record, or one per Bunk Bed section. */
  function AreaValueOf(name: string, v: ElementValue): AreaValue {
    if name == BunkBed && v.Sectioned? then
      SectionedArea(seq(|v.sections|, k requires 0 <= k < |v.sections| => (v.sections[k].0, AreaOf(v.sections[k].1))))
    else PlainArea(AreaOf(PlainDims(v)))
  }

  function RoomAreasOf(elems: Room): Dict<AreaValue> {
    seq(|elems|, j requires 0 <= j < |elems| => (elems[j].0, AreaValueOf(elems[j].0, elems[j].1)))
  }

  lemma RoomAreasOfNext(elems: Room, j: nat)
    requires j < |elems|
    ensures RoomAreasOf(elems[..j + 1]) == RoomAreasOf(elems[..j]) + [(elems[j].0, AreaValueOf(elems[j].0, elems[j].1))]
  {
    assert elems[..j + 1][j] == elems[j];
  }

  /** `area_details` for the whole document. */
  function AreaDetailsOf(rooms: Rooms): AreaDetails {
    seq(|rooms|, i requires 0 <= i < |rooms| => (rooms[i].0, RoomAreasOf(rooms[i].1)))
  }

  lemma AreaDetailsNext(rooms: Rooms, i: nat)
    requires i < |rooms|
    ensures AreaDetailsOf(rooms[..i + 1]) == AreaDetailsOf(rooms[..i]) + [(rooms[i].0, RoomAreasOf(rooms[i].1))]
  {
    var a, b := AreaDetailsOf(rooms[..i + 1]), AreaDetailsOf(rooms[..i]) + [(rooms[i].0, RoomAreasOf(rooms[i].1))];
    assert |a| == |b|;
    forall k | 0 <= k < |a| ensures a[k] == b[k] {
    }
  }

  /** The area details have the rooms, elements and Bunk Bed sections of the room data, in its order. */
  lemma {:induction false} AreaDetailsShape(rooms: Rooms)
    requires FormShaped(rooms)
    ensures Keys(AreaDetailsOf(rooms)) == Keys(rooms)
    ensures forall i :: 0 <= i < |rooms| ==> Keys(AreaDetailsOf(rooms)[i].1) == Keys(rooms[i].1)
    ensures forall i, j :: 0 <= i < |rooms| && 0 <= j < |rooms[i].1| ==>
      var a := AreaDetailsOf(rooms)[i].1[j].1;
      (a.SectionedArea? <==> rooms[i].1[j].0 == BunkBed)
      && (a.SectionedArea? ==> Keys(a.sections) == BunkSections)
  {
    forall i, j | 0 <= i < |rooms| && 0 <= j < |rooms[i].1|
      ensures var a := AreaDetailsOf(rooms)[i].1[j].1;
        (a.SectionedArea? <==> rooms[i].1[j].0 == BunkBed)
        && (a.SectionedArea? ==> Keys(a.sections) == BunkSections)
    {
      assert FormTagged(rooms[i].1[j].0, rooms[i].1[j].1);
      var a := AreaDetailsOf(rooms)[i].1[j].1;
      if a.SectionedArea? {
        var secs := rooms[i].1[j].1.sections;
        assert Keys(a.sections) == Keys(secs);
      }
    }
  }

  /** The sum of the ceiled totals of the visited elements and sections. */
  function SumTotals(units: seq<Unit>): real {
    if units == [] then 0.0 else SumTotals(units[..|units| - 1]) + AreaOf(units[|units| - 1].dims).totalArea
  }

  lemma SumTotalsOne(u: Unit)
    ensures SumTotals([u]) == AreaOf(u.dims).totalArea
  {
    assert [u][..0] == [];
  }

  lemma {:induction false} SumTotalsSplit(a: seq<Unit>, b: seq<Unit>)
    ensures SumTotals(a + b) == SumTotals(a) + SumTotals(b)
  {
    if b != [] {
      var n := |b| - 1;
      assert (a + b)[..|a| + n] == a + b[..n];
      SumTotalsSplit(a, b[..n]);
    } else {
      assert a + b == a;
    }
  }

  /** What the page's loops may read: a Bunk Bed holds complete sections, any other element one complete record. */
  predicate Computable(rooms: Rooms) {
    forall i, j :: 0 <= i < |rooms| && 0 <= j < |rooms[i].1| ==>
      var name, v := rooms[i].1[j].0, rooms[i].1[j].1;
      if name == BunkBed then v.Sectioned? && forall k :: 0 <= k < |v.sections| ==> Complete(v.sections[k].1)
      else v.Plain? && Complete(v.dims)
  }

  /** Form-shaped room data can be read by this page's loops and by every later page. */
  lemma FormShapedComputable(rooms: Rooms)
    requires FormShaped(rooms)
    ensures Computable(rooms)
    ensures BunkBedsSectioned(rooms)
  {
    forall i, j | 0 <= i < |rooms| && 0 <= j < |rooms[i].1| ensures FormTagged(rooms[i].1[j].0, rooms[i].1[j].1) {
      assert RoomFormShaped(rooms[i].1);
    }
  }

  /** The five surface formulas and the ceiled total applied to one record. */
  method RecordArea(d: DimRecord) returns (a: AreaRecord)
    ensures a == AreaOf(d)
  {
    var sa := ShutterArea(Field(d.height), Field(d.length));
    var sda := SideArea(Field(d.width), Field(d.height));
    var tba := TopBottomArea(Field(d.length), Field(d.width));
    var bpa := BackPanelArea(Field(d.height), Field(d.length));
    var sha := ShelfArea(Field(d.numShelves), Field(d.width), Field(d.length));
    var ta := Ceil(sa + sda + tba + bpa + sha);
    a := AreaRecord(sa, sda, tba, bpa, sha, ta);
  }

  /** The loop over a Bunk Bed's sections: one record each, each ceiled total added to the running sum. */
  method SectionAreas(i: nat, room: string, secs: Dict<DimRecord>, total0: real)
    returns (areas: Dict<AreaRecord>, total: real)
    ensures areas == seq(|secs|, k requires 0 <= k < |secs| => (secs[k].0, AreaOf(secs[k].1)))
    ensures total == total0 + SumTotals(SectionUnits(i, room, secs))
  {
    areas := [];
    total := total0;
    for k := 0 to |secs|
      invariant areas == seq(k, m requires 0 <= m < k => (secs[m].0, AreaOf(secs[m].1)))
      invariant total == total0 + SumTotals(SectionUnits(i, room, secs[..k]))
    {
      var a := RecordArea(secs[k].1);
      SectionUnitsNext(i, room, secs, k);
      SumTotalsSplit(SectionUnits(i, room, secs[..k]), [Unit(i, ElementId(room, BunkBed, Some(secs[k].0)), secs[k].1)]);
      total := total + a.totalArea;
      areas := areas + [(secs[k].0, a)];
    }
    assert secs[..|secs|] == secs;
  }

  /** The loop over one room's elements. */
  method RoomAreas(i: nat, room: string, elems: Room, total0: real)
    returns (roomAreas: Dict<AreaValue>, total: real)
    requires forall j :: 0 <= j < |elems| && elems[j].0 == BunkBed ==> elems[j].1.Sectioned?
    ensures roomAreas == RoomAreasOf(elems)
    ensures total == total0 + SumTotals(RoomUnits(i, room, elems))
  {
    roomAreas := [];
    total := total0;
    for j := 0 to |elems|
      invariant roomAreas == RoomAreasOf(elems[..j])
      invariant total == total0 + SumTotals(RoomUnits(i, room, elems[..j]))
    {
      var el := elems[j].0;
      var dims := elems[j].1;
      RoomUnitsNext(i, room, elems, j);
      SumTotalsSplit(RoomUnits(i, room, elems[..j]), ElementUnits(i, room, el, dims));
      RoomAreasOfNext(elems, j);
      if el == BunkBed {
        var secAreas, t := SectionAreas(i, room, dims.sections, total);
        roomAreas := roomAreas + [(el, SectionedArea(secAreas))];
        total := t;
      } else {
        var a := RecordArea(PlainDims(dims));
        SumTotalsOne(Unit(i, ElementId(room, el, None), PlainDims(dims)));
        total := total + a.totalArea;
        roomAreas := roomAreas + [(el, PlainArea(a))];
      }
    }
    assert elems[..|elems|] == elems;
  }

  /** "Calculate & Save": the nested loops that fill `area_details` and add up `total_area`. */
  method ComputeAreas(roomData: Rooms) returns (areaDetails: AreaDetails, totalArea: real)
    requires Computable(roomData)
    ensures areaDetails == AreaDetailsOf(roomData)
    ensures totalArea == SumTotals(Flatten(roomData))
  {
    areaDetails := [];
    totalArea := 0.0;
    for i := 0 to |roomData|
      invariant areaDetails == AreaDetailsOf(roomData[..i])
      invariant totalArea == SumTotals(Flatten(roomData[..i]))
    {
      var room := roomData[i].0;
      assert forall j :: 0 <= j < |roomData[i].1| && roomData[i].1[j].0 == BunkBed ==> roomData[i].1[j].1.Sectioned?;
      var roomAreas, t := RoomAreas(i, room, roomData[i].1, totalArea);
      FlattenNext(roomData, i);
      SumTotalsSplit(Flatten(roomData[..i]), RoomUnits(i, room, roomData[i].1));
      AreaDetailsNext(roomData, i);
      areaDetails := areaDetails + [(room, roomAreas)];
      totalArea := t;
    }
    assert roomData[..|roomData|] == roomData;
  }

  /** `ceil(calculate_sheets_needed(ceil(total_area)))`. */
  function SheetsRequired(totalArea: real): real {
    Ceil(CalculateSheetsNeeded(Ceil(totalArea)))
  }

  /** The sheet count is the least whole number of 32 sft sheets that covers the rounded-up area. */
  lemma SheetsCoverArea(totalArea: real)
    ensures var s := SheetsRequired(totalArea);
      s == s.Floor as real && Ceil(totalArea) <= s * 32.0 && (s - 1.0) * 32.0 < Ceil(totalArea)
  {
    var q := CalculateSheetsNeeded(Ceil(totalArea));
    assert q * 32.0 == Ceil(totalArea);
  }

  /** A total of 156 sft needs 5 sheets; the element above (116 sft) needs 4. */
  lemma WorkedSheets()
    ensures SheetsRequired(156.0) == 5.0
    ensures SheetsRequired(116.0) == 4.0
  {
    assert Ceil(156.0) == 156.0 by { assert (-156.0).Floor == -156; }
    assert Ceil(116.0) == 116.0 by { assert (-116.0).Floor == -116; }
    assert CalculateSheetsNeeded(156.0) == 4.875;
    assert Ceil(4.875) == 5.0 by { assert (-4.875).Floor == -5; }
    assert CalculateSheetsNeeded(116.0) == 3.625;
    assert Ceil(3.625) == 4.0 by { assert (-3.625).Floor == -4; }
  }

  /** Every dimension of a record is at least 0; a missing one reads as 0. */
  predicate NonNegative(d: DimRecord) {
    0.0 <= Field(d.length) && 0.0 <= Field(d.width) && 0.0 <= Field(d.height) && 0.0 <= Field(d.numShelves)
  }

  predicate ValueNonNegative(v: ElementValue) {
    match v
    case Plain(d) => NonNegative(d)
    case Sectioned(secs) => forall k :: 0 <= k < |secs| ==> NonNegative(secs[k].1)
  }

  predicate RoomsNonNegative(rooms: Rooms) {
    forall i, j :: 0 <= i < |rooms| && 0 <= j < |rooms[i].1| ==> ValueNonNegative(rooms[i].1[j].1)
  }

  /** A record with no negative dimension has no negative surface and no negative total. */
  lemma AreaNonNegative(d: DimRecord)
    requires NonNegative(d)
    ensures var a := AreaOf(d);
      0.0 <= a.shutterArea && 0.0 <= a.sideArea && 0.0 <= a.topBottomArea && 0.0 <= a.backPanelArea
      && 0.0 <= a.shelfArea && 0.0 <= a.totalArea
  {
  }

  lemma {:induction false} SectionTotalsNonNegative(i: nat, room: string, secs: Dict<DimRecord>)
    requires forall k :: 0 <= k < |secs| ==> NonNegative(secs[k].1)
    ensures 0.0 <= SumTotals(SectionUnits(i, room, secs))
  {
    if secs != [] {
      var n := |secs| - 1;
      SectionTotalsNonNegative(i, room, secs[..n]);
      var u := Unit(i, ElementId(room, BunkBed, Some(secs[n].0)), secs[n].1);
      SumTotalsSplit(SectionUnits(i, room, secs[..n]), [u]);
      SumTotalsOne(u);
      AreaNonNegative(secs[n].1);
    }
  }

  lemma {:induction false} RoomTotalsNonNegative(i: nat, room: string, elems: Room)
    requires forall j :: 0 <= j < |elems| ==> ValueNonNegative(elems[j].1)
    ensures 0.0 <= SumTotals(RoomUnits(i, room, elems))
  {
    if elems != [] {
      var n := |elems| - 1;
      var name, v := elems[n].0, elems[n].1;
      RoomTotalsNonNegative(i, room, elems[..n]);
      SumTotalsSplit(RoomUnits(i, room, elems[..n]), ElementUnits(i, room, name, v));
      if name == BunkBed && v.Sectioned? {
        SectionTotalsNonNegative(i, room, v.sections);
      } else {
        SumTotalsOne(Unit(i, ElementId(room, name, None), PlainDims(v)));
        AreaNonNegative(PlainDims(v));
      }
    }
  }

  /** Room data with no negative dimension has a total area of at least 0. */
  lemma {:induction false} TotalsNonNegative(rooms: Rooms)
    requires RoomsNonNegative(rooms)
    ensures 0.0 <= SumTotals(Flatten(rooms))
  {
    if rooms != [] {
      var n := |rooms| - 1;
      TotalsNonNegative(rooms[..n]);
      RoomTotalsNonNegative(n, rooms[n].0, rooms[n].1);
      SumTotalsSplit(Flatten(rooms[..n]), RoomUnits(n, rooms[n].0, rooms[n].1));
    }
  }

  /** An input group within the widgets' bounds saves a record with no negative dimension. */
  lemma {:induction false} RoomEntriesNonNegative(room: string, selected: seq<string>, form: ElementId -> FormEntry)
    requires forall id :: InBounds(form(id))
    ensures forall j :: 0 <= j < |RoomEntries(room, selected, form)| ==> ValueNonNegative(RoomEntries(room, selected, form)[j].1)
  {
    if selected != [] {
      var n := |selected| - 1;
      var prev := RoomEntries(room, selected[..n], form);
      RoomEntriesNonNegative(room, selected[..n], form);
      var v := EntryFor(room, selected[n], form);
      assert ValueNonNegative(v) by {
        if selected[n] == BunkBed {
          forall k | 0 <= k < |v.sections| ensures NonNegative(v.sections[k].1) {
            assert InBounds(form(ElementId(room, BunkBed, Some(BunkSections[k]))));
          }
        } else {
          assert InBounds(form(ElementId(room, selected[n], None)));
        }
      }
      var P := (k: string, w: ElementValue) => ValueNonNegative(w);
      PutKeepsEntries(prev, selected[n], v, P);
    }
  }

  lemma {:induction false} RoomDataNonNegative(rooms: seq<string>, selected: seq<seq<string>>, form: ElementId -> FormEntry)
    requires |selected| == |rooms|
    requires forall id :: InBounds(form(id))
    ensures RoomsNonNegative(RoomDataOf(rooms, selected, form))
  {
    if rooms != [] {
      var n := |rooms| - 1;
      var prev := RoomDataOf(rooms[..n], selected[..n], form);
      RoomDataNonNegative(rooms[..n], selected[..n], form);
      var elems := RoomEntries(rooms[n], selected[n], form);
      RoomEntriesNonNegative(rooms[n], selected[n], form);
      var P := (k: string, r: Room) => forall j :: 0 <= j < |r| ==> ValueNonNegative(r[j].1);
      assert forall i :: 0 <= i < |prev| ==> P(prev[i].0, prev[i].1);
      PutKeepsEntries(prev, rooms[n], elems, P);
      var after := RoomDataOf(rooms, selected, form);
      assert forall i :: 0 <= i < |after| ==> P(after[i].0, after[i].1);
    }
  }

  /**
   * With every input within its widget's bounds (dimensions at least 0, shelves from 0 to 10),
   * the reported total area and sheet count are at least 0.
   */
  lemma InBoundsTotals(rooms: seq<string>, selected: seq<seq<string>>, form: ElementId -> FormEntry)
    requires |selected| == |rooms|
    requires forall id :: InBounds(form(id))
    ensures var total := SumTotals(Flatten(RoomDataOf(rooms, selected, form)));
      0.0 <= Ceil(total) && 0.0 <= SheetsRequired(total)
  {
    RoomDataNonNegative(rooms, selected, form);
    TotalsNonNegative(RoomDataOf(rooms, selected, form));
  }

  /**
   * The project dict "Calculate & Save" hands to `save_project`: the stored project (an empty
   * one if there is none) with the new rooms, house type, bedroom count, area details and the
   * page's own timestamp.
   */
  function Updated(stored: Option<Project>, roomData: Rooms, houseType: string, numBedrooms: int, pageNow: string): Project {
    stored.GetOr(EmptyProject).(rooms := Some(roomData), houseType := Some(houseType), numBedrooms := Some(numBedrooms),
                                areaDetails := Some(AreaDetailsOf(roomData)), lastModified := Some(pageNow))
  }

  /**
   * "Calculate & Save": the areas and the total; when a user and a project are open (neither is
   * empty), the project is loaded, updated as above and saved through `save_project`, which
   * stamps it with its own clock `now`; the total area and the sheet count are reported.
   */
  method CalculateAndSave(db: Db.Database, user: string, project: string, roomData: Rooms,
                          houseType: string, numBedrooms: int, pageNow: string, now: string)
    returns (totalArea: real, sheets: real)
    requires Computable(roomData)
    modifies db
    ensures user != "" && project != "" ==>
      db.State() == Db.Saved(old(db.State()), user, project,
                             Updated(Db.Loaded(old(db.State()), user, project), roomData, houseType, numBedrooms, pageNow), now).0
    ensures user == "" || project == "" ==> db.State() == old(db.State())
    ensures totalArea == Ceil(SumTotals(Flatten(roomData)))
    ensures sheets == SheetsRequired(SumTotals(Flatten(roomData)))
  {
    var areaDetails, total := ComputeAreas(roomData);
    if user != "" && project != "" {
      var stored := db.LoadProject(user, project);
      var doc := stored.GetOr(EmptyProject).(rooms := Some(roomData), houseType := Some(houseType),
                                             numBedrooms := Some(numBedrooms), areaDetails := Some(areaDetails),
                                             lastModified := Some(pageNow));
      ComputableSectioned(roomData);
      var ok := db.SaveProject(user, project, doc, now);
    }
    totalArea := Ceil(total);
    sheets := Ceil(CalculateSheetsNeeded(totalArea));
  }

  lemma ComputableSectioned(rooms: Rooms)
    requires Computable(rooms)
    ensures BunkBedsSectioned(rooms)
  {
  }

  /**
   * Loading the project after "Calculate & Save" gives the new house type, bedroom count and
   * rooms (normalised) and the material choices stored before; neither the area details nor
   * either timestamp come back.
   */
  lemma CalculateThenLoad(t: Db.Tables, user: string, project: string, roomData: Rooms,
                          houseType: string, numBedrooms: int, pageNow: string, now: string)
    requires Db.Valid(t) && Db.Known(Db.UserIdIn(t.users, user))
    requires Computable(roomData) && DbRoundTrip.Restorable(roomData) && DbRoundTrip.UnitKeysDistinct(Flatten(roomData))
    ensures var em := Db.Loaded(t, user, project).GetOr(EmptyProject).elementMaterials.GetOr([]);
      var doc := Updated(Db.Loaded(t, user, project), roomData, houseType, numBedrooms, pageNow);
      Db.Loaded(Db.Saved(t, user, project, doc, now).0, user, project)
        == Some(Project(None, None, None, Some(houseType), Some(numBedrooms), Some(DbRoundTrip.NormRooms(roomData)),
                        None, Some(DbRoundTrip.NormEM(Flatten(roomData), em)), None))
  {
    ComputableSectioned(roomData);
    DbRoundTrip.SaveThenLoad(t, user, project, Updated(Db.Loaded(t, user, project), roomData, houseType, numBedrooms, pageNow), now);
  }
}
