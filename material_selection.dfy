/**
 * pages/02_MaterialSelection.py: for every element and Bunk Bed section, the shutter and carcus
 * boards are picked by narrowing the price sheets type -> grade -> brand -> model -> thickness,
 * the laminate from the fixed laminate table; then every element's areas and costs are added up.
 * The page's selectors are modelled at their initial index (the value shown before the user
 * changes anything).
 */
module MaterialSelection {
  import opened Wrappers
  import opened Dicts
  import opened Document
  import opened MaterialCosts
  import opened Calculations
  import ProjectInput

  /** The keys of `material_type_map`, in order. */
  const MaterialTypes: seq<string> := ["Plywood", "HDHMR", "MDF"]

  /** `material_type_map[kind]`. */
  function TableFor(wb: Workbook, kind: string): Sheet
    requires kind in MaterialTypes
  {
    if kind == "Plywood" then wb.plywood
    else if kind == "HDHMR" then HdhmrRows(wb)
    else MdfRows(wb)
  }

  /**
   * A selector's initial choice: the stored value when it is a candidate, else the first candidate.
   * The first candidate is read before the test, so an empty list fails (`None`, an IndexError)
   * even when a value is stored.
   */
  function Choose(stored: Option<string>, cands: seq<string>): (r: Option<string>)
    ensures r.Some? <==> cands != []
    ensures r.Some? ==> r.value in cands
    ensures cands != [] && stored.Some? && stored.value in cands ==> r == stored
    ensures cands != [] && !(stored.Some? && stored.value in cands) ==> r == Some(cands[0])
  {
    if cands == [] then None
    else
      var v := stored.GetOr(cands[0]);
      if v in cands then Some(v) else Some(cands[0])
  }

  /** The candidates a selector offers: the column's distinct present values. */
  function Candidates(rows: Sheet, c: Column): seq<string> {
    DistinctPresent(ColumnOf(rows, c))
  }

  /** The narrowing selectors of a board after its type, in order. */
  const NarrowingColumns: seq<Column> := [GradeCol, BrandCol, ModelCol, ThicknessCol]

  /**
   * The narrowing selectors from `cols` on: each chooses among the distinct values its column
   * takes in the rows left so far, and the rows are then narrowed to the chosen value. Gives the
   * chosen values and the rows left; `None` when a candidate list is empty.
   */
  function Narrow(rows: Sheet, stored: seq<Option<string>>, cols: seq<Column>): (r: Option<(seq<string>, Sheet)>)
    requires |stored| == |cols|
    ensures r.Some? ==> |r.value.0| == |cols|
    decreases |cols|
  {
    if cols == [] then Some(([], rows))
    else
      var v := Choose(stored[0], Candidates(rows, cols[0]));
      if v.None? then None
      else
        match Narrow(RowsWhere(rows, cols[0], v.value), stored[1..], cols[1..])
        case None => None
        case Some(rest) => Some(([v.value] + rest.0, rest.1))
  }

  /** The rows matching every chosen value. */
  function Remaining(rows: Sheet, picks: seq<string>, cols: seq<Column>): Sheet
    requires |picks| == |cols|
    decreases |cols|
  {
    if cols == [] then rows else Remaining(RowsWhere(rows, cols[0], picks[0]), picks[1..], cols[1..])
  }

  /** Each chosen value is among the candidates its selector offered after the earlier choices. */
  predicate Offered(rows: Sheet, picks: seq<string>, cols: seq<Column>)
    decreases |cols|
  {
    |picks| == |cols|
    && (cols != [] ==>
          picks[0] in Candidates(rows, cols[0])
          && Offered(RowsWhere(rows, cols[0], picks[0]), picks[1..], cols[1..]))
  }

  /** The narrowing picks offered values and leaves the rows matching all of them. */
  lemma {:induction false} NarrowOffers(rows: Sheet, stored: seq<Option<string>>, cols: seq<Column>)
    requires |stored| == |cols|
    ensures var r := Narrow(rows, stored, cols);
      r.Some? ==> Offered(rows, r.value.0, cols) && r.value.1 == Remaining(rows, r.value.0, cols)
    decreases |cols|
  {
    var r := Narrow(rows, stored, cols);
    if cols != [] && r.Some? {
      var v := Choose(stored[0], Candidates(rows, cols[0])).value;
      NarrowOffers(RowsWhere(rows, cols[0], v), stored[1..], cols[1..]);
      assert r.value.0[1..] == Narrow(RowsWhere(rows, cols[0], v), stored[1..], cols[1..]).value.0;
    }
  }

  /** The stored form of chosen values. */
  function Stored(picks: seq<string>): seq<Option<string>> {
    seq(|picks|, i requires 0 <= i < |picks| => Some(picks[i]))
  }

  /** Stored values that are still offered are kept, every one of them. */
  lemma {:induction false} NarrowKeepsOffered(rows: Sheet, picks: seq<string>, cols: seq<Column>)
    requires Offered(rows, picks, cols)
    ensures Narrow(rows, Stored(picks), cols) == Some((picks, Remaining(rows, picks, cols)))
    decreases |cols|
  {
    if cols != [] {
      assert Stored(picks)[1..] == Stored(picks[1..]);
      NarrowKeepsOffered(RowsWhere(rows, cols[0], picks[0]), picks[1..], cols[1..]);
      assert [picks[0]] + picks[1..] == picks;
    }
  }

  /** The rows left are rows of the sheet that hold every chosen value. */
  lemma {:induction false} RemainingMatches(rows: Sheet, picks: seq<string>, cols: seq<Column>)
    requires |picks| == |cols|
    ensures forall x :: x in Remaining(rows, picks, cols) ==>
      x in rows && forall i :: 0 <= i < |cols| ==> Cell(x, cols[i]) == Some(picks[i])
    decreases |cols|
  {
    if cols != [] {
      var next := RowsWhere(rows, cols[0], picks[0]);
      RemainingMatches(next, picks[1..], cols[1..]);
      RowsWhereMembers(rows, cols[0], picks[0]);
      forall x | x in Remaining(rows, picks, cols)
        ensures x in rows && forall i :: 0 <= i < |cols| ==> Cell(x, cols[i]) == Some(picks[i])
      {
        assert x in next;
        forall i | 0 <= i < |cols| ensures Cell(x, cols[i]) == Some(picks[i]) {
          if i > 0 {
            assert cols[1..][i - 1] == cols[i] && picks[1..][i - 1] == picks[i];
          }
        }
      }
    }
  }

  /** After at least one offered choice some row is left: an offered value occurs in a remaining row. */
  lemma {:induction false} OfferedLeavesRows(rows: Sheet, picks: seq<string>, cols: seq<Column>)
    requires cols != [] && Offered(rows, picks, cols)
    ensures Remaining(rows, picks, cols) != []
    decreases |cols|
  {
    var next := RowsWhere(rows, cols[0], picks[0]);
    if |cols| == 1 {
      var col := ColumnOf(rows, cols[0]);
      DistinctPresentMembers(col);
      RowsWhereMembers(rows, cols[0], picks[0]);
      assert Some(picks[0]) in col;
      var i :| 0 <= i < |col| && col[i] == Some(picks[0]);
      assert rows[i] in next;
    } else {
      OfferedLeavesRows(next, picks[1..], cols[1..]);
    }
  }

  /** The price shown: the first remaining row's, or none ("No price found", rate 0). */
  datatype PriceLookup = Found(rate: real) | NoPriceFound

  function PriceOf(rows: Sheet): PriceLookup {
    if rows != [] then Found(rows[0].perSftPrice) else NoPriceFound
  }

  function RateOf(p: PriceLookup): real {
    if p.Found? then p.rate else 0.0
  }

  /** A board choice: the five selected values and the price lookup. */
  datatype BoardPick = BoardPick(kind: string, grade: string, brand: string, model: string, thickness: string, price: PriceLookup)

  function Picks(p: BoardPick): seq<string> {
    [p.grade, p.brand, p.model, p.thickness]
  }

  /** The entry written for a board choice. */
  function BoardEntry(p: BoardPick): MaterialEntry {
    MaterialEntry(Some(p.kind), Some(p.grade), Some(p.brand), Some(p.model), Some(p.thickness), Some(RateOf(p.price)))
  }

  /** The catalog rows matching all five values of a choice. */
  function MatchingRows(wb: Workbook, p: BoardPick): Sheet
    requires p.kind in MaterialTypes
  {
    Remaining(TableFor(wb, p.kind), Picks(p), NarrowingColumns)
  }

  /** Each value is one of the candidates its selector offered, and the price is looked up for all five. */
  predicate ValidPick(wb: Workbook, p: BoardPick) {
    p.kind in MaterialTypes
    && Offered(TableFor(wb, p.kind), Picks(p), NarrowingColumns)
    && p.price == PriceOf(MatchingRows(wb, p))
  }

  /** The cascade of five selectors for one board category; `None` when a candidate list is empty. */
  function BoardCascade(stored: MaterialEntry, wb: Workbook): Option<BoardPick> {
    var kind := Choose(stored.kind, MaterialTypes).value;
    match Narrow(TableFor(wb, kind), [stored.grade, stored.brand, stored.model, stored.thickness], NarrowingColumns)
    case None => None
    case Some(r) => Some(BoardPick(kind, r.0[0], r.0[1], r.0[2], r.0[3], PriceOf(r.1)))
  }

  /** Every value the cascade picks is one of its selector's candidates, and the price is looked up for all five. */
  lemma CascadePicksCandidates(stored: MaterialEntry, wb: Workbook)
    ensures BoardCascade(stored, wb).Some? ==> ValidPick(wb, BoardCascade(stored, wb).value)
  {
    var kind := Choose(stored.kind, MaterialTypes).value;
    var st := [stored.grade, stored.brand, stored.model, stored.thickness];
    NarrowOffers(TableFor(wb, kind), st, NarrowingColumns);
    var r := Narrow(TableFor(wb, kind), st, NarrowingColumns);
    if r.Some? {
      assert Picks(BoardCascade(stored, wb).value) == r.value.0;
    }
  }

  /**
   * A choice made by the cascade always has a matching row: the rate is the first matching row's
   * price and the "No price found" branch is never taken.
   */
  lemma CascadeFindsPrice(wb: Workbook, p: BoardPick)
    requires ValidPick(wb, p)
    ensures MatchingRows(wb, p) != []
    ensures p.price == Found(MatchingRows(wb, p)[0].perSftPrice)
    ensures var row := MatchingRows(wb, p)[0];
      row in TableFor(wb, p.kind) && row.grade == Some(p.grade) && row.brand == Some(p.brand)
      && row.model == Some(p.model) && row.thickness == Some(p.thickness)
  {
    OfferedLeavesRows(TableFor(wb, p.kind), Picks(p), NarrowingColumns);
    RemainingMatches(TableFor(wb, p.kind), Picks(p), NarrowingColumns);
    var row := MatchingRows(wb, p)[0];
    assert row in MatchingRows(wb, p);
    assert Cell(row, NarrowingColumns[0]) == Some(p.grade);
    assert Cell(row, NarrowingColumns[1]) == Some(p.brand);
    assert Cell(row, NarrowingColumns[2]) == Some(p.model);
    assert Cell(row, NarrowingColumns[3]) == Some(p.thickness);
  }

  /** Reopening the page on a saved board choice shows the same choice: the cascade keeps valid stored values. */
  lemma CascadeKeepsValidChoice(wb: Workbook, p: BoardPick)
    requires ValidPick(wb, p)
    ensures BoardCascade(BoardEntry(p), wb) == Some(p)
  {
    var e := BoardEntry(p);
    assert [e.grade, e.brand, e.model, e.thickness] == Stored(Picks(p));
    NarrowKeepsOffered(TableFor(wb, p.kind), Picks(p), NarrowingColumns);
  }

  /** The laminate selection: tier (falling back to the first), then thickness within that tier, rate from the table. */
  function LaminatePick(stored: MaterialEntry): (m: MaterialEntry)
    ensures m.kind.Some? && m.thickness.Some? && m.rate.Some?
    ensures m.grade.None? && m.brand.None? && m.model.None?
    ensures m.kind.value in Keys(LaminateTable)
    ensures Get(LaminateTable, m.kind.value).Some?
    ensures Get(Get(LaminateTable, m.kind.value).value, m.thickness.value) == m.rate
  {
    LaminateTiers();
    var tiers := Keys(LaminateTable);
    var kind := Choose(stored.kind, tiers).value;
    var tier := Get(LaminateTable, kind).value;
    assert |Keys(tier)| == 1 by {
      LaminateRates();
    }
    var thickness := Choose(stored.thickness, Keys(tier)).value;
    MaterialEntry(Some(kind), None, None, None, Some(thickness), Get(tier, thickness))
  }

  /** An unknown stored tier falls back to Standard, 0.8 mm, at 32 per sft; every laminate rate is 32, 65 or 116. */
  lemma LaminateFallback(stored: MaterialEntry)
    ensures !(stored.kind.Some? && stored.kind.value in ["Standard", "Premium", "Luxury"]) ==>
      LaminatePick(stored) == MaterialEntry(Some("Standard"), None, None, None, Some("0.8mm (Avg Price)"), Some(32.0))
    ensures LaminatePick(stored).rate.value in {32.0, 65.0, 116.0}
  {
    LaminateTiers();
    LaminateRates();
  }

  /** Reopening the page on a saved laminate choice shows the same choice. */
  lemma LaminateKeepsChoice(stored: MaterialEntry)
    ensures LaminatePick(LaminatePick(stored)) == LaminatePick(stored)
  {
    LaminateTiers();
    LaminateRates();
  }

  /** `element_materials.get(key, {}).get(mat, {})`. */
  function EntryOf(cats: CategoryMaterials, mat: string): MaterialEntry {
    GetOr(cats, mat, EmptyEntry)
  }

  /** The three category writes for one key: shutter, carcus, then laminate. */
  function UpdateCategories(cats: CategoryMaterials, wb: Workbook): Option<CategoryMaterials> {
    // Each category reads only its own entry, so the earlier writes for this key do not affect it.
    var s := BoardCascade(EntryOf(cats, Shutter), wb);
    var c := BoardCascade(EntryOf(cats, Carcus), wb);
    if s.None? || c.None? then None
    else Some(Put(Put(Put(cats, Shutter, BoardEntry(s.value)), Carcus, BoardEntry(c.value)), Laminate, LaminatePick(EntryOf(cats, Laminate))))
  }

  /**
   * A key's update fails exactly when a board cascade fails; otherwise each category holds its
   * selection made from the category's stored entry, and any other entry is kept.
   */
  lemma UpdateCategoriesWrites(cats: CategoryMaterials, wb: Workbook)
    ensures UpdateCategories(cats, wb).Some? <==>
      BoardCascade(EntryOf(cats, Shutter), wb).Some? && BoardCascade(EntryOf(cats, Carcus), wb).Some?
    ensures UpdateCategories(cats, wb).Some? ==>
      var r := UpdateCategories(cats, wb).value;
      Get(r, Shutter) == Some(BoardEntry(BoardCascade(EntryOf(cats, Shutter), wb).value))
      && Get(r, Carcus) == Some(BoardEntry(BoardCascade(EntryOf(cats, Carcus), wb).value))
      && Get(r, Laminate) == Some(LaminatePick(EntryOf(cats, Laminate)))
      && forall k :: k !in Categories ==> Get(r, k) == Get(cats, k)
  {
    var s := BoardCascade(EntryOf(cats, Shutter), wb);
    var c := BoardCascade(EntryOf(cats, Carcus), wb);
    if s.Some? && c.Some? {
      CategoriesWritten(cats, BoardEntry(s.value), BoardEntry(c.value), LaminatePick(EntryOf(cats, Laminate)));
    }
  }

  /** The three writes of one key, with the entries they store given. */
  lemma CategoriesWritten(cats: CategoryMaterials, se: MaterialEntry, ce: MaterialEntry, le: MaterialEntry)
    ensures var r := Put(Put(Put(cats, Shutter, se), Carcus, ce), Laminate, le);
      Get(r, Shutter) == Some(se) && Get(r, Carcus) == Some(ce) && Get(r, Laminate) == Some(le)
      && forall k :: k !in Categories ==> Get(r, k) == Get(cats, k)
  {
    ThreePuts(cats, Shutter, se, Carcus, ce, Laminate, le);
  }

  /** Three writes under distinct keys: each key holds its value, every other key is untouched. */
  lemma ThreePuts<V>(d: Dict<V>, k1: string, v1: V, k2: string, v2: V, k3: string, v3: V)
    requires k1 != k2 && k1 != k3 && k2 != k3
    ensures var r := Put(Put(Put(d, k1, v1), k2, v2), k3, v3);
      Get(r, k1) == Some(v1) && Get(r, k2) == Some(v2) && Get(r, k3) == Some(v3)
      && forall k :: k != k1 && k != k2 && k != k3 ==> Get(r, k) == Get(d, k)
  {
    var d1 := Put(d, k1, v1);
    var d2 := Put(d1, k2, v2);
    assert Get(d2, k1) == Get(d1, k1);
  }

  /** Updating a key's categories a second time changes nothing. */
  lemma UpdateCategoriesIdempotent(cats: CategoryMaterials, wb: Workbook)
    requires UpdateCategories(cats, wb).Some?
    ensures UpdateCategories(UpdateCategories(cats, wb).value, wb) == UpdateCategories(cats, wb)
  {
    UpdateCategoriesWrites(cats, wb);
    var u := UpdateCategories(cats, wb).value;
    var s := BoardCascade(EntryOf(cats, Shutter), wb).value;
    var c := BoardCascade(EntryOf(cats, Carcus), wb).value;
    var l := LaminatePick(EntryOf(cats, Laminate));
    CascadePicksCandidates(EntryOf(cats, Shutter), wb);
    CascadePicksCandidates(EntryOf(cats, Carcus), wb);
    CascadeKeepsValidChoice(wb, s);
    CascadeKeepsValidChoice(wb, c);
    LaminateKeepsChoice(EntryOf(cats, Laminate));
    assert EntryOf(u, Shutter) == BoardEntry(s);
    PutSame(u, Shutter, BoardEntry(s));
    assert EntryOf(u, Carcus) == BoardEntry(c);
    PutSame(u, Carcus, BoardEntry(c));
    assert EntryOf(u, Laminate) == l;
    PutSame(u, Laminate, l);
  }

  /** `element_materials.setdefault(key, {})[mat] = ...` for the three categories of one key. */
  function UpdateKey(em: ElementMaterials, key: string, wb: Workbook): Option<ElementMaterials> {
    match UpdateCategories(GetOr(em, key, []), wb)
    case None => None
    case Some(c) => Some(Put(em, key, c))
  }

  /** The material keys of the visited elements and sections, in visiting order. */
  function KeysOf(units: seq<Unit>): (ks: seq<string>)
    ensures |ks| == |units|
    ensures forall i :: 0 <= i < |units| ==> ks[i] == MaterialKey(units[i].id)
  {
    seq(|units|, i requires 0 <= i < |units| => MaterialKey(units[i].id))
  }

  /** The selection pass over the visited units, starting from the stored materials; `None` when a selector fails. */
  function SelectAll(keys: seq<string>, em: ElementMaterials, wb: Workbook): Option<ElementMaterials> {
    if keys == [] then Some(em)
    else
      match SelectAll(keys[..|keys| - 1], em, wb)
      case None => None
      case Some(m) => UpdateKey(m, keys[|keys| - 1], wb)
  }

  /** The selection pass succeeds exactly when every visited key's categories can be selected. */
  lemma {:induction false} SelectAllSucceeds(keys: seq<string>, em: ElementMaterials, wb: Workbook)
    ensures SelectAll(keys, em, wb).Some? <==> forall k :: k in keys ==> UpdateCategories(GetOr(em, k, []), wb).Some?
  {
    if keys != [] {
      var n := |keys| - 1;
      var ks := keys[..n];
      var prev := SelectAll(ks, em, wb);
      SplitLast(keys);
      assert SelectAll(keys, em, wb) == if prev.None? then None else UpdateKey(prev.value, keys[n], wb);
      SelectAllSucceeds(ks, em, wb);
      if prev.Some? {
        SelectAllResult(ks, em, wb);
        UpdateKeyOutcome(prev.value, em, ks, keys[n], wb);
      }
    }
  }

  /**
   * A successful selection pass leaves every key it did not visit as stored, and gives every
   * visited key its three categories selected from the stored entries, however often and in
   * whatever order it was visited.
   */
  lemma {:induction false} SelectAllResult(keys: seq<string>, em: ElementMaterials, wb: Workbook)
    requires SelectAll(keys, em, wb).Some?
    ensures forall k :: Get(SelectAll(keys, em, wb).value, k) ==
                        if k in keys then UpdateCategories(GetOr(em, k, []), wb) else Get(em, k)
  {
    if keys != [] {
      var n := |keys| - 1;
      var ks := keys[..n];
      var prev := SelectAll(ks, em, wb);
      SplitLast(keys);
      assert prev.Some?;
      var r := SelectAll(keys, em, wb).value;
      assert r == UpdateKey(prev.value, keys[n], wb).value;
      SelectAllResult(ks, em, wb);
      SelectAllSucceeds(ks, em, wb);
      UpdateKeyOutcome(prev.value, em, ks, keys[n], wb);
      forall k ensures Get(r, k) == if k in keys then UpdateCategories(GetOr(em, k, []), wb) else Get(em, k) {
        assert (k in keys) == (k in ks + [keys[n]]);
      }
    }
  }

  /** One more key visited after the keys `ks`, all of which were selected. */
  lemma {:induction false} UpdateKeyOutcome(m: ElementMaterials, em: ElementMaterials, ks: seq<string>, key: string, wb: Workbook)
    requires forall k :: k in ks ==> UpdateCategories(GetOr(em, k, []), wb).Some?
    requires forall k :: Get(m, k) == if k in ks then UpdateCategories(GetOr(em, k, []), wb) else Get(em, k)
    ensures UpdateKey(m, key, wb).Some? <==> UpdateCategories(GetOr(em, key, []), wb).Some?
    ensures UpdateKey(m, key, wb).Some? ==>
      forall k :: Get(UpdateKey(m, key, wb).value, k) ==
        if k in ks + [key] then UpdateCategories(GetOr(em, k, []), wb) else Get(em, k)
  {
    if key in ks {
      var u := UpdateCategories(GetOr(em, key, []), wb).value;
      assert GetOr(m, key, []) == u;
      UpdateCategoriesIdempotent(GetOr(em, key, []), wb);
      PutSame(m, key, u);
    } else {
      assert GetOr(m, key, []) == GetOr(em, key, []);
    }
  }

  /** The selection pass: the page's nested loops, visiting elements and sections in document order. */
  method SelectMaterials(rooms: Rooms, stored: ElementMaterials, wb: Workbook) returns (r: Option<ElementMaterials>)
    requires BunkBedsSectioned(rooms)
    ensures r == SelectAll(KeysOf(Flatten(rooms)), stored, wb)
  {
    var units := Flatten(rooms);
    ghost var keys := KeysOf(units);
    var em := stored;
    for i := 0 to |units|
      invariant SelectAll(keys[..i], stored, wb) == Some(em)
    {
      var next := UpdateKey(em, MaterialKey(units[i].id), wb);
      SelectAllNext(keys, i, stored, em, wb);
      if next.None? {
        SelectAllNoneStays(keys, i + 1, stored, wb);
        return None;
      }
      em := next.value;
    }
    assert keys[..|keys|] == keys;
    return Some(em);
  }

  /** One more key runs its selectors on the materials chosen so far. */
  lemma {:induction false} SelectAllNext(keys: seq<string>, i: nat, em: ElementMaterials, m: ElementMaterials, wb: Workbook)
    requires i < |keys| && SelectAll(keys[..i], em, wb) == Some(m)
    ensures SelectAll(keys[..i + 1], em, wb) == UpdateKey(m, keys[i], wb)
  {
    assert keys[..i + 1][..i] == keys[..i];
  }

  /** Once a selector fails the whole pass fails. */
  lemma {:induction false} SelectAllNoneStays(keys: seq<string>, i: nat, em: ElementMaterials, wb: Workbook)
    requires i <= |keys| && SelectAll(keys[..i], em, wb).None?
    ensures SelectAll(keys, em, wb).None?
    decreases |keys| - i
  {
    if i < |keys| {
      assert keys[..i + 1][..i] == keys[..i];
      SelectAllNoneStays(keys, i + 1, em, wb);
    } else {
      assert keys[..i] == keys;
    }
  }

  /** One row of the element-wise cost breakup. */
  datatype BreakupRow = BreakupRow(
    room: string, element: string,
    shutterArea: real, carcusArea: real, laminateArea: real,
    shutterCost: real, carcusCost: real, laminateCost: real)

  /** `mat_data.get(mat, {}).get("rate", 0)` for a material key. */
  function RateFor(em: ElementMaterials, key: string, mat: string): real {
    Field(EntryOf(GetOr(em, key, []), mat).rate)
  }

  /** The carcus: both sides, top and bottom, back panel and shelves. */
  function CarcusArea(d: DimRecord): real {
    var l, w, h, n := Field(d.length), Field(d.width), Field(d.height), Field(d.numShelves);
    SideArea(w, h) + TopBottomArea(l, w) + BackPanelArea(h, l) + ShelfArea(n, w, l)
  }

  /** An element's or section's row: shutter and carcus areas, laminate over both, each cost at its key's rate. */
  function RowOf(u: Unit, em: ElementMaterials): BreakupRow {
    var d := u.dims;
    var sa := ShutterArea(Field(d.height), Field(d.length));
    var ca := CarcusArea(d);
    var la := sa + ca;
    var key := MaterialKey(u.id);
    BreakupRow(u.id.room, Label(u.id), sa, ca, la,
      sa * RateFor(em, key, Shutter), ca * RateFor(em, key, Carcus), la * RateFor(em, key, Laminate))
  }

  /** The laminate area is the element's exact total area: not rounded up, and less than one below the total the input page stores. */
  lemma LaminateAreaIsExactTotal(u: Unit, em: ElementMaterials)
    ensures var row := RowOf(u, em);
      var d := u.dims;
      row.laminateArea == row.shutterArea + row.carcusArea
      && row.laminateArea == CalculateTotalElementArea(Field(d.length), Field(d.width), Field(d.height), Field(d.numShelves))
      && row.laminateArea <= ProjectInput.AreaOf(d).totalArea < row.laminateArea + 1.0
  {
    ProjectInput.AreaTotalIsCeiledElementArea(u.dims);
  }

  /** An element with no stored materials (or a category with no rate) costs nothing for it. */
  lemma {:induction false} MissingRateCostsNothing(u: Unit, em: ElementMaterials)
    ensures Get(em, MaterialKey(u.id)).None? ==>
      RowOf(u, em).shutterCost == 0.0 && RowOf(u, em).carcusCost == 0.0 && RowOf(u, em).laminateCost == 0.0
    ensures EntryOf(GetOr(em, MaterialKey(u.id), []), Shutter).rate.None? ==> RowOf(u, em).shutterCost == 0.0
  {
  }

  datatype CostTotals = CostTotals(
    shutterArea: real, carcusArea: real, laminateArea: real,
    shutterCost: real, carcusCost: real, laminateCost: real)

  const NoCost := CostTotals(0.0, 0.0, 0.0, 0.0, 0.0, 0.0)

  function AddRow(t: CostTotals, r: BreakupRow): CostTotals {
    CostTotals(t.shutterArea + r.shutterArea, t.carcusArea + r.carcusArea, t.laminateArea + r.laminateArea,
      t.shutterCost + r.shutterCost, t.carcusCost + r.carcusCost, t.laminateCost + r.laminateCost)
  }

  /** The six running totals after the given rows. */
  function SumRows(rows: seq<BreakupRow>): CostTotals {
    if rows == [] then NoCost else AddRow(SumRows(rows[..|rows| - 1]), rows[|rows| - 1])
  }

  /** "Grand Total". */
  function GrandTotal(t: CostTotals): real {
    t.shutterCost + t.carcusCost + t.laminateCost
  }

  /** The breakup rows: one per visited element or section, in visiting order. */
  function RowsOf(units: seq<Unit>, em: ElementMaterials): (rows: seq<BreakupRow>)
    ensures |rows| == |units|
    ensures forall i :: 0 <= i < |units| ==> rows[i] == RowOf(units[i], em)
  {
    seq(|units|, i requires 0 <= i < |units| => RowOf(units[i], em))
  }

  /** The cost pass: the loops that append the breakup rows and add up the six totals. */
  method CostBreakup(rooms: Rooms, em: ElementMaterials) returns (rows: seq<BreakupRow>, totals: CostTotals)
    requires BunkBedsSectioned(rooms)
    ensures rows == RowsOf(Flatten(rooms), em)
    ensures totals == SumRows(rows)
  {
    var units := Flatten(rooms);
    rows := [];
    totals := NoCost;
    for i := 0 to |units|
      invariant rows == RowsOf(units[..i], em)
      invariant totals == SumRows(rows)
    {
      var row := RowOf(units[i], em);
      RowsOfNext(units, i, em);
      totals := AddRow(totals, row);
      rows := rows + [row];
      assert rows[..|rows| - 1] == RowsOf(units[..i], em);
    }
    assert units[..|units|] == units;
  }

  lemma RowsOfNext(units: seq<Unit>, i: nat, em: ElementMaterials)
    requires i < |units|
    ensures RowsOf(units[..i + 1], em) == RowsOf(units[..i], em) + [RowOf(units[i], em)]
  {
    assert units[..i + 1][i] == units[i];
  }

  /** The grand total is the sum over the rows of each row's three costs. */
  function RowCost(r: BreakupRow): real {
    r.shutterCost + r.carcusCost + r.laminateCost
  }

  function SumRowCosts(rows: seq<BreakupRow>): real {
    if rows == [] then 0.0 else SumRowCosts(rows[..|rows| - 1]) + RowCost(rows[|rows| - 1])
  }

  lemma {:induction false} GrandTotalIsSumOfRowCosts(rows: seq<BreakupRow>)
    ensures GrandTotal(SumRows(rows)) == SumRowCosts(rows)
  {
    if rows != [] {
      GrandTotalIsSumOfRowCosts(rows[..|rows| - 1]);
    }
  }

  /** With non-negative dimensions and rates every total is non-negative. */
  lemma {:induction false} TotalsNonNegative(rows: seq<BreakupRow>)
    requires forall i :: 0 <= i < |rows| ==>
      0.0 <= rows[i].shutterArea && 0.0 <= rows[i].carcusArea && 0.0 <= rows[i].laminateArea
      && 0.0 <= rows[i].shutterCost && 0.0 <= rows[i].carcusCost && 0.0 <= rows[i].laminateCost
    ensures var t := SumRows(rows);
      0.0 <= t.shutterArea && 0.0 <= t.carcusArea && 0.0 <= t.laminateArea
      && 0.0 <= t.shutterCost && 0.0 <= t.carcusCost && 0.0 <= t.laminateCost
  {
    if rows != [] {
      TotalsNonNegative(rows[..|rows| - 1]);
    }
  }

  /** Length 4, width 2, height 7, 2 shelves at rates 50, 40 and 30: costs 1400, 3520 and 3480. */
  lemma WorkedRow(room: string, em: ElementMaterials)
    requires var key := MaterialKey(ElementId(room, "Wardrobe", None));
      RateFor(em, key, Shutter) == 50.0 && RateFor(em, key, Carcus) == 40.0 && RateFor(em, key, Laminate) == 30.0
    ensures RowOf(Unit(0, ElementId(room, "Wardrobe", None), DimRecord(Some(4.0), Some(2.0), Some(7.0), Some(2.0))), em)
         == BreakupRow(room, "Wardrobe", 28.0, 88.0, 116.0, 1400.0, 3520.0, 3480.0)
  {
  }

  /**
   * The whole page: the selection pass over the stored rooms and materials, the document written
   * back with the new `element_materials`, then the cost pass. `None` when a selector fails.
   */
  method MaterialSelectionPage(doc: Project, wb: Workbook)
    returns (saved: Option<Project>, rows: seq<BreakupRow>, totals: CostTotals)
    requires BunkBedsSectioned(doc.rooms.GetOr([]))
    ensures saved.Some? <==> SelectAll(KeysOf(Flatten(doc.rooms.GetOr([]))), doc.elementMaterials.GetOr([]), wb).Some?
    ensures saved.Some? ==>
      var em := SelectAll(KeysOf(Flatten(doc.rooms.GetOr([]))), doc.elementMaterials.GetOr([]), wb).value;
      saved.value == doc.(elementMaterials := Some(em))
      && rows == RowsOf(Flatten(doc.rooms.GetOr([])), em)
      && totals == SumRows(rows)
  {
    var rooms := doc.rooms.GetOr([]);
    var em := SelectMaterials(rooms, doc.elementMaterials.GetOr([]), wb);
    if em.None? {
      return None, [], NoCost;
    }
    saved := Some(doc.(elementMaterials := em));
    rows, totals := CostBreakup(rooms, em.value);
  }
}
