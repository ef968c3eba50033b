/**
 * pages/03_Summary.py: the summary dashboard's numbers. One row per element or Bunk Bed section
 * with its stored total area, its cost at the project-wide rates, its cost per square foot and
 * the two labour estimates; the project totals and the four headline figures; and the view that
 * merges the rows of equally named elements across rooms.
 */
module Summary {
  import opened Wrappers
  import opened Dicts
  import opened Document
  import opened Calculations
  import ProjectInput
  import MaterialSelection

  const ZeroArea := AreaRecord(0.0, 0.0, 0.0, 0.0, 0.0, 0.0)

  /**
   * `area_details.get(room, {}).get(element, {})`, and `.get(section, {})` for a Bunk Bed
   * section. A value of the other shape holds none of the area keys, so it reads like a missing one.
   */
  function AreaFor(ad: AreaDetails, id: ElementId): Option<AreaRecord> {
    match Get(GetOr(ad, id.room, []), id.element)
    case None => None
    case Some(v) =>
      match id.section
      case None => if v.PlainArea? then Some(v.record) else None
      case Some(s) => if v.SectionedArea? then Get(v.sections, s) else None
  }

  /** The areas a row is costed on: all zero when no record is found. */
  function AreasOf(ad: AreaDetails, id: ElementId): AreaRecord {
    AreaFor(ad, id).GetOr(ZeroArea)
  }

  /** `materials.get(cat, {}).get("rate", 0)`: one rate per category for the whole project. */
  function RateOf(mats: CategoryMaterials, cat: string): real {
    Field(GetOr(mats, cat, EmptyEntry).rate)
  }

  /** `materials.get(cat, {}).get(key, "")` for the material columns. */
  function TextOf(o: Option<string>): string {
    o.GetOr("")
  }

  /** An element's three costs: shutter and laminate over the shutter area, carcus over the other four. */
  datatype Costs = Costs(shutter: real, carcus: real, laminate: real)

  function CostsOf(a: AreaRecord, mats: CategoryMaterials): Costs {
    Costs(
      a.shutterArea * RateOf(mats, Shutter),
      (a.sideArea + a.topBottomArea + a.backPanelArea + a.shelfArea) * RateOf(mats, Carcus),
      a.shutterArea * RateOf(mats, Laminate))
  }

  function CostTotal(c: Costs): real {
    c.shutter + c.carcus + c.laminate
  }

  /** `el_total_cost / ta if ta else 0`: never a division by zero. */
  function CostPerSft(total: real, ta: real): (r: real)
    ensures ta != 0.0 ==> r * ta == total
    ensures ta == 0.0 ==> r == 0.0
  {
    if ta != 0.0 then total / ta else 0.0
  }

  /** Factory binding: 220 for making and 120 for installing, per square foot of front. */
  const FactoryRate: real := 340.0
  /** Carpentry: 300 per square foot of front. */
  const CarpenterRate: real := 300.0

  /** One row of `elements_data`. */
  datatype SummaryRow = SummaryRow(
    room: string, element: string,
    height: real, length: real, width: real, numShelves: real,
    shutterMaterial: string, carcusMaterial: string, laminateType: string,
    totalArea: real, totalCost: real, costPerSft: real,
    factoryBinding: real, carpenter: real)

  function SummaryRowOf(u: Unit, ad: AreaDetails, mats: CategoryMaterials): SummaryRow {
    var a := AreasOf(ad, u.id);
    var total := CostTotal(CostsOf(a, mats));
    var l, h := Field(u.dims.length), Field(u.dims.height);
    SummaryRow(u.id.room, Label(u.id), h, l, Field(u.dims.width), Field(u.dims.numShelves),
      TextOf(GetOr(mats, Shutter, EmptyEntry).brand), TextOf(GetOr(mats, Carcus, EmptyEntry).brand),
      TextOf(GetOr(mats, Laminate, EmptyEntry).kind),
      a.totalArea, total, CostPerSft(total, a.totalArea),
      FactoryRate * Front(u), CarpenterRate * Front(u))
  }

  /** The front an element presents, length times height, on which labour is charged. */
  function Front(u: Unit): (f: real)
    ensures 0.0 <= Field(u.dims.length) && 0.0 <= Field(u.dims.height) ==> 0.0 <= f
  {
    NonNegProduct(Field(u.dims.length), Field(u.dims.height));
    Field(u.dims.length) * Field(u.dims.height)
  }

  /** The rows: one per visited element or section, in visiting order. */
  function SummaryRows(units: seq<Unit>, ad: AreaDetails, mats: CategoryMaterials): (rows: seq<SummaryRow>)
    ensures |rows| == |units|
  {
    seq(|units|, i requires 0 <= i < |units| => SummaryRowOf(units[i], ad, mats))
  }

  lemma SummaryRowsNext(units: seq<Unit>, i: nat, ad: AreaDetails, mats: CategoryMaterials)
    requires i < |units|
    ensures SummaryRows(units[..i + 1], ad, mats) == SummaryRows(units[..i], ad, mats) + [SummaryRowOf(units[i], ad, mats)]
  {
    assert units[..i + 1][i] == units[i];
  }

  /**
   * An element whose area record is missing counts for nothing: no area, no cost and a cost per
   * square foot of 0.
   */
  lemma MissingAreaCostsNothing(u: Unit, ad: AreaDetails, mats: CategoryMaterials)
    requires AreaFor(ad, u.id).None?
    ensures var row := SummaryRowOf(u, ad, mats);
      row.totalArea == 0.0 && row.totalCost == 0.0 && row.costPerSft == 0.0
  {
  }

  /**
   * The rates are the project's, not the element's: two elements with the same area record cost
   * the same, whichever rooms they are in and whatever was selected for them on the material page.
   */
  lemma SameAreasSameCost(u: Unit, v: Unit, ad: AreaDetails, mats: CategoryMaterials)
    requires AreaFor(ad, u.id) == AreaFor(ad, v.id)
    ensures SummaryRowOf(u, ad, mats).totalCost == SummaryRowOf(v, ad, mats).totalCost
    ensures SummaryRowOf(u, ad, mats).costPerSft == SummaryRowOf(v, ad, mats).costPerSft
  {
  }

  /**
   * The labour estimates depend on the dimensions only, never on the areas or materials, and
   * stand in the ratio 340 : 300.
   */
  lemma LabourIgnoresMaterials(u: Unit, ad1: AreaDetails, m1: CategoryMaterials, ad2: AreaDetails, m2: CategoryMaterials)
    ensures SummaryRowOf(u, ad1, m1).factoryBinding == SummaryRowOf(u, ad2, m2).factoryBinding
    ensures SummaryRowOf(u, ad1, m1).carpenter == SummaryRowOf(u, ad2, m2).carpenter
    ensures CarpenterRate * SummaryRowOf(u, ad1, m1).factoryBinding == FactoryRate * SummaryRowOf(u, ad1, m1).carpenter
  {
  }

  /**
   * On an element whose stored areas are the input page's and whose rates agree with the ones
   * chosen for it on the material page, the summary's cost falls short of the breakup's by the
   * laminate over the carcus: the summary lays laminate on the shutter area only, the breakup on
   * shutter and carcus.
   */
  lemma SummaryOmitsCarcusLaminate(u: Unit, ad: AreaDetails, mats: CategoryMaterials, em: ElementMaterials)
    requires AreaFor(ad, u.id) == Some(ProjectInput.AreaOf(u.dims))
    requires MaterialSelection.RateFor(em, MaterialKey(u.id), Shutter) == RateOf(mats, Shutter)
    requires MaterialSelection.RateFor(em, MaterialKey(u.id), Carcus) == RateOf(mats, Carcus)
    requires MaterialSelection.RateFor(em, MaterialKey(u.id), Laminate) == RateOf(mats, Laminate)
    ensures var b := MaterialSelection.RowOf(u, em);
      SummaryRowOf(u, ad, mats).totalCost + b.carcusArea * RateOf(mats, Laminate)
      == b.shutterCost + b.carcusCost + b.laminateCost
  {
    SummaryTotalAsBreakup(u, ad, mats, em);
    BreakupLaminateSplit(u, em, RateOf(mats, Laminate));
  }

  /** The summary's total in the breakup's terms: its shutter and carcus costs, and laminate on the shutter. */
  lemma SummaryTotalAsBreakup(u: Unit, ad: AreaDetails, mats: CategoryMaterials, em: ElementMaterials)
    requires AreaFor(ad, u.id) == Some(ProjectInput.AreaOf(u.dims))
    requires MaterialSelection.RateFor(em, MaterialKey(u.id), Shutter) == RateOf(mats, Shutter)
    requires MaterialSelection.RateFor(em, MaterialKey(u.id), Carcus) == RateOf(mats, Carcus)
    ensures var b := MaterialSelection.RowOf(u, em);
      SummaryRowOf(u, ad, mats).totalCost == b.shutterCost + b.carcusCost + b.shutterArea * RateOf(mats, Laminate)
  {
    SummaryCost(u, ad, mats);
    BreakupAgainstAreas(u, em);
  }

  /** The breakup's laminate cost, split into its shutter and carcus parts. */
  lemma BreakupLaminateSplit(u: Unit, em: ElementMaterials, rl: real)
    requires MaterialSelection.RateFor(em, MaterialKey(u.id), Laminate) == rl
    ensures var b := MaterialSelection.RowOf(u, em);
      b.laminateCost == b.shutterArea * rl + b.carcusArea * rl
  {
    var b := MaterialSelection.RowOf(u, em);
    BreakupAgainstAreas(u, em);
    assert (b.shutterArea + b.carcusArea) * rl == b.shutterArea * rl + b.carcusArea * rl;
  }

  lemma SummaryCost(u: Unit, ad: AreaDetails, mats: CategoryMaterials)
    ensures var a := AreasOf(ad, u.id);
      SummaryRowOf(u, ad, mats).totalCost
      == a.shutterArea * RateOf(mats, Shutter)
        + (a.sideArea + a.topBottomArea + a.backPanelArea + a.shelfArea) * RateOf(mats, Carcus)
        + a.shutterArea * RateOf(mats, Laminate)
  {
    var a := AreasOf(ad, u.id);
    assert SummaryRowOf(u, ad, mats).totalCost == CostTotal(CostsOf(a, mats));
  }

  lemma BreakupAgainstAreas(u: Unit, em: ElementMaterials)
    ensures var b := MaterialSelection.RowOf(u, em);
      var a := ProjectInput.AreaOf(u.dims);
      var key := MaterialKey(u.id);
      b.shutterArea == a.shutterArea
      && b.carcusArea == a.sideArea + a.topBottomArea + a.backPanelArea + a.shelfArea
      && b.shutterCost == b.shutterArea * MaterialSelection.RateFor(em, key, Shutter)
      && b.carcusCost == b.carcusArea * MaterialSelection.RateFor(em, key, Carcus)
      && b.laminateCost == (b.shutterArea + b.carcusArea) * MaterialSelection.RateFor(em, key, Laminate)
  {
  }

  /** The per-row quantities that are added up. */
  datatype Measure = AreaM | CostM | CostPerSftM | FactoryM | CarpenterM

  function ValueOf(r: SummaryRow, m: Measure): real {
    match m
    case AreaM => r.totalArea
    case CostM => r.totalCost
    case CostPerSftM => r.costPerSft
    case FactoryM => r.factoryBinding
    case CarpenterM => r.carpenter
  }

  /** `sum(e[column] for e in rows)`. */
  function Sum(rows: seq<SummaryRow>, m: Measure): real {
    if rows == [] then 0.0 else Sum(rows[..|rows| - 1], m) + ValueOf(rows[|rows| - 1], m)
  }

  lemma {:induction false} SumAppend(rows: seq<SummaryRow>, x: SummaryRow, m: Measure)
    ensures Sum(rows + [x], m) == Sum(rows, m) + ValueOf(x, m)
  {
    assert (rows + [x])[..|rows|] == rows;
  }

  /**
   * The page's loops: the rows in visiting order, and the running total area and total cost.
   * `materials`, `rooms` and `area_details` are read with `{}` as the default.
   */
  method Summarize(doc: Project) returns (rows: seq<SummaryRow>, totalArea: real, totalCost: real)
    requires BunkBedsSectioned(doc.rooms.GetOr([]))
    ensures rows == SummaryRows(Flatten(doc.rooms.GetOr([])), doc.areaDetails.GetOr([]), doc.materials.GetOr([]))
    ensures totalArea == Sum(rows, AreaM)
    ensures totalCost == Sum(rows, CostM)
  {
    var mats := doc.materials.GetOr([]);
    var ad := doc.areaDetails.GetOr([]);
    var units := Flatten(doc.rooms.GetOr([]));
    rows := [];
    totalArea := 0.0;
    totalCost := 0.0;
    for i := 0 to |units|
      invariant rows == SummaryRows(units[..i], ad, mats)
      invariant totalArea == Sum(rows, AreaM)
      invariant totalCost == Sum(rows, CostM)
    {
      var row := SummaryRowOf(units[i], ad, mats);
      SummaryRowsNext(units, i, ad, mats);
      totalArea := totalArea + row.totalArea;
      totalCost := totalCost + row.totalCost;
      rows := rows + [row];
      assert rows[..|rows| - 1] == SummaryRows(units[..i], ad, mats);
    }
    assert units[..|units|] == units;
  }

  /** The four headline figures. */
  datatype Kpis = Kpis(totalArea: real, totalCost: real, withFactory: real, withCarpenter: real)

  function KpisOf(rows: seq<SummaryRow>, totalArea: real, totalCost: real): Kpis {
    Kpis(totalArea, totalCost, totalCost + Sum(rows, FactoryM), totalCost + Sum(rows, CarpenterM))
  }

  /** Over any rows, the factory and carpentry estimates stand in the ratio 340 : 300. */
  lemma {:induction false} LabourSumsRatio(rows: seq<SummaryRow>)
    requires forall i :: 0 <= i < |rows| ==> CarpenterRate * rows[i].factoryBinding == FactoryRate * rows[i].carpenter
    ensures CarpenterRate * Sum(rows, FactoryM) == FactoryRate * Sum(rows, CarpenterM)
  {
    if rows != [] {
      LabourSumsRatio(rows[..|rows| - 1]);
    }
  }

  /** Every element and section has a non-negative length and height, as the input page enforces. */
  predicate FrontsNonNegative(units: seq<Unit>) {
    forall i :: 0 <= i < |units| ==> 0.0 <= Field(units[i].dims.length) && 0.0 <= Field(units[i].dims.height)
  }

  /** The labour of the rows as the page builds them, when every front has non-negative length and height. */
  lemma {:induction false} LabourNonNegative(units: seq<Unit>, ad: AreaDetails, mats: CategoryMaterials)
    requires FrontsNonNegative(units)
    ensures 0.0 <= Sum(SummaryRows(units, ad, mats), CarpenterM) <= Sum(SummaryRows(units, ad, mats), FactoryM)
  {
    if units != [] {
      var n := |units| - 1;
      var rows := SummaryRows(units, ad, mats);
      var prev := SummaryRows(units[..n], ad, mats);
      LabourNonNegative(units[..n], ad, mats);
      assert rows == prev + [rows[n]];
      SumAppend(prev, rows[n], CarpenterM);
      SumAppend(prev, rows[n], FactoryM);
      assert 0.0 <= Front(units[n]);
    }
  }

  /**
   * The headline figures for the rows the page builds: the totals are the rows' sums, and with
   * non-negative fronts cost + factory binding >= cost + carpentry >= cost.
   */
  lemma KpisOrdered(doc: Project)
    requires BunkBedsSectioned(doc.rooms.GetOr([]))
    requires FrontsNonNegative(Flatten(doc.rooms.GetOr([])))
    ensures var rows := SummaryRows(Flatten(doc.rooms.GetOr([])), doc.areaDetails.GetOr([]), doc.materials.GetOr([]));
      var k := KpisOf(rows, Sum(rows, AreaM), Sum(rows, CostM));
      k.totalCost <= k.withCarpenter <= k.withFactory
  {
    LabourNonNegative(Flatten(doc.rooms.GetOr([])), doc.areaDetails.GetOr([]), doc.materials.GetOr([]));
  }

  /** The rows labelled `e`, in order. */
  function Labelled(rows: seq<SummaryRow>, e: string): (g: seq<SummaryRow>)
    ensures |g| <= |rows|
  {
    if rows == [] then []
    else
      var n := |rows| - 1;
      Labelled(rows[..n], e) + (if rows[n].element == e then [rows[n]] else [])
  }

  /** Every row of a group carries the group's label and is one of the rows. */
  lemma {:induction false} LabelledMembers(rows: seq<SummaryRow>, e: string)
    ensures forall r :: r in Labelled(rows, e) <==> r in rows && r.element == e
  {
    if rows != [] {
      var n := |rows| - 1;
      LabelledMembers(rows[..n], e);
      assert rows == rows[..n] + [rows[n]];
    }
  }

  /** The element labels in order of first appearance, each once. */
  function Labels(rows: seq<SummaryRow>): seq<string> {
    if rows == [] then []
    else
      var n := |rows| - 1;
      var prev := Labels(rows[..n]);
      if rows[n].element in prev then prev else prev + [rows[n].element]
  }

  /** Each label is listed once. */
  lemma {:induction false} LabelsDistinct(rows: seq<SummaryRow>)
    ensures forall i, j :: 0 <= i < j < |Labels(rows)| ==> Labels(rows)[i] != Labels(rows)[j]
  {
    if rows != [] {
      LabelsDistinct(rows[..|rows| - 1]);
    }
  }

  /** No label of `ls` repeats an earlier one. */
  predicate Unique(ls: seq<string>) {
    ls == [] || (Unique(ls[..|ls| - 1]) && ls[|ls| - 1] !in ls[..|ls| - 1])
  }

  lemma {:induction false} LabelsUnique(rows: seq<SummaryRow>)
    ensures Unique(Labels(rows))
  {
    if rows != [] {
      var n := |rows| - 1;
      var prev := Labels(rows[..n]);
      LabelsUnique(rows[..n]);
      if rows[n].element !in prev {
        assert (prev + [rows[n].element])[..|prev|] == prev;
      }
    }
  }

  /** The labels are exactly those of non-empty groups. */
  lemma {:induction false} LabelsMembers(rows: seq<SummaryRow>)
    ensures forall e :: e in Labels(rows) <==> Labelled(rows, e) != []
  {
    if rows != [] {
      var n := |rows| - 1;
      LabelsMembers(rows[..n]);
      forall e ensures e in Labels(rows) <==> Labelled(rows, e) != [] {
        if e == rows[n].element {
          assert Labelled(rows, e) == Labelled(rows[..n], e) + [rows[n]];
        } else {
          assert Labelled(rows, e) == Labelled(rows[..n], e);
        }
      }
    }
  }

  /** A merged row: the first row's material columns; area, cost and labour summed; cost per sft averaged. */
  datatype GroupRow = GroupRow(
    element: string,
    shutterMaterial: string, carcusMaterial: string, laminateType: string,
    totalArea: real, totalCost: real, costPerSft: real,
    factoryBinding: real, carpenter: real,
    finalWithFactory: real, finalWithCarpentry: real)

  /** The merged row of a non-empty group. */
  function GroupOf(g: seq<SummaryRow>, e: string): GroupRow
    requires g != []
  {
    var cost, factory, carpenter := Sum(g, CostM), Sum(g, FactoryM), Sum(g, CarpenterM);
    GroupRow(e, g[0].shutterMaterial, g[0].carcusMaterial, g[0].laminateType,
      Sum(g, AreaM), cost, Sum(g, CostPerSftM) / (|g| as real),
      factory, carpenter, cost + factory, cost + carpenter)
  }

  /** `df.groupby("Element").agg(...)` with the two final columns. */
  function Grouped(rows: seq<SummaryRow>): (r: seq<GroupRow>)
    ensures |r| == |Labels(rows)|
  {
    LabelsMembers(rows);
    seq(|Labels(rows)|, i requires 0 <= i < |Labels(rows)| =>
      GroupOf(Labelled(rows, Labels(rows)[i]), Labels(rows)[i]))
  }

  /**
   * One merged row per element name, each name once; every row's name has its merged row, which
   * sums exactly the rows of that name.
   */
  lemma {:induction false} GroupedRows(rows: seq<SummaryRow>)
    ensures forall i, j :: 0 <= i < j < |Grouped(rows)| ==> Grouped(rows)[i].element != Grouped(rows)[j].element
    ensures forall r :: r in rows ==> exists i :: 0 <= i < |Grouped(rows)| && Grouped(rows)[i].element == r.element
    ensures forall i :: 0 <= i < |Grouped(rows)| ==>
      var g := Grouped(rows)[i];
      Labelled(rows, g.element) != []
      && g.totalCost == Sum(Labelled(rows, g.element), CostM)
      && g.totalArea == Sum(Labelled(rows, g.element), AreaM)
      && g.finalWithFactory == g.totalCost + g.factoryBinding
      && g.finalWithCarpentry == g.totalCost + g.carpenter
  {
    LabelsMembers(rows);
    LabelsDistinct(rows);
    var ls := Labels(rows);
    forall r | r in rows
      ensures exists i :: 0 <= i < |Grouped(rows)| && Grouped(rows)[i].element == r.element
    {
      LabelledMembers(rows, r.element);
      assert r in Labelled(rows, r.element);
      var i :| 0 <= i < |ls| && ls[i] == r.element;
      assert Grouped(rows)[i].element == r.element;
    }
  }

  /** Σ over the labels `ls` of the sum of the rows labelled with it. */
  function SumGroups(ls: seq<string>, rows: seq<SummaryRow>, m: Measure): real {
    if ls == [] then 0.0 else SumGroups(ls[..|ls| - 1], rows, m) + Sum(Labelled(rows, ls[|ls| - 1]), m)
  }

  lemma {:induction false} LabelledAppend(rows: seq<SummaryRow>, x: SummaryRow, e: string)
    ensures Labelled(rows + [x], e) == if x.element == e then Labelled(rows, e) + [x] else Labelled(rows, e)
  {
    assert (rows + [x])[..|rows|] == rows;
    assert Labelled(rows, e) + [] == Labelled(rows, e);
  }

  /** One more row adds its value to its own label's group and to no other. */
  lemma {:induction false} SumGroupsNext(ls: seq<string>, rows: seq<SummaryRow>, x: SummaryRow, m: Measure)
    requires Unique(ls)
    ensures SumGroups(ls, rows + [x], m) == SumGroups(ls, rows, m) + (if x.element in ls then ValueOf(x, m) else 0.0)
  {
    if ls != [] {
      var n := |ls| - 1;
      var init := ls[..n];
      SumGroupsNext(init, rows, x, m);
      LabelledAppend(rows, x, ls[n]);
      SumAppend(Labelled(rows, ls[n]), x, m);
      SplitLast(ls);
      if x.element == ls[n] {
        assert x.element !in init;
      } else {
        assert x.element in ls <==> x.element in init;
      }
    }
  }

  /** A row with a new label opens a group holding just that row. */
  lemma {:induction false} NewLabelGroup(prev: seq<SummaryRow>, x: SummaryRow, m: Measure)
    requires Labelled(prev, x.element) == []
    ensures var ls := Labels(prev) + [x.element];
      SumGroups(ls, prev + [x], m) == SumGroups(Labels(prev), prev + [x], m) + ValueOf(x, m)
  {
    var ls := Labels(prev) + [x.element];
    assert ls[..|ls| - 1] == Labels(prev);
    LabelledAppend(prev, x, x.element);
    SumAppend([], x, m);
    assert [] + [x] == [x];
  }

  /** Merging moves no money: the merged rows' costs, areas and labour add up to the rows' own totals. */
  lemma {:induction false} GroupsConserveTotals(rows: seq<SummaryRow>, m: Measure)
    ensures SumGroups(Labels(rows), rows, m) == Sum(rows, m)
  {
    if rows != [] {
      var n := |rows| - 1;
      var prev := rows[..n];
      var x := rows[n];
      var ls := Labels(prev);
      SplitLast(rows);
      GroupsConserveTotals(prev, m);
      LabelsUnique(prev);
      SumGroupsNext(ls, prev, x, m);
      assert Sum(rows, m) == Sum(prev, m) + ValueOf(x, m);
      if x.element in ls {
        assert Labels(rows) == ls;
      } else {
        LabelsMembers(prev);
        assert Labels(rows) == ls + [x.element];
        NewLabelGroup(prev, x, m);
      }
    }
  }

  /**
   * All rows of the page carry the project's three material columns, so the merged view's
   * "first" material of a group is no choice at all.
   */
  lemma UniformMaterials(units: seq<Unit>, ad: AreaDetails, mats: CategoryMaterials)
    ensures forall i :: 0 <= i < |units| ==>
      var r := SummaryRows(units, ad, mats)[i];
      r.shutterMaterial == TextOf(GetOr(mats, Shutter, EmptyEntry).brand)
      && r.carcusMaterial == TextOf(GetOr(mats, Carcus, EmptyEntry).brand)
      && r.laminateType == TextOf(GetOr(mats, Laminate, EmptyEntry).kind)
  {
  }
}
