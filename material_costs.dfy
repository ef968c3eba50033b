/**
 * data/material_costs.py: the price sheets read from the workbook and the fixed laminate table.
 * The workbook's contents are an input: a sheet is a sequence of rows.
 */
module MaterialCosts {
  import opened Wrappers
  import opened Dicts

  /** One row of a price sheet; a blank cell is `None`. */
  datatype CatalogRow = CatalogRow(
    grade: Option<string>, brand: Option<string>, model: Option<string>,
    thickness: Option<string>, perSftPrice: real)

  type Sheet = seq<CatalogRow>

  /** The "Plywood" and "HDMR" sheets of the workbook. */
  datatype Workbook = Workbook(plywood: Sheet, hdmr: Sheet)

  /** The text columns a selection narrows by. */
  datatype Column = GradeCol | BrandCol | ModelCol | ThicknessCol

  function Cell(row: CatalogRow, c: Column): Option<string> {
    match c
    case GradeCol => row.grade
    case BrandCol => row.brand
    case ModelCol => row.model
    case ThicknessCol => row.thickness
  }

  /** `df[df[c] == v]`: the rows holding `v` in column `c`, in sheet order (a blank cell never matches). */
  function RowsWhere(sheet: Sheet, c: Column, v: string): (r: Sheet)
    ensures |r| <= |sheet|
  {
    if sheet == [] then []
    else
      var n := |sheet| - 1;
      RowsWhere(sheet[..n], c, v) + (if Cell(sheet[n], c) == Some(v) then [sheet[n]] else [])
  }

  /** The filter keeps exactly the sheet's rows holding `v` in column `c`. */
  lemma {:induction false} RowsWhereMembers(sheet: Sheet, c: Column, v: string)
    ensures forall x :: x in RowsWhere(sheet, c, v) <==> x in sheet && Cell(x, c) == Some(v)
  {
    if sheet != [] {
      var n := |sheet| - 1;
      RowsWhereMembers(sheet[..n], c, v);
      assert sheet == sheet[..n] + [sheet[n]];
    }
  }

  /** `df[c]`: the column's cells, in sheet order. */
  function ColumnOf(sheet: Sheet, c: Column): (cells: seq<Option<string>>)
    ensures |cells| == |sheet|
    ensures forall i :: 0 <= i < |sheet| ==> cells[i] == Cell(sheet[i], c)
  {
    seq(|sheet|, i requires 0 <= i < |sheet| => Cell(sheet[i], c))
  }

  /** The HDHMR table: the HDMR sheet's rows graded "HDHMR". */
  function HdhmrRows(wb: Workbook): Sheet {
    RowsWhere(wb.hdmr, GradeCol, "HDHMR")
  }

  /** The MDF table: the HDMR sheet's rows graded "MDF" (renumbered, which positional access does not see). */
  function MdfRows(wb: Workbook): Sheet {
    RowsWhere(wb.hdmr, GradeCol, "MDF")
  }

  /** The grade filter keeps sheet order: filtering a concatenation concatenates the filtered parts. */
  lemma {:induction false} RowsWhereSplit(a: Sheet, b: Sheet, c: Column, v: string)
    ensures RowsWhere(a + b, c, v) == RowsWhere(a, c, v) + RowsWhere(b, c, v)
  {
    if b != [] {
      var n := |b| - 1;
      var last := if Cell(b[n], c) == Some(v) then [b[n]] else [];
      assert (a + b)[..|a| + n] == a + b[..n];
      assert (a + b)[|a| + n] == b[n];
      assert RowsWhere(a + b, c, v) == RowsWhere(a + b[..n], c, v) + last;
      assert RowsWhere(b, c, v) == RowsWhere(b[..n], c, v) + last;
      RowsWhereSplit(a, b[..n], c, v);
    } else {
      assert a + b == a;
    }
  }

  /** No row is in both the HDHMR and the MDF table. */
  lemma HdhmrMdfDisjoint(wb: Workbook)
    ensures forall x :: !(x in HdhmrRows(wb) && x in MdfRows(wb))
  {
    RowsWhereMembers(wb.hdmr, GradeCol, "HDHMR");
    RowsWhereMembers(wb.hdmr, GradeCol, "MDF");
  }

  predicate Distinct(s: seq<string>) {
    forall i, j :: 0 <= i < j < |s| ==> s[i] != s[j]
  }

  /** `column.dropna().unique().tolist()`: the present values, each once, in order of first appearance. */
  function DistinctPresent(column: seq<Option<string>>): (r: seq<string>)
    ensures |r| <= |column|
  {
    if column == [] then []
    else
      var n := |column| - 1;
      var prev := DistinctPresent(column[..n]);
      if column[n].Some? && column[n].value !in prev then prev + [column[n].value] else prev
  }

  /** The values offered are exactly the present ones, each once. */
  lemma {:induction false} DistinctPresentMembers(column: seq<Option<string>>)
    ensures forall v :: v in DistinctPresent(column) <==> Some(v) in column
    ensures Distinct(DistinctPresent(column))
  {
    if column != [] {
      var n := |column| - 1;
      DistinctPresentMembers(column[..n]);
      assert column == column[..n] + [column[n]];
    }
  }

  /** A sheet whose rows all carry one grade offers exactly that grade (or none, when empty). */
  lemma {:induction false} OneGradeOffered(sheet: Sheet, grade: string)
    requires forall x :: x in sheet ==> x.grade == Some(grade)
    ensures DistinctPresent(ColumnOf(sheet, GradeCol)) == if sheet == [] then [] else [grade]
  {
    if sheet != [] {
      var n := |sheet| - 1;
      assert ColumnOf(sheet, GradeCol)[..n] == ColumnOf(sheet[..n], GradeCol);
      OneGradeOffered(sheet[..n], grade);
      DistinctPresentMembers(ColumnOf(sheet[..n], GradeCol));
      assert sheet[n] in sheet;
    }
  }

  /** The HDHMR and MDF tables each offer a single grade. */
  lemma SplitTablesOfferOneGrade(wb: Workbook)
    ensures DistinctPresent(ColumnOf(HdhmrRows(wb), GradeCol)) == if HdhmrRows(wb) == [] then [] else ["HDHMR"]
    ensures DistinctPresent(ColumnOf(MdfRows(wb), GradeCol)) == if MdfRows(wb) == [] then [] else ["MDF"]
  {
    RowsWhereMembers(wb.hdmr, GradeCol, "HDHMR");
    RowsWhereMembers(wb.hdmr, GradeCol, "MDF");
    OneGradeOffered(HdhmrRows(wb), "HDHMR");
    OneGradeOffered(MdfRows(wb), "MDF");
  }

  /** `laminate["Laminate"]`: tier -> thickness -> rate per square foot. */
  const LaminateTable: Dict<Dict<real>> := [
    ("Standard", [("0.8mm (Avg Price)", 32.0)]),
    ("Premium", [("1mm (Avg Price)", 65.0)]),
    ("Luxury", [("1.25mm (Avg Price)", 116.0)])
  ]

  /** Three tiers, in this order, each with a single thickness. */
  lemma LaminateTiers()
    ensures Keys(LaminateTable) == ["Standard", "Premium", "Luxury"]
    ensures forall i :: 0 <= i < |LaminateTable| ==> |LaminateTable[i].1| == 1
  {
  }

  /** The rates are 32, 65 and 116, rising from Standard to Luxury. */
  lemma LaminateRates()
    ensures Get(LaminateTable, "Standard") == Some([("0.8mm (Avg Price)", 32.0)])
    ensures Get(LaminateTable, "Premium") == Some([("1mm (Avg Price)", 65.0)])
    ensures Get(LaminateTable, "Luxury") == Some([("1.25mm (Avg Price)", 116.0)])
    ensures forall i, j :: 0 <= i < j < |LaminateTable| ==> LaminateTable[i].1[0].1 < LaminateTable[j].1[0].1
  {
  }
}
