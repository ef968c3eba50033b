/** utils/calculations.py: the surface-area formulas and the cost helpers. */
module Calculations {
  import opened Wrappers
  import opened Dicts

  /** `calculate_area(length, width, height=1)`. */
  function CalculateArea(length: real, width: real, height: real := 1.0): (r: real)
    ensures 0.0 <= length && 0.0 <= width && 0.0 <= height ==> 0.0 <= r
  {
    NonNegProduct3(length, width, height);
    length * width * height
  }

  /** `calculate_sheets_needed(total_area, sheet_area=32)`: a plain division, not rounded. */
  function CalculateSheetsNeeded(totalArea: real, sheetArea: real := 32.0): (sheets: real)
    requires sheetArea != 0.0
    ensures sheets * sheetArea == totalArea
  {
    totalArea / sheetArea
  }

  /** The front panel: height times length. */
  function ShutterArea(height: real, length: real): (r: real)
    ensures 0.0 <= height && 0.0 <= length ==> 0.0 <= r
  {
    NonNegProduct(height, length);
    height * length
  }

  /** Both sides: twice width times height. */
  function SideArea(width: real, height: real): (r: real)
    ensures 0.0 <= width && 0.0 <= height ==> 0.0 <= r
  {
    NonNegProduct(width, height);
    2.0 * width * height
  }

  /** Top and bottom: twice length times width. */
  function TopBottomArea(length: real, width: real): (r: real)
    ensures 0.0 <= length && 0.0 <= width ==> 0.0 <= r
  {
    NonNegProduct(length, width);
    2.0 * length * width
  }

  /** The back panel: height times length. */
  function BackPanelArea(height: real, length: real): (r: real)
    ensures 0.0 <= height && 0.0 <= length ==> 0.0 <= r
  {
    NonNegProduct(height, length);
    height * length
  }

  /** The shelves: count times width times length (times an optional height, 1 by default). */
  function ShelfArea(numShelves: real, width: real, length: real, height: real := 1.0): (r: real)
    ensures 0.0 <= numShelves && 0.0 <= width && 0.0 <= length && 0.0 <= height ==> 0.0 <= r
  {
    NonNegProduct3(numShelves, width, length);
    NonNegProduct(numShelves * width * length, height);
    numShelves * width * length * height
  }

  /** `calculate_total_element_area(length, width, height, num_shelves=0)`: the five surfaces together. */
  function CalculateTotalElementArea(length: real, width: real, height: real, numShelves: real := 0.0): (r: real)
    ensures 0.0 <= length && 0.0 <= width && 0.0 <= height && 0.0 <= numShelves ==> 0.0 <= r
  {
    ShutterArea(height, length) + SideArea(width, height) + TopBottomArea(length, width)
      + BackPanelArea(height, length) + ShelfArea(numShelves, width, length)
  }

  lemma NonNegProduct(a: real, b: real)
    ensures 0.0 <= a && 0.0 <= b ==> 0.0 <= a * b
  {
  }

  lemma NonNegProduct3(a: real, b: real, c: real)
    ensures 0.0 <= a && 0.0 <= b && 0.0 <= c ==> 0.0 <= a * b * c
  {
    NonNegProduct(a, b);
    NonNegProduct(a * b, c);
  }

  /** A product of non-negative factors grows with each factor. */
  lemma MulMonotone(a: real, b: real, a': real, b': real)
    requires 0.0 <= a <= a' && 0.0 <= b <= b'
    ensures a * b <= a' * b'
  {
    NonNegProduct(a' - a, b);
    NonNegProduct(a', b' - b);
  }

  /** The total is 2hl + 2wh + 2lw + n*w*l: shutter and back panel are both h*l. */
  lemma TotalElementAreaFormula(length: real, width: real, height: real, numShelves: real)
    ensures CalculateTotalElementArea(length, width, height, numShelves)
         == 2.0 * height * length + 2.0 * width * height + 2.0 * length * width
            + numShelves * width * length
  {
  }

  /** The shutter and the back panel always have the same area. */
  lemma ShutterEqualsBackPanel(height: real, length: real)
    ensures ShutterArea(height, length) == BackPanelArea(height, length)
  {
  }

  /** With the default height of 1, a shelf area and a plain area are the bare products. */
  lemma DefaultHeights(numShelves: real, width: real, length: real)
    ensures ShelfArea(numShelves, width, length) == numShelves * width * length
    ensures CalculateArea(length, width) == length * width
  {
  }

  lemma SideAreaMonotone(w: real, h: real, w': real, h': real)
    requires 0.0 <= w <= w' && 0.0 <= h <= h'
    ensures SideArea(w, h) <= SideArea(w', h')
  {
    MulMonotone(2.0 * w, h, 2.0 * w', h');
  }

  lemma TopBottomAreaMonotone(l: real, w: real, l': real, w': real)
    requires 0.0 <= l <= l' && 0.0 <= w <= w'
    ensures TopBottomArea(l, w) <= TopBottomArea(l', w')
  {
    MulMonotone(2.0 * l, w, 2.0 * l', w');
  }

  lemma ShelfAreaMonotone(n: real, w: real, l: real, n': real, w': real, l': real)
    requires 0.0 <= n <= n' && 0.0 <= w <= w' && 0.0 <= l <= l'
    ensures ShelfArea(n, w, l) <= ShelfArea(n', w', l')
  {
    MulMonotone(n, w, n', w');
    NonNegProduct(n, w);
    MulMonotone(n * w, l, n' * w', l');
    NonNegProduct3(n, w, l);
    MulMonotone(n * w * l, 1.0, n' * w' * l', 1.0);
  }

  /** Growing any dimension or the shelf count never shrinks the total element area. */
  lemma {:induction false} TotalElementAreaMonotone(
    l: real, w: real, h: real, n: real, l': real, w': real, h': real, n': real)
    requires 0.0 <= l <= l' && 0.0 <= w <= w' && 0.0 <= h <= h' && 0.0 <= n <= n'
    ensures CalculateTotalElementArea(l, w, h, n) <= CalculateTotalElementArea(l', w', h', n')
  {
    MulMonotone(h, l, h', l');
    SideAreaMonotone(w, h, w', h');
    TopBottomAreaMonotone(l, w, l', w');
    ShelfAreaMonotone(n, w, l, n', w', l');
  }

  /** 156 square feet is 4.875 sheets of 32: the count is not rounded here. */
  lemma SheetsNotRounded()
    ensures CalculateSheetsNeeded(156.0) == 4.875
  {
  }

  /** `calculate_material_cost`: rate times quantity, or ValueError for a type not in the table. */
  const MaterialNotFound: string := "Material type not found in cost table."

  function CalculateMaterialCost(materialType: string, quantity: real, costs: map<string, real>): (r: Result<real, string>)
    ensures r.Success? <==> materialType in costs
    ensures r.Success? ==> r.value == costs[materialType] * quantity
    ensures r.Failure? ==> r.error == MaterialNotFound
  {
    if materialType in costs then Success(costs[materialType] * quantity)
    else Failure(MaterialNotFound)
  }

  /** Every selected type has a rate. */
  predicate AllPriced(costs: map<string, real>, selections: Dict<real>) {
    forall i :: 0 <= i < |selections| ==> selections[i].0 in costs
  }

  /** The sum of rate times quantity over the selections. */
  function SelectionsCost(costs: map<string, real>, selections: Dict<real>): real
    requires AllPriced(costs, selections)
  {
    if selections == [] then 0.0
    else
      var n := |selections| - 1;
      SelectionsCost(costs, selections[..n]) + costs[selections[n].0] * selections[n].1
  }

  /** Splitting the selections splits their cost. */
  lemma {:induction false} SelectionsCostSplit(costs: map<string, real>, a: Dict<real>, b: Dict<real>)
    requires AllPriced(costs, a) && AllPriced(costs, b)
    ensures AllPriced(costs, a + b)
    ensures SelectionsCost(costs, a + b) == SelectionsCost(costs, a) + SelectionsCost(costs, b)
  {
    if b != [] {
      var n := |b| - 1;
      assert (a + b)[..|a| + n] == a + b[..n];
      SelectionsCostSplit(costs, a, b[..n]);
    } else {
      assert a + b == a;
    }
  }

  /** `total_cost(material_costs, selections)`: 0 for none; raises at the first type without a rate. */
  method TotalCost(costs: map<string, real>, selections: Dict<real>) returns (r: Result<real, string>)
    ensures r.Success? <==> AllPriced(costs, selections)
    ensures r.Success? ==> r.value == SelectionsCost(costs, selections)
    ensures r.Failure? ==> r.error == MaterialNotFound
  {
    var total := 0.0;
    var i := 0;
    while i < |selections|
      invariant 0 <= i <= |selections|
      invariant AllPriced(costs, selections[..i])
      invariant total == SelectionsCost(costs, selections[..i])
    {
      var c := CalculateMaterialCost(selections[i].0, selections[i].1, costs);
      if c.Failure? {
        return Failure(c.error);
      }
      assert selections[..i + 1][..i] == selections[..i];
      total := total + c.value;
      i := i + 1;
    }
    assert selections[..i] == selections;
    return Success(total);
  }

  /** An element given to `calculate_total_area`: its length, width and height. */
  datatype Box = Box(length: real, width: real, height: real)

  function Volume(b: Box): real {
    CalculateArea(b.length, b.width, b.height)
  }

  function SumVolumes(s: seq<Box>): real {
    if s == [] then 0.0 else SumVolumes(s[..|s| - 1]) + Volume(s[|s| - 1])
  }

  /** `calculate_total_area(elements)`: the running sum of length * width * height. */
  method CalculateTotalArea(elements: seq<Box>) returns (totalArea: real)
    ensures totalArea == SumVolumes(elements)
  {
    totalArea := 0.0;
    for i := 0 to |elements|
      invariant totalArea == SumVolumes(elements[..i])
    {
      assert elements[..i + 1][..i] == elements[..i];
      totalArea := totalArea + CalculateArea(elements[i].length, elements[i].width, elements[i].height);
    }
    assert elements[..|elements|] == elements;
  }

  lemma {:induction false} SumVolumesSplit(a: seq<Box>, b: seq<Box>)
    ensures SumVolumes(a + b) == SumVolumes(a) + SumVolumes(b)
  {
    if b != [] {
      var n := |b| - 1;
      assert (a + b)[..|a| + n] == a + b[..n];
      SumVolumesSplit(a, b[..n]);
    } else {
      assert a + b == a;
    }
  }

  /** The total area does not depend on the order of the elements. */
  lemma {:induction false} SumVolumesPermutation(a: seq<Box>, b: seq<Box>)
    requires multiset(a) == multiset(b)
    ensures SumVolumes(a) == SumVolumes(b)
    decreases |a|
  {
    if a != [] {
      var n := |a| - 1;
      var x := a[n];
      assert a == a[..n] + [x];
      assert x in multiset(b);
      var j :| 0 <= j < |b| && b[j] == x;
      var rest := b[..j] + b[j + 1..];
      assert b == b[..j] + [x] + b[j + 1..];
      assert multiset(a) == multiset(a[..n]) + multiset{x};
      assert multiset(b) == multiset(b[..j]) + multiset{x} + multiset(b[j + 1..]);
      assert multiset(rest) == multiset(b[..j]) + multiset(b[j + 1..]);
      assert multiset(a[..n]) == multiset(a) - multiset{x};
      assert multiset(rest) == multiset(b) - multiset{x};
      SumVolumesPermutation(a[..n], rest);
      SumVolumesSplit(b[..j] + [x], b[j + 1..]);
      SumVolumesSplit(b[..j], [x]);
      SumVolumesSplit(b[..j], b[j + 1..]);
      assert [x][..0] == [];
    } else {
      assert b == [];
    }
  }
}
