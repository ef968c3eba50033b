# Interior Cost Calculator — a Dafny model of its costing core

The interior-cost-calculator is a Streamlit application. An estimator uses it to describe a
home's rooms and the joinery elements in each one (wardrobes, lofts, kitchen units, Bunk Beds
with three sections). The application derives each element's board surface areas, picks shutter,
carcus and laminate materials from a price catalogue, and prices the result.

A project lives in two separate stores that nothing keeps in step:
- The project list in `main.py` and pages 02 and 03 read and write only the JSON file
  `projects/<user>/<name>.json`.
- The input page (page 01) loads and saves only through the MySQL tables of `utils/db.py`.
- `migrate.py` copies the JSON files into the tables once; nothing copies the tables back.

No file of the program writes the document's "materials" key. `main.py` opens the summary only
when that key is present and non-empty (`App.Route`), and page 03 reads its project-wide rates
from it. So a file the program itself wrote always opens on the input page, and the summary
prices it at rate 0.

This project models that core in Dafny and proves properties of the model:

- `calculations.dfy` covers `utils/calculations.py`: the five area formulas, the element total,
  the sheet count and the cost helpers.
- `material_costs.dfy` covers `data/material_costs.py`: the price sheets as row sequences, the
  HDHMR/MDF split of the HDMR sheet, and the fixed laminate table.
- `project_input.dfy` covers the input page. It models the room list, the element menus and
  the form's room data. It also models the "Calculate & Save" loops, which fill
  `area_details` and add up the ceiled totals, and the sheet count.
- `material_selection.dfy` covers the material page. It models the cascading selectors
  (type → grade → brand → model → thickness, each keeping a stored value only while it is
  still offered), the laminate selectors, the `element_materials` update, and the cost
  breakup with its six running totals.
- `summary.dfy` covers the summary dashboard: per-row cost and cost per square foot, labour
  estimates, project totals, the four headline figures and the grouped-by-element view.
- `db.dfy`, `db_invariants.dfy` and `db_roundtrip.dfy` cover `utils/db.py`. The tables are
  held in memory (`class Database`), and each id counter plays the part of `lastrowid`. These
  files model save (a wholesale replace), load, listing and the area upsert. They prove that
  the table invariants are kept, that a second save replaces the first, and what a save
  followed by a load gives back.
- `migrate.dfy` covers `migrate.py`, the one-off copy of the JSON store into the tables.
- `app.dfy` covers `main.py`: the users file, login and registration, the project list with
  its defaults, creation, deletion and the open-project routing rule.
- `document.dfy` defines the project document. `dicts.dfy` models Python's insertion-ordered
  dict. `strings.dfy` provides the string helpers, and `wrappers.dfy` provides `Option` and
  `Result`.

### Modelling decisions

- **Dicts.** A Python dict is an insertion-ordered sequence of pairs. `Put` is `d[k] = v`: an
  existing key keeps its place and a new key is appended. This keeps the pages' loop order
  exact.
- **Optional fields.** A JSON key may be missing, so such a field is an `Option`.
  `Field(o)` is `.get(k, 0)`.
- **Element values.** An element's value is either one dimension record (`Plain`) or a dict of
  section records (`Sectioned`).
- **Visiting order.** Pages 02 and 03, `save_project` and `migrate_project` all visit the
  elements and sections in the same order: `Document.Flatten`.
- **Bunk Bed shape.** The source branches on the element's name ("Bunk Bed"). For a Bunk Bed
  stored as a single record it reads the record's field names as section names, and the first
  loop that then reads a "section" as a dict raises. Consumers therefore require
  `BunkBedsSectioned`, and the input page's form always produces that shape
  (`ProjectInput.FormShapedComputable`).
- **Numbers and rounding.** Dimensions are `real`. `numpy.ceil` is `-((-x).Floor)`, and `int()`
  truncates toward zero (`ProjectInput.Trunc`).
- **Selector defaults.** A Streamlit selector is modelled at its initial index, the value shown
  before the user touches it. Values typed into the form are an input function, and the clock
  is a `now` parameter.

### Where the design and the code differ (the model follows the code)

- **Worked example.** The design works an element of length 4, width 2,
  height 7 and 2 shelves to a shelf area of 56 and a total of 156. The code calls
  `shelf_area(num_shelves, width, length)` with the default height of 1, which gives 16 and a
  total of 116. `ProjectInput.WorkedElement` proves the code's figures and
  `ProjectInput.WorkedSheets` the sheet counts (116 → 4, and 156 → 5).
- **Laminate area.** The design describes laminate as costed over the element's total
  area. Page 02 costs it over shutter plus carcus area, exact and not ceiled. Page 03 costs it
  over the shutter area only, at project-wide rates read from `materials`. Each page is
  modelled as written, and `Summary.SummaryOmitsCarcusLaminate` states the gap between them.
- **House types.** The input page offers "Apartment Flat", "Independent House" and "Villa".
  The create dialog in `main.py` offers "Apartment", "Independent House", "Villa" and "Other".
  A project created as "Apartment" or "Other" therefore opens on the input page with the
  first house type selected (`ProjectInput.HouseTypeIndex`).

## Model

| member | source | states |
|---|---|---|
| Calculations.CalculateArea | interior-cost-calculator/src/utils/calculations.py:1-2 | non-negative dimensions give a non-negative volume |
| Calculations.CalculateSheetsNeeded | interior-cost-calculator/src/utils/calculations.py:6-7 | the result times the sheet area is exactly the area given: no rounding |
| Calculations.ShutterArea | interior-cost-calculator/src/utils/calculations.py:27-29 | non-negative for non-negative height and length |
| Calculations.SideArea | interior-cost-calculator/src/utils/calculations.py:31-33 | non-negative for non-negative width and height |
| Calculations.TopBottomArea | interior-cost-calculator/src/utils/calculations.py:35-37 | non-negative for non-negative length and width |
| Calculations.BackPanelArea | interior-cost-calculator/src/utils/calculations.py:39-41 | non-negative for non-negative height and length |
| Calculations.ShelfArea | interior-cost-calculator/src/utils/calculations.py:43-45 | non-negative for non-negative inputs |
| Calculations.CalculateTotalElementArea | interior-cost-calculator/src/utils/calculations.py:48-58 | non-negative for non-negative dimensions and shelf count |
| Calculations.TotalElementAreaFormula | interior-cost-calculator/src/utils/calculations.py:48-58 | the element total is 2hl + 2wh + 2lw + n·w·l |
| Calculations.ShutterEqualsBackPanel | interior-cost-calculator/src/utils/calculations.py:27-41 | shutter area and back-panel area are always equal |
| Calculations.DefaultHeights | interior-cost-calculator/src/utils/calculations.py:43-45 | with the default height 1, shelf area is n·w·l and `calculate_area` is l·w |
| Calculations.SideAreaMonotone | interior-cost-calculator/src/utils/calculations.py:31-33 | side area does not decrease when width or height grows |
| Calculations.TopBottomAreaMonotone | interior-cost-calculator/src/utils/calculations.py:35-37 | top/bottom area does not decrease when length or width grows |
| Calculations.ShelfAreaMonotone | interior-cost-calculator/src/utils/calculations.py:43-45 | shelf area does not decrease when any factor grows |
| Calculations.TotalElementAreaMonotone | interior-cost-calculator/src/utils/calculations.py:48-58 | the element total does not decrease in any of l, w, h, n over non-negative values |
| Calculations.SheetsNotRounded | interior-cost-calculator/src/utils/calculations.py:6-7 | 156 square feet give 4.875 sheets |
| Calculations.CalculateMaterialCost | interior-cost-calculator/src/utils/calculations.py:9-13 | succeeds iff the type is in the table, then with rate × quantity; otherwise fails with "Material type not found in cost table." |
| Calculations.SelectionsCostSplit | interior-cost-calculator/src/utils/calculations.py:15-19 | the cost of two runs of selections is the sum of their costs |
| Calculations.TotalCost | interior-cost-calculator/src/utils/calculations.py:15-19 | the loop succeeds iff every selected type is priced, then with the sum of rate × quantity (0 for none); otherwise it fails with the not-found error |
| Calculations.CalculateTotalArea | interior-cost-calculator/src/utils/calculations.py:21-25 | the loop's total is the sum of l·w·h over the list (0 for an empty list) |
| Calculations.SumVolumesSplit | interior-cost-calculator/src/utils/calculations.py:21-25 | the total of a concatenation is the sum of the totals |
| Calculations.SumVolumesPermutation | interior-cost-calculator/src/utils/calculations.py:21-25 | the total does not depend on the order of the elements |
| MaterialCosts.RowsWhere | interior-cost-calculator/src/data/material_costs.py:11-12 | a filter never yields more rows than the sheet |
| MaterialCosts.RowsWhereMembers | interior-cost-calculator/src/data/material_costs.py:11-12 | a row is kept iff it is in the sheet and holds the value in that column |
| MaterialCosts.RowsWhereSplit | interior-cost-calculator/src/data/material_costs.py:11-12 | filtering keeps sheet order: filtering a concatenation concatenates the filtered parts |
| MaterialCosts.HdhmrMdfDisjoint | interior-cost-calculator/src/data/material_costs.py:10-12 | no row is in both the HDHMR table and the MDF table |
| MaterialCosts.ColumnOf | interior-cost-calculator/src/pages/02_MaterialSelection.py:112 | a column has one cell per row, each that row's value |
| MaterialCosts.DistinctPresent | interior-cost-calculator/src/pages/02_MaterialSelection.py:112 | `dropna().unique()` never yields more values than the column has cells |
| MaterialCosts.DistinctPresentMembers | interior-cost-calculator/src/pages/02_MaterialSelection.py:112-142 | the candidates are exactly the non-blank values of the column, each once |
| MaterialCosts.OneGradeOffered | interior-cost-calculator/src/data/material_costs.py:11-12 | a sheet whose rows all carry one grade offers exactly that grade (none when empty) |
| MaterialCosts.SplitTablesOfferOneGrade | interior-cost-calculator/src/data/material_costs.py:11-12 | the HDHMR table offers only "HDHMR" and the MDF table only "MDF" |
| MaterialCosts.LaminateTiers | interior-cost-calculator/src/data/material_costs.py:14-24 | exactly three tiers, Standard, Premium and Luxury, each with one thickness |
| MaterialCosts.LaminateRates | interior-cost-calculator/src/data/material_costs.py:14-24 | the rates are 32, 65 and 116 per square foot, strictly increasing by tier |
| ProjectInput.Ceil | interior-cost-calculator/src/pages/01_ProjectInput.py:163-202 | the least whole number not below x |
| ProjectInput.HouseTypeIndex | interior-cost-calculator/src/pages/01_ProjectInput.py:44-49 | a stored house type among the three options is preselected; anything else selects index 0 |
| ProjectInput.DefaultBedrooms | interior-cost-calculator/src/pages/01_ProjectInput.py:50-55 | a stored non-zero bedroom count is kept; a missing or zero one defaults to 1 |
| ProjectInput.BedroomIds | interior-cost-calculator/src/pages/01_ProjectInput.py:59-67 | the append loop builds the bedroom list: Master, Kids, Guest, then "Other Bedroom k" |
| ProjectInput.BedroomNamesDistinct | interior-cost-calculator/src/pages/01_ProjectInput.py:59-67 | two different bedroom positions never get the same name |
| ProjectInput.BedroomNameShape | interior-cost-calculator/src/pages/01_ProjectInput.py:66-67 | from the fourth bedroom on, the bedroom at position k (counting from 0) is "Other Bedroom " followed by k − 2 in decimal |
| ProjectInput.AllRoomsDistinct | interior-cost-calculator/src/pages/01_ProjectInput.py:59-69 | n bedrooms followed by Kitchen, Living and Dining: n + 3 distinct room names |
| ProjectInput.FixedRoomMenus | interior-cost-calculator/src/pages/01_ProjectInput.py:72-93 | Kitchen, Living and Dining get their own element lists |
| ProjectInput.BedroomMenu | interior-cost-calculator/src/pages/01_ProjectInput.py:75-93 | every generated bedroom gets the bedroom element list |
| ProjectInput.BunkBedMenus | interior-cost-calculator/src/pages/01_ProjectInput.py:72-75 | Bunk Bed is on the bedroom list and on no other list |
| ProjectInput.BunkBedOnlyInBedrooms | interior-cost-calculator/src/pages/01_ProjectInput.py:59-93 | among the generated rooms, Bunk Bed is offered exactly in the bedrooms |
| ProjectInput.KeepAllowed | interior-cost-calculator/src/pages/01_ProjectInput.py:96-99 | keeps exactly the names that are among the options |
| ProjectInput.Preselected | interior-cost-calculator/src/pages/01_ProjectInput.py:96-99 | preselected elements are exactly the room's stored element names that the room's menu allows |
| ProjectInput.Trunc | interior-cost-calculator/src/pages/01_ProjectInput.py:122-137 | `int()`: truncation toward zero, for positive and negative values |
| ProjectInput.Prefill | interior-cost-calculator/src/pages/01_ProjectInput.py:118-137 | the form starts from the stored length, width and height, a missing one as 0 |
| ProjectInput.PrefillKeepsRecord | interior-cost-calculator/src/pages/01_ProjectInput.py:118-143 | a complete stored record with a whole shelf count is saved back unchanged when left as it is |
| ProjectInput.BuildRoomData | interior-cost-calculator/src/pages/01_ProjectInput.py:106-144 | the nested loops fill `room_data` room by room and element by element |
| ProjectInput.RoomEntriesShaped | interior-cost-calculator/src/pages/01_ProjectInput.py:108-143 | a Bunk Bed holds exactly the three sections; every other element holds one complete record |
| ProjectInput.RoomEntriesLookup | interior-cost-calculator/src/pages/01_ProjectInput.py:106-143 | a room's dict has exactly the selected elements, each with the form's values |
| ProjectInput.RoomDataShaped | interior-cost-calculator/src/pages/01_ProjectInput.py:77-144 | every room of the form's data has that shape |
| ProjectInput.RoomDataLookup | interior-cost-calculator/src/pages/01_ProjectInput.py:77-144 | `room_data` has exactly the generated rooms, each with its own elements |
| ProjectInput.AreaTotalIsCeiledElementArea | interior-cost-calculator/src/pages/01_ProjectInput.py:158-188 | a record's total is the ceiling of the sum of its five areas: at least the exact element total and less than one more |
| ProjectInput.WorkedElement | interior-cost-calculator/src/pages/01_ProjectInput.py:174-188 | l=4, w=2, h=7, 2 shelves give 28, 28, 16, 28, 16 and a total of 116 |
| ProjectInput.AreaDetailsShape | interior-cost-calculator/src/pages/01_ProjectInput.py:152-188 | `area_details` has the same room, element and section keys as `room_data` |
| ProjectInput.SumTotalsSplit | interior-cost-calculator/src/pages/01_ProjectInput.py:164-180 | the running total over two runs of records is the sum of their totals |
| ProjectInput.FormShapedComputable | interior-cost-calculator/src/pages/01_ProjectInput.py:106-188 | data the form produces can always be computed: no missing key, no sectionless Bunk Bed |
| ProjectInput.RecordArea | interior-cost-calculator/src/pages/01_ProjectInput.py:158-188 | one record's five areas and ceiled total |
| ProjectInput.SectionAreas | interior-cost-calculator/src/pages/01_ProjectInput.py:155-172 | one record per section, and each ceiled section total added to the running sum |
| ProjectInput.RoomAreas | interior-cost-calculator/src/pages/01_ProjectInput.py:153-188 | one room's area entries, and its ceiled totals added to the running sum |
| ProjectInput.ComputeAreas | interior-cost-calculator/src/pages/01_ProjectInput.py:149-188 | `area_details` for the whole document, and `total_area` as the sum of every element's and section's ceiled total in visiting order |
| ProjectInput.SheetsCoverArea | interior-cost-calculator/src/pages/01_ProjectInput.py:200-202 | the sheet count is the least whole number of 32-square-foot sheets covering the ceiled total |
| ProjectInput.WorkedSheets | interior-cost-calculator/src/pages/01_ProjectInput.py:200-202 | 156 square feet need 5 sheets and 116 need 4 |
| ProjectInput.CalculateAndSave | interior-cost-calculator/src/pages/01_ProjectInput.py:147-203 | with a user and a project open, the tables become those of `save_project` applied to the loaded project (or an empty one) with the new rooms, house type, bedrooms, area details and page timestamp; otherwise the tables are unchanged; the total area and the sheet count are reported |
| ProjectInput.CalculateThenLoad | interior-cost-calculator/src/pages/01_ProjectInput.py:190-198 | loading after "Calculate & Save" gives the new house type, bedrooms and rooms (normalised) and the material choices stored before; the area details and the timestamps are not read back |
| ProjectInput.InBoundsTotals | interior-cost-calculator/src/pages/01_ProjectInput.py:115-143 | with every input within its widget's bounds (dimensions at least 0, shelves 0 to 10), the reported total area and sheet count are at least 0 |
| ProjectInput.RoomDataNonNegative | interior-cost-calculator/src/pages/01_ProjectInput.py:107-143 | room data built from inputs within the widgets' bounds has no negative dimension in any element or section |
| ProjectInput.TotalsNonNegative | interior-cost-calculator/src/pages/01_ProjectInput.py:152-188 | room data with no negative dimension gives a total area of at least 0 |
| MaterialSelection.Choose | interior-cost-calculator/src/pages/02_MaterialSelection.py:103-150 | the stored value when it is a candidate, else the first candidate, so always a candidate; no choice (an IndexError) when there are no candidates |
| MaterialSelection.Narrow | interior-cost-calculator/src/pages/02_MaterialSelection.py:111-151 | a successful narrowing picks one value per selector |
| MaterialSelection.NarrowOffers | interior-cost-calculator/src/pages/02_MaterialSelection.py:111-151 | each pick is among the values its selector offered after the earlier picks; the rows left are those matching every pick |
| MaterialSelection.NarrowKeepsOffered | interior-cost-calculator/src/pages/02_MaterialSelection.py:113-150 | stored values that are still offered are all kept |
| MaterialSelection.RemainingMatches | interior-cost-calculator/src/pages/02_MaterialSelection.py:121-151 | the rows left are sheet rows holding every chosen value |
| MaterialSelection.OfferedLeavesRows | interior-cost-calculator/src/pages/02_MaterialSelection.py:121-152 | when every pick was offered, at least one row matches them all |
| MaterialSelection.CascadePicksCandidates | interior-cost-calculator/src/pages/02_MaterialSelection.py:103-157 | each of the five values the cascade picks was offered, and the price is looked up for all five |
| MaterialSelection.CascadeFindsPrice | interior-cost-calculator/src/pages/02_MaterialSelection.py:151-157 | a cascade choice always has a matching row: the rate is that row's "Per sft Price", and "No price found" is never reached |
| MaterialSelection.CascadeKeepsValidChoice | interior-cost-calculator/src/pages/02_MaterialSelection.py:103-165 | reopening the page on a saved board choice shows the same choice |
| MaterialSelection.LaminatePick | interior-cost-calculator/src/pages/02_MaterialSelection.py:175-198 | the laminate entry holds a tier of the table, a thickness of that tier and that thickness's rate, and nothing else |
| MaterialSelection.LaminateFallback | interior-cost-calculator/src/pages/02_MaterialSelection.py:175-198 | an unknown stored tier falls back to Standard, 0.8 mm, 32; every laminate rate is 32, 65 or 116 |
| MaterialSelection.LaminateKeepsChoice | interior-cost-calculator/src/pages/02_MaterialSelection.py:175-198 | reopening the page on a saved laminate choice shows the same choice |
| MaterialSelection.UpdateCategoriesWrites | interior-cost-calculator/src/pages/02_MaterialSelection.py:97-255 | a key's update fails iff a board cascade fails; otherwise each of the three categories holds its new selection and any other entry is kept |
| MaterialSelection.UpdateCategoriesIdempotent | interior-cost-calculator/src/pages/02_MaterialSelection.py:97-255 | updating a key's categories a second time changes nothing |
| MaterialSelection.KeysOf | interior-cost-calculator/src/pages/02_MaterialSelection.py:59-168 | one material key per visited element or section, "room\|element\|section" or "room\|element" |
| MaterialSelection.SelectAllSucceeds | interior-cost-calculator/src/pages/02_MaterialSelection.py:53-262 | the selection pass succeeds iff every visited key's categories can be selected |
| MaterialSelection.SelectAllResult | interior-cost-calculator/src/pages/02_MaterialSelection.py:48-265 | starting from a copy of the stored map, keys not visited keep their stored entries, and each visited key gets its three selected categories |
| MaterialSelection.UpdateKeyOutcome | interior-cost-calculator/src/pages/02_MaterialSelection.py:97-255 | visiting a key once more after others keeps that description of the map |
| MaterialSelection.SelectMaterials | interior-cost-calculator/src/pages/02_MaterialSelection.py:53-262 | the page's nested selection loops compute the selection pass over the keys in visiting order |
| MaterialSelection.LaminateAreaIsExactTotal | interior-cost-calculator/src/pages/02_MaterialSelection.py:288-319 | laminate area is shutter plus carcus, the element's exact total, below the input page's ceiled total by less than one |
| MaterialSelection.MissingRateCostsNothing | interior-cost-calculator/src/pages/02_MaterialSelection.py:283-322 | an element with no stored materials costs 0 in all three columns, and a shutter choice with no rate costs 0 |
| MaterialSelection.RowsOf | interior-cost-calculator/src/pages/02_MaterialSelection.py:276-338 | one breakup row per visited element or section, in order |
| MaterialSelection.CostBreakup | interior-cost-calculator/src/pages/02_MaterialSelection.py:270-338 | the cost loop builds one row per element or section and six totals that are the sums over those rows |
| MaterialSelection.GrandTotalIsSumOfRowCosts | interior-cost-calculator/src/pages/02_MaterialSelection.py:353 | the grand total equals the sum over the rows of each row's three costs |
| MaterialSelection.TotalsNonNegative | interior-cost-calculator/src/pages/02_MaterialSelection.py:270-338 | non-negative rows give non-negative totals |
| MaterialSelection.WorkedRow | interior-cost-calculator/src/pages/02_MaterialSelection.py:311-338 | l=4, w=2, h=7, 2 shelves at rates 50, 40, 30: areas 28, 88, 116 and costs 1400, 3520, 3480 |
| MaterialSelection.MaterialSelectionPage | interior-cost-calculator/src/pages/02_MaterialSelection.py:21-338 | the document is written back with the selected `element_materials` iff every selector succeeds, and the breakup is costed on that map |
| Summary.CostPerSft | interior-cost-calculator/src/pages/03_Summary.py:72-120 | total ÷ area when the area is non-zero, and 0 otherwise: never a division by zero |
| Summary.Front | interior-cost-calculator/src/pages/03_Summary.py:74-125 | non-negative for a non-negative length and height |
| Summary.SummaryRows | interior-cost-calculator/src/pages/03_Summary.py:47-145 | one summary row per visited element or section |
| Summary.MissingAreaCostsNothing | interior-cost-calculator/src/pages/03_Summary.py:53-102 | a missing area record gives zero area, zero cost and zero cost per square foot |
| Summary.SameAreasSameCost | interior-cost-calculator/src/pages/03_Summary.py:38-72 | every row is costed at the same project-wide rates: equal areas give equal cost |
| Summary.LabourIgnoresMaterials | interior-cost-calculator/src/pages/03_Summary.py:74-77 | the labour figures do not depend on areas or materials, and factory : carpenter is 340 : 300 |
| Summary.SummaryCost | interior-cost-calculator/src/pages/03_Summary.py:63-70 | the cost is shutter area × shutter rate + (side + top/bottom + back + shelf) × carcus rate + shutter area × laminate rate |
| Summary.BreakupAgainstAreas | interior-cost-calculator/src/pages/02_MaterialSelection.py:288-293 | the breakup's areas are the input page's areas, and each cost is its area times its key's rate |
| Summary.SummaryTotalAsBreakup | interior-cost-calculator/src/pages/03_Summary.py:67-70 | on the input page's areas and the same rates, the summary cost is the breakup's shutter and carcus costs plus laminate on the shutter only |
| Summary.BreakupLaminateSplit | interior-cost-calculator/src/pages/02_MaterialSelection.py:290-293 | the breakup's laminate cost splits into a shutter part and a carcus part |
| Summary.SummaryOmitsCarcusLaminate | interior-cost-calculator/src/pages/03_Summary.py:69 | the summary's cost falls short of the breakup's by exactly carcus area × laminate rate |
| Summary.SumAppend | interior-cost-calculator/src/pages/03_Summary.py:96-145 | adding a row adds its value to the sum |
| Summary.Summarize | interior-cost-calculator/src/pages/03_Summary.py:43-145 | the nested loops build the rows in visiting order, and `total_area` and `total_cost` are their sums |
| Summary.LabourSumsRatio | interior-cost-calculator/src/pages/03_Summary.py:151-152 | the labour totals keep the 340 : 300 ratio |
| Summary.LabourNonNegative | interior-cost-calculator/src/pages/03_Summary.py:151-152 | with non-negative fronts, 0 ≤ carpenter total ≤ factory total |
| Summary.KpisOrdered | interior-cost-calculator/src/pages/03_Summary.py:151-163 | total cost ≤ total with carpenter ≤ total with factory binding |
| Summary.Labelled | interior-cost-calculator/src/pages/03_Summary.py:188 | a group has no more rows than the table |
| Summary.LabelledMembers | interior-cost-calculator/src/pages/03_Summary.py:188 | a group holds exactly the rows with that Element name |
| Summary.LabelsUnique | interior-cost-calculator/src/pages/03_Summary.py:188 | each Element name forms one group |
| Summary.LabelsMembers | interior-cost-calculator/src/pages/03_Summary.py:188 | an Element name has a group iff some row carries it |
| Summary.Grouped | interior-cost-calculator/src/pages/03_Summary.py:187-199 | one merged row per distinct Element name |
| Summary.GroupedRows | interior-cost-calculator/src/pages/03_Summary.py:187-202 | merged rows have distinct names and cover every row; each one's cost and area are its group's sums, and the final columns are cost + labour |
| Summary.GroupsConserveTotals | interior-cost-calculator/src/pages/03_Summary.py:187-199 | merging moves nothing: the group sums add up to the table's totals |
| Summary.UniformMaterials | interior-cost-calculator/src/pages/03_Summary.py:86-136 | every row shows the same shutter, carcus and laminate labels |
| Db.Filter | interior-cost-calculator/src/utils/db.py:87-97 | a SELECT or DELETE never yields more rows than the table |
| Db.FilterMembers | interior-cost-calculator/src/utils/db.py:87-97 | a row is selected iff it is in the table and matches |
| Db.UserIdIn | interior-cost-calculator/src/utils/db.py:57-64 | an id is found iff a user row has that name, and it is that row's id |
| Db.ProjectIndex | interior-cost-calculator/src/utils/db.py:84-166 | finds the first row with this user and name, or reports that none exists |
| Db.UpsertedRow | interior-cost-calculator/src/utils/db.py:77-85 | after the upsert exactly one row position is written: a new project gets now as creation and modification time; an existing one keeps id and creation time and takes the new time, house type and bedrooms |
| Db.LoadKey | interior-cost-calculator/src/utils/db.py:221-227 | the key rebuilt on load is "room\|" + the element key |
| Db.NoRoomsNoElements | interior-cost-calculator/src/utils/db.py:183-241 | a project with no rooms loads no elements |
| Db.NoElementsNoMaterials | interior-cost-calculator/src/utils/db.py:214-241 | a project with no elements loads no materials |
| Db.AreaIndex | interior-cost-calculator/src/utils/db.py:263-283 | finds the first area row for this element and section, or reports that none exists |
| Db.Database.UpsertProject | interior-cost-calculator/src/utils/db.py:77-81 | the tables become the project upsert of the old tables |
| Db.Database.ClearProject | interior-cost-calculator/src/utils/db.py:86-97 | the project's rooms are deleted, together with their elements and those elements' materials and area rows |
| Db.Database.InsertRoom | interior-cost-calculator/src/utils/db.py:100-101 | appends one room row under the next id and returns that id |
| Db.Database.InsertElement | interior-cost-calculator/src/utils/db.py:106-132 | appends one element row under the next id, missing dimensions as 0 |
| Db.Database.InsertMaterials | interior-cost-calculator/src/utils/db.py:112-148 | appends a row for each non-empty shutter, carcus and laminate choice, missing fields as "" or 0 |
| Db.CategoryRows | interior-cost-calculator/src/utils/db.py:112-126 | at most one material row per category |
| Db.Database.InsertSections | interior-cost-calculator/src/utils/db.py:104-126 | the section loop appends one element row and its material rows per Bunk Bed section |
| Db.Database.InsertElements | interior-cost-calculator/src/utils/db.py:102-148 | the element loop appends the rows of each element, a Bunk Bed section by section |
| Db.Database.InsertDocument | interior-cost-calculator/src/utils/db.py:99-148 | the nested loops append the rows of every room, element, section and non-empty choice |
| Db.Database.SaveProject | interior-cost-calculator/src/utils/db.py:66-156 | false and no change for an unknown user; otherwise upsert, delete the old rows, insert the document's rows, true |
| Db.Database.PlaceElementRow | interior-cost-calculator/src/utils/db.py:188-212 | a "Bunk Bed - " row goes back under the room's Bunk Bed as a section; any other row goes back as an element; gives the element key |
| Db.Database.PlaceElementRows | interior-cost-calculator/src/utils/db.py:182-212 | the element loop rebuilds the rooms and `element_id_map` |
| Db.Database.PlaceMaterialRows | interior-cost-calculator/src/utils/db.py:219-237 | the material loop rebuilds `element_materials` |
| Db.Database.LoadProject | interior-cost-calculator/src/utils/db.py:158-249 | None for an unknown user or project; otherwise the rooms, element materials, house type and bedroom count rebuilt from the rows |
| Db.Database.ListProjects | interior-cost-calculator/src/utils/db.py:251-261 | the user's projects in table order; none for an unknown user |
| Db.Database.SaveAreaDetails | interior-cost-calculator/src/utils/db.py:263-283 | the tables become the area upsert of the old ones |
| DbInvariants.CategoryRowsOwn | interior-cost-calculator/src/utils/db.py:112-126 | every material row inserted for an element refers to that element |
| DbInvariants.MaterialRowsBounds | interior-cost-calculator/src/utils/db.py:112-148 | material rows refer to the elements just inserted, with at most three rows per element |
| DbInvariants.ElementRowsBounds | interior-cost-calculator/src/utils/db.py:102-132 | element rows get fresh consecutive ids and refer to the rooms just inserted |
| DbInvariants.RoomRowsBounds | interior-cost-calculator/src/utils/db.py:99-101 | room rows belong to the project and get fresh consecutive ids |
| DbInvariants.UpsertKeepsValid | interior-cost-calculator/src/utils/db.py:77-81 | the project upsert keeps the schema invariant: ids below their counters, unique usernames and (user, project name) pairs, references only to ids already handed out |
| DbInvariants.ClearKeepsValid | interior-cost-calculator/src/utils/db.py:86-97 | the deletes keep the schema invariant, with no reference left to a deleted row |
| DbInvariants.InsertKeepsValid | interior-cost-calculator/src/utils/db.py:99-148 | the inserts keep the schema invariant: new rows get fresh ids and refer only to ids already handed out |
| DbRoundTrip.ClearedRefersBack | interior-cost-calculator/src/utils/db.py:86-97 | after the deletes no room of the project is left, and every element and material row still refers to an id below the counters |
| DbInvariants.SavedValid | interior-cost-calculator/src/utils/db.py:66-156 | a save keeps the tables valid and never touches the users |
| DbInvariants.SaveReplaces | interior-cost-calculator/src/utils/db.py:86-100 | saving one document and then a second under the same name loads exactly what a single save of the second loads: nothing of the first survives |
| DbInvariants.ListingOfHas | interior-cost-calculator/src/utils/db.py:257 | every project row of the user is listed |
| DbInvariants.SaveThenList | interior-cost-calculator/src/utils/db.py:66-261 | after a save the project is listed under its name with the save time, and the listing grows by one exactly for a new project |
| DbInvariants.AreaUpsert | interior-cost-calculator/src/utils/db.py:263-283 | the (element, section) row now holds the given areas (missing ones as 0), a row is added only when there was none, and no other row changes |
| DbInvariants.AreaIndexFirst | interior-cost-calculator/src/utils/db.py:263-283 | the lookup finds the first matching row |
| DbInvariants.AreaLastWriteWins | interior-cost-calculator/src/utils/db.py:263-283 | saving a section's areas twice keeps only the second write |
| DbInvariants.UnknownUserRefused | interior-cost-calculator/src/utils/db.py:70-254 | an unknown user (or id 0) gets false and no change from save, None from load and an empty listing |
| DbRoundTrip.SectionLabel | interior-cost-calculator/src/utils/db.py:104-108 | a section is stored under "Bunk Bed - " followed by its name |
| DbRoundTrip.SectionNameBack | interior-cost-calculator/src/utils/db.py:192-194 | that name is recognised on load and gives the section name back |
| DbRoundTrip.LoadKeyOfUnit | interior-cost-calculator/src/utils/db.py:111-227 | the key rebuilt on load is the key the element or section was saved under |
| DbRoundTrip.FlattenKeysRead | interior-cost-calculator/src/utils/db.py:111-227 | every key of a restorable document reads back as itself |
| DbRoundTrip.NormEMKeys | interior-cost-calculator/src/utils/db.py:219-237 | a loaded material key is always the key of a saved element or section |
| DbRoundTrip.InsertedLoads | interior-cost-calculator/src/utils/db.py:99-241 | reading back the inserted rows gives the document's rooms and non-empty choices, normalised |
| DbRoundTrip.SaveThenLoad | interior-cost-calculator/src/utils/db.py:66-249 | save then load gives back the house type, the bedroom count, the rooms (missing dimensions as 0, an empty Bunk Bed dropped) and the non-empty choices with all six fields; area details and the other document fields do not come back |
| Migrate.UserInsertedFacts | interior-cost-calculator/src/migrate.py:11-15 | INSERT IGNORE keeps every existing user row and leaves the user present |
| Migrate.UsersMigratedKeeps | interior-cost-calculator/src/migrate.py:6-21 | existing users keep their rows and stored hashes, and nothing but the users table changes |
| Migrate.UsersMigratedHas | interior-cost-calculator/src/migrate.py:6-21 | every user in the file is present afterwards |
| Migrate.UsersMigratedValid | interior-cost-calculator/src/migrate.py:6-21 | the user migration keeps the tables valid |
| Migrate.UnknownUserNotMigrated | interior-cost-calculator/src/migrate.py:35-38 | an unknown user's project leaves the tables unchanged |
| Migrate.MigrateUpsertRow | interior-cost-calculator/src/migrate.py:42-48 | on a duplicate only the modification time changes; a new project has now for both times and no house type or bedroom count |
| Migrate.ProjectMigratedValid | interior-cost-calculator/src/migrate.py:32-86 | the project migration keeps the tables valid |
| Migrate.MaterialRowsTyped | interior-cost-calculator/src/migrate.py:66-81 | migrated material rows carry no type, while saved ones do |
| Migrate.MigrateAppends | interior-cost-calculator/src/migrate.py:50-82 | the migration only appends rooms, elements and materials, and every new material row lacks a type |
| Migrate.MigratedShape | interior-cost-calculator/src/migrate.py:42-52 | the migration upserts the project and appends one room row per room of the document |
| Migrate.MigrateTwiceOneRow | interior-cost-calculator/src/migrate.py:42-45 | migrating a project twice keeps one project row |
| Migrate.MigrateTwiceDuplicates | interior-cost-calculator/src/migrate.py:50-52 | migrating a project twice appends its rooms twice under the same project id |
| Migrate.DirsMigratedValid | interior-cost-calculator/src/migrate.py:88-100 | migrating every directory keeps the tables valid |
| Migrate.MigrateUsers | interior-cost-calculator/src/migrate.py:6-21 | the loop inserts each user of the file, skipping present names |
| Migrate.MigrateProject | interior-cost-calculator/src/migrate.py:32-86 | the database becomes the project migration of the old state |
| Migrate.MigrateAll | interior-cost-calculator/src/migrate.py:88-100 | users first, then every ".json" file of every directory under its file name without ".json" |
| Document.ProjectNameOfFile | interior-cost-calculator/src/migrate.py:97-98 | the project name of "name.json" is name, for any name in which ".json" does not occur |
| Strings.SplitOnce | interior-cost-calculator/src/utils/db.py:224 | `split("\|", 1)`: the two parts joined by the separator give the string back, and the first part holds no separator |
| Strings.NatToStringInjective | interior-cost-calculator/src/pages/01_ProjectInput.py:67 | distinct numbers print as distinct decimal strings |
| App.Authenticate | interior-cost-calculator/src/main.py:37-41 | (true, name) iff the user exists and the stored password equals the one given; otherwise (false, None) |
| App.RegisterEffect | interior-cost-calculator/src/main.py:43-49 | fails with "Username already exists." and leaves the file as it was iff the name is taken; otherwise appends exactly that user with the given password |
| App.RegisterThenAuthenticate | interior-cost-calculator/src/main.py:37-49 | after a successful registration the same credentials log in |
| App.RegisterKeepsLogins | interior-cost-calculator/src/main.py:37-49 | a registration changes no other user's login |
| App.UserStore.constructor | interior-cost-calculator/src/main.py:19-23 | the store holds the users file as read |
| App.UserStore.RegisterUser | interior-cost-calculator/src/main.py:43-49 | the stored file, the flag and the message are those of the registration rule |
| App.UserStore.AuthenticateUser | interior-cost-calculator/src/main.py:37-41 | answers by the login rule and changes nothing |
| App.RowOf | interior-cost-calculator/src/main.py:71-76 | the creation time falls back to now, the modification time to the creation time, and the name to the file name without ".json" |
| App.RowsFromFiles | interior-cost-calculator/src/main.py:64-77 | one row per ".json" file, each built with those defaults, and no other row |
| App.Route | interior-cost-calculator/src/main.py:96-103 | the summary page iff "materials" and "area_details" are both present and non-empty |
| App.UnicodeSpacesAreBlank | interior-cost-calculator/src/main.py:118-119 | a name made only of Unicode spaces (no-break, ideographic, thin) is refused as blank, as `str.strip()` removes them |
| App.CreateEffect | interior-cost-calculator/src/main.py:117-136 | creation succeeds iff the name is not blank and has no file; it then adds exactly that file with equal creation and modification times; a refusal changes nothing |
| App.CreateThenList | interior-cost-calculator/src/main.py:64-136 | a project just created is listed under its name with now as both times |
| App.CreateThenOpen | interior-cost-calculator/src/main.py:89-136 | a project just created opens on the input page |
| App.DeleteEffect | interior-cost-calculator/src/main.py:105-106 | deletion removes exactly the selected project's file |
| App.ProjectDir.constructor | interior-cost-calculator/src/main.py:60-62 | the directory holds the files as listed |
| App.ProjectDir.ListRows | interior-cost-calculator/src/main.py:64-77 | the listing loop produces exactly the rows of the ".json" files in listing order |
| App.ProjectDir.CreateProject | interior-cost-calculator/src/main.py:117-136 | the directory and the result are those of the creation rule |
| App.ProjectDir.DeleteProject | interior-cost-calculator/src/main.py:105-106 | the directory and the result are those of the deletion rule |

## Left out

- Streamlit rendering is not modelled: widgets, expanders, toggles, metrics, session-state
  flags, page switches and the login screen's layout. The model keeps the computation those
  screens run.
- Widget-key state that overrides a selector's index is not modelled, because it is framework
  behaviour. Selectors are modelled at their initial index.
- The user's own inputs are parameters: typed dimensions, clicked selectors, the chosen house
  type and bedroom count.
- The MySQL connection, the secrets and the SQL text are not modelled; the tables are in-memory
  sequences. The `conn.rollback()` path of `save_project` on a database error is not modelled,
  because in-memory tables cannot fail.
- The database's own `create_user` and `authenticate_user` in utils/db.py are not modelled, and
  neither is SHA-256. Both are foreign library calls. The migration takes the hash as a
  function parameter.
- File and JSON I/O (os.path, open, json.load/dump, os.listdir, os.remove) is not modelled. A
  user's directory is an ordered dict from file name to document, and the users file is a
  dict from name to password.
- pandas `read_excel` and the DataFrame display are not modelled; a sheet is a sequence of rows.
  The grouped view orders its groups by first appearance; pandas `groupby` sorts the names, so
  only the order of the merged rows differs.
- Summary.Grouped: on a table with no rows the model returns no merged rows. In the source
  `pd.DataFrame([])` has no "Element" column, so the grouped view's `groupby` raises a KeyError.
- Summary.Grouped: the averaged "Cost per sft" column and the "first" material columns of the
  merged rows are computed, but no lemma states them.
- Floating point and `round(x, 2)` are not modelled: arithmetic is exact over `real`.
- Timestamps come from the clock in the source; here they are a `now` parameter.
- components/ui_elements.py is not part of this model: it only wraps widgets, and its sheet
  helper repeats `calculate_sheets_needed`. test.py is not part of this model either: it is a
  separate Dash table editor with CSV and Excel I/O.
- MaterialSelection.CostBreakup, Summary.Summarize, Db.Database.SaveProject and
  Migrate.MigrateProject require every "Bunk Bed" to hold sections. In the source a Bunk Bed
  stored as a single record makes these loops raise when they read a field value as a section
  dict. The input page never writes one (ProjectInput.FormShapedComputable).
- MaterialSelection.SelectMaterials requires the same. The source's selection loop does not
  raise on a Bunk Bed stored as a single record: it offers selectors for the field names as if
  they were sections, and page 02 writes those choices to the file before its cost loop raises.
  The model does not describe that file.
- ProjectInput.CalculateAndSave: the session's user and project are strings, and a missing one
  is the empty string; the source's `None` and `""` both mean "no save" (line 191).
- ProjectInput.CalculateAndSave: the area details and the page's `last_modified` are handed to
  `save_project` but not stored; the tables keep the clock of `save_project` instead
  (ProjectInput.CalculateThenLoad).
- Db.Database.InsertMaterials: a material whose "type" is null, as migrated rows are loaded, is
  saved again as "" rather than NULL, because a choice's type does not separate a missing key
  from a null value; the selectors treat both alike.
- ProjectInput.ComputeAreas requires every record to hold all four dimensions. The source
  raises a KeyError otherwise, and the form's data always satisfies this.
- MaterialSelection.Choose reports an empty candidate list as no choice. The source raises an
  IndexError there, so the whole page yields `None`.
- DbRoundTrip.SaveThenLoad is stated only for documents whose room, element and section names
  are distinct and read back unambiguously: no section name contains "Bunk Bed - " and no other
  element name starts with it. For other names the load merges rows, and the model does not
  describe the result.
- DbRoundTrip.SaveThenLoad requires every Bunk Bed to hold sections, because the source's save
  raises on one stored as a single record (utils/db.py:104-110). DbInvariants.SaveReplaces
  requires this of both documents.
- App.ProjectDir.DeleteProject: removing a file that does not exist raises in the source; the
  model answers `false` and changes nothing.
- App.Open: opening a missing file raises in the source; the model answers `None`.
