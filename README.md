# Pivot table engine — a Dafny model

This project models the pivot-table engine of a small spreadsheet application. The engine is `generatePivotData`. It reads a table of source rows (columns Category, Subcategory, Region, Sales) and a configuration naming two grouping columns and one measure column. It returns report rows and three column descriptors:

- one detail row `[primary, secondary, sum]` for every key pair whose sum is positive;
- a `"<primary> Subtotal"` row after each primary group;
- a final `"Grand Total"` row.

The engine works in three stages:

1. Resolve the configured column names to row indices through a fixed column map.
2. Fold the rows into a map of maps of sums, recording the distinct keys in two sets.
3. Sort both key sets and walk them to emit the report.

The application holds `generatePivotData` twice: `src/utils/pivotHelpers.ts:28-94`, and a private copy in `src/components/PivotTableWorksheet.tsx:53-128`. The two copies are textually identical apart from the column map's name, so one method, `PivotHelpers.GeneratePivotData`, models both. The component also has an empty-source guard, modelled as `PivotTableWorksheet.PivotData`. The guard decides whether the "no data" message is shown.

Modules:

- `Wrappers`: `Option`.
- `Cells`: spreadsheet cells (text or number).
  - `Key` is JavaScript `String(cell)`.
  - `Measure` is `Number(cell) || 0`. Text is trimmed of JavaScript white space; the empty string reads as 0; an optionally signed run of decimal digits reads as that integer; anything else is NaN and reads as 0.
- `Lexical`: the string order used by `Array.prototype.sort()`.
  - `SortedSeq` is the specification of sorting a key set.
  - `SortKeys` is the method that sorts a set by repeated selection of the least key.
- `PivotHelpers`: the column map, the engine as imperative methods, and the ghost specification functions they are proved against. The methods are:
  - `AggregateRows` (the aggregation `forEach`), with `AccumulateRow` as its callback;
  - `BuildReport` (the outer `forEach`), with `EmitDetails` as the inner one;
  - `GeneratePivotData`, which runs the stages in order.
- `PivotProperties`: lemmas about the specification that state what the report means:
  - bucket sums are filtered sums;
  - the emission rule, both ways;
  - conservation of totals;
  - order;
  - length;
  - independence from row order;
  - a worked example.
- `PivotTableWorksheet`: the `useMemo` guard of the component.

The accumulator `Map<string, Map<string, number>>` is a `map<string, map<string, int>>`. The two `Set<string>` values are `set<string>`. `outputData` is a `seq` that the methods extend, matching each `push`. Source rows are immutable sequences, so the engine provably never modifies them.

## Model

| member | source | states |
|---|---|---|
| PivotHelpers.ColumnIndex | src/utils/pivotHelpers.ts:6-11 | a known column name resolves to an index below 4, and no other known name resolves to the same index |
| PivotHelpers.Resolve | src/utils/pivotHelpers.ts:32-34 | the three configured names give in-range indices; the two grouping indices coincide exactly when the two grouping names do |
| Cells.NatToDecimal | src/utils/pivotHelpers.ts:43-44 | `String(n)` of a natural number is a non-empty digit string without a leading zero |
| Cells.NatDecimalRoundTrip | src/utils/pivotHelpers.ts:43-44 | reading the decimal text of a natural number back in base 10 gives the number |
| Cells.KeyMeasureRoundTrip | src/utils/pivotHelpers.ts:43-45 | `Number(String(n)) == n` for every integer cell; a number rendered as a key and read back as a measure keeps its value |
| Cells.NumericKeysInjective | src/utils/pivotHelpers.ts:43-44 | two numeric cells share a grouping key exactly when they hold the same number |
| Cells.TrimStart | src/utils/pivotHelpers.ts:45 | `Number` ignores leading white space: what is left does not start with white space |
| Cells.TrimStartRemovesSpace | src/utils/pivotHelpers.ts:45 | what is left after trimming the start is a suffix of the text, and everything before it is white space |
| Cells.TrimEnd | src/utils/pivotHelpers.ts:45 | `Number` ignores trailing white space: what is left does not end with white space |
| Cells.TrimEndRemovesSpace | src/utils/pivotHelpers.ts:45 | what is left after trimming the end is a prefix of the text, and everything after it is white space |
| Cells.NoSpaceAtEnds | src/utils/pivotHelpers.ts:45 | text that neither starts nor ends with white space is unchanged by trimming |
| Cells.NatKeyParses | src/utils/pivotHelpers.ts:43-45 | `Number(String(n)) == n` for a natural number |
| Cells.NegativeKeyParses | src/utils/pivotHelpers.ts:43-45 | `Number(String(-n)) == -n` for a positive number |
| PivotHelpers.AccumulateRow | src/utils/pivotHelpers.ts:43-56 | one callback of the aggregation: both key sets gain the row's keys, and the row's measure is added to its bucket, which is created at 0 when missing |
| PivotHelpers.AggregateRows | src/utils/pivotHelpers.ts:37-57 | after the pass, the map and the two sets equal the fold of all rows in order (`Aggregate`, `PrimaryKeys`, `SecondaryKeys`) |
| PivotHelpers.AggregateStep | src/utils/pivotHelpers.ts:42-57 | scanning one more row adds its keys to the sets and its measure to its bucket |
| PivotHelpers.AggregateKeysArePrimaryKeys | src/utils/pivotHelpers.ts:47-52 | the outer keys of the map are exactly the recorded primary keys |
| PivotProperties.BucketIsFilteredSum | src/utils/pivotHelpers.ts:42-57 | the value read for `(p, s)` (`get` or 0) is the sum of the measures of exactly the rows whose keys are `p` and `s` |
| PivotProperties.BucketExistsIffSeen | src/utils/pivotHelpers.ts:50-56 | a bucket `(p, s)` exists if and only if some row has primary key `p` and secondary key `s` |
| PivotProperties.UnseenPairReadsZero | src/utils/pivotHelpers.ts:55 | a pair of keys that never occurs together has no bucket and reads as 0 |
| PivotProperties.NonNumericMeasureStillGroups | src/utils/pivotHelpers.ts:45-56 | a row whose measure text is not a number still registers both keys and creates its bucket, and leaves every bucket value unchanged |
| Lexical.LessIrreflexive | src/utils/pivotHelpers.ts:60-61 | no string sorts before itself |
| Lexical.LessTransitive | src/utils/pivotHelpers.ts:60-61 | the sort order is transitive |
| Lexical.LessTotal | src/utils/pivotHelpers.ts:60-61 | any two different strings are ordered one way or the other |
| Lexical.LeastExists | src/utils/pivotHelpers.ts:60-61 | every non-empty key set has a least element |
| Lexical.SortedSeqFacts | src/utils/pivotHelpers.ts:60-61 | the sorted keys have the set's size, hold exactly the set's members, and strictly ascend |
| Lexical.SortedSeqUnique | src/utils/pivotHelpers.ts:60-61 | a strictly ascending sequence holding exactly a set's members is the sorted form of that set |
| Lexical.LeastOf | src/utils/pivotHelpers.ts:60-61 | returns a member of a non-empty key set that sorts before every other member |
| Lexical.SortKeys | src/utils/pivotHelpers.ts:60-61 | `Array.from(set).sort()` returns the set's members in ascending order, each exactly once |
| PivotHelpers.EmitDetails | src/utils/pivotHelpers.ts:74-83 | the inner loop appends the detail rows of one primary key, in secondary-key order, and returns their sum as the subtotal |
| PivotHelpers.BuildReport | src/utils/pivotHelpers.ts:64-91 | the outer loop emits every group with its subtotal row, in primary-key order, then the grand-total row carrying the sum of the subtotals |
| PivotHelpers.GeneratePivotData | src/utils/pivotHelpers.ts:28-94 | the result is the specified report; its columns are titled `groupBy1`, `groupBy2`, `"Total " + aggregateColumn`; its last row is the grand total. The private copy at `src/components/PivotTableWorksheet.tsx:53-128`, with its column map at lines 59-68, has the same body and is modelled by this method |
| PivotProperties.DetailRowIff | src/utils/pivotHelpers.ts:77-83 | a detail row `[p, s, v]` is emitted if and only if `s` is a secondary key and the bucket `(p, s)` reads `v > 0` |
| PivotProperties.DetailRowsOrdered | src/utils/pivotHelpers.ts:77-83 | within a group, the detail rows strictly ascend by secondary key |
| PivotProperties.SortedIsDistinct | src/utils/pivotHelpers.ts:60-61 | sorted keys hold no key twice |
| PivotProperties.SubtotalSign | src/utils/pivotHelpers.ts:75-86 | a subtotal is never negative, and it is 0 exactly when its group has no detail rows |
| PivotProperties.DetailRowsCount | src/utils/pivotHelpers.ts:77-83 | a group has one detail row per secondary key with a positive bucket |
| PivotProperties.PairImageSize | src/utils/pivotHelpers.ts:77-83 | pairing one primary key with a set of secondary keys keeps the count |
| PivotProperties.PositivePairsStep | src/utils/pivotHelpers.ts:73-83 | a new primary key adds exactly its own positive pairs, none of them counted before |
| PivotProperties.PositivePairsCountStep | src/utils/pivotHelpers.ts:73-83 | one more distinct primary key adds as many positive pairs as it has secondary keys with a positive bucket |
| PivotProperties.AllGroupsCount | src/utils/pivotHelpers.ts:73-88 | the groups take one row per positive bucket plus one subtotal row per primary key |
| PivotProperties.ReportLength | src/utils/pivotHelpers.ts:73-91 | the report has one row per positive bucket, one per primary key, and one grand-total row |
| PivotProperties.PivotReportLength | src/utils/pivotHelpers.ts:73-91 | for every table, the report length is the number of positive buckets plus the number of distinct primary keys plus 1 |
| PivotProperties.InnerKeysAreSecondaryKeys | src/utils/pivotHelpers.ts:48-56 | every inner key of the map is a recorded secondary key |
| PivotProperties.TotalConcat | src/utils/pivotHelpers.ts:81 | the sum of a concatenation of output rows is the sum of the sums |
| PivotProperties.GrandTotalIsSumOfSubtotals | src/utils/pivotHelpers.ts:71-91 | the grand total equals the sum of the subtotal values, and is never negative |
| PivotProperties.GrandTotalIsSumOfDetails | src/utils/pivotHelpers.ts:71-91 | the grand total equals the sum of all detail values |
| PivotProperties.GroupRowsTotal | src/utils/pivotHelpers.ts:73-88 | every detail value is counted once in its row and once in its subtotal, so the group rows sum to twice the grand total |
| PivotProperties.FilteredSumNonnegative | src/utils/pivotHelpers.ts:45-56 | with no negative measure, no bucket is negative |
| PivotProperties.SubtotalIsBucketSum | src/utils/pivotHelpers.ts:75-86 | with no negative measure, a subtotal is the sum of all of that primary key's buckets |
| PivotProperties.GrandTotalIsAllBuckets | src/utils/pivotHelpers.ts:71-91 | with no negative measure, the grand total is the sum of all buckets |
| PivotProperties.BucketsOfStep | src/utils/pivotHelpers.ts:42-57 | one more row adds its measure to the bucket sum of its primary key |
| PivotProperties.AllBucketsStep | src/utils/pivotHelpers.ts:42-57 | one more row adds its measure to the sum of all buckets |
| PivotProperties.EmptyTableBuckets | src/utils/pivotHelpers.ts:37-57 | an empty table has an all-zero bucket sum |
| PivotProperties.AllBucketsIsTableTotal | src/utils/pivotHelpers.ts:42-57 | summing every bucket over key lists covering all keys gives the sum of all measures |
| PivotProperties.GrandTotalOfNonnegativeTable | src/utils/pivotHelpers.ts:91 | with no negative measure, the last row is `["Grand Total", "", sum of all measures]` |
| PivotProperties.EmptyTableReport | src/utils/pivotHelpers.ts:71-91 | an empty table gives the single row `["Grand Total", "", 0]` |
| PivotProperties.AllDetailsPrimaryKeys | src/utils/pivotHelpers.ts:73-83 | every detail row names one of the walked primary keys |
| PivotProperties.AllDetailsOrdered | src/utils/pivotHelpers.ts:73-88 | across the report, detail rows ascend by primary key, then by secondary key |
| PivotProperties.PivotReportOrder | src/utils/pivotHelpers.ts:60-91 | the report is the groups of the strictly ascending primary keys, each once and followed by its subtotal, then the grand total; the details ascend by key pair |
| PivotProperties.FilteredSumConcat | src/utils/pivotHelpers.ts:42-57 | a bucket sum over two tables put end to end is the sum of the two bucket sums |
| PivotProperties.FilteredSumSingle | src/utils/pivotHelpers.ts:43-56 | a one-row table puts that row's measure in its own bucket only |
| PivotProperties.FilteredSumWithout | src/utils/pivotHelpers.ts:42-57 | removing one row takes exactly its contribution out of every bucket sum |
| PivotProperties.MultisetWithout | src/utils/pivotHelpers.ts:42 | removing the same row from two tables with the same rows leaves tables with the same rows |
| PivotProperties.FilteredSumPermutation | src/utils/pivotHelpers.ts:42-57 | bucket sums do not depend on the order of the rows |
| PivotProperties.KeysOfElements | src/utils/pivotHelpers.ts:47-48 | the key sets are the keys of the rows the table holds, whatever their order |
| PivotProperties.SameElements | src/utils/pivotHelpers.ts:42 | two tables with the same rows and repetitions hold the same rows |
| PivotProperties.InnerPermutation | src/utils/pivotHelpers.ts:50-56 | tables with the same rows have the same inner map under every primary key |
| PivotProperties.AggregatePermutation | src/utils/pivotHelpers.ts:37-57 | tables with the same rows, in any order, give the same map and the same key sets |
| PivotProperties.RowOrderIrrelevant | src/utils/pivotHelpers.ts:28-94 | reordering the source rows does not change the result |
| PivotProperties.ExampleRowKeys | src/utils/pivotHelpers.ts:32-45 | in the example, the configuration resolves to columns 0, 1 and 3, and each row's keys and measure are as written |
| PivotProperties.ExampleFirstRows | src/utils/pivotHelpers.ts:42-57 | in the example, the first two rows fold into one bucket of 150 |
| PivotProperties.ExampleAggregate | src/utils/pivotHelpers.ts:42-57 | in the example, the map holds Electronics/Phones 150 and Clothing/Shirts 30 |
| PivotProperties.ExampleKeysSorted | src/utils/pivotHelpers.ts:60-61 | in the example, the keys sort as Clothing, Electronics and Phones, Shirts |
| PivotProperties.ExampleDetails | src/utils/pivotHelpers.ts:77-83 | in the example, Clothing has the one detail row Shirts 30 and Electronics the one detail row Phones 150 |
| PivotProperties.ExampleReport | src/utils/pivotHelpers.ts:71-91 | given those detail rows, the walk over the sorted keys produces the documented five rows |
| PivotProperties.WorkedExample | src/utils/pivotHelpers.ts:28-94 | rows Electronics/Phones/West/100, Electronics/Phones/East/50 and Clothing/Shirts/West/30, grouped by Category and Subcategory and summing Sales, give Clothing/Shirts 30, its subtotal 30, Electronics/Phones 150, its subtotal 150, and a grand total of 180 |
| PivotTableWorksheet.PivotData | src/components/PivotTableWorksheet.tsx:16-23 | an absent or empty source gives empty data and columns without running the engine, otherwise the result is the engine's; the "no data" message shows if and only if the source is absent or empty, because the engine always emits the grand-total row |

## Left out

- Unknown configuration names and short rows: the source does not reject them. An unmapped name gives index `undefined`, so keys become `"undefined"` and measures 0. The model instead requires `ValidConfig` (all three names in the column map) and `WellFormedTable` (every row has at least four cells), and leaves those inputs unmodelled. A design description of the system says an unknown name raises a configuration error, but the code raises nothing; the model follows the code and invents no error path.
- Floating point: cells and measures are integers, and sums are exact integer sums. JavaScript number addition rounds, and `String` of a number at or above 1e21 uses exponent form; the model renders every integer in plain decimal.
- Cells.ParseNumber: accepts only an optionally signed run of decimal digits after trimming. `Number` also accepts decimals, exponents, `0x`/`0o`/`0b` literals and `Infinity`; the model reads those as 0.
- Lexical.Less: compares Unicode code points. `Array.prototype.sort()` compares UTF-16 code units, which orders differently only for characters above U+FFFF.
- Lexical.SortKeys: a selection sort standing in for the engine's built-in sort. Only its result (the sorted sequence) is modelled, not the algorithm or its cost.
- In-place mutation of the inner `Map`: `AccumulateRow` reassigns the outer map with an updated inner map. No other reference to the inner map exists, so no aliasing is lost.
- `src/components/PivotTableWorksheet.tsx:23-47`: the React rendering, the spreadsheet widget and its props, and `useMemo`/`useRef` memoisation are user interface. Only the choice between the "no data" view and the table is modelled (`PivotTableWorksheet.ShowsNoData`).
- The column widths are carried as the constant `"150px"` and have no computational role.
- `src/App.tsx`, `src/components/DataWorksheet.tsx`, `src/components/PivotControls.tsx`, `src/components/ui/select.tsx` and `src/config/jspreadsheet.config.ts` are wiring and presentation, and are not part of this model.
