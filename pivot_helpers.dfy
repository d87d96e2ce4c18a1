/**
 The pivot engine `generatePivotData`: resolve the configured column names to
 positions, sum the measure per (primary key, secondary key) bucket in one pass
 over the table, and emit detail, subtotal and grand-total rows in sorted key order.
 */
module PivotHelpers {
  import opened Cells
  import opened Lexical

  type Row = seq<Cell>

  /** The source grid; a value, so the engine cannot change it. */
  type Table = seq<Row>

  /** Which logical columns group the report and which one is summed. */
  datatype PivotConfig = PivotConfig(groupBy1: string, groupBy2: string, aggregateColumn: string)

  /** Positions of the primary group, secondary group and measure columns. */
  datatype Indices = Indices(group1: nat, group2: nat, agg: nat) {
    predicate InRange() {
      group1 < ColumnCount && group2 < ColumnCount && agg < ColumnCount
    }
  }

  /** One output row `[group1, group2, value]`, used for detail, subtotal and grand-total rows alike. */
  datatype OutRow = OutRow(group1: string, group2: string, value: int)

  /** A column descriptor `{ title, width }`. */
  datatype Column = Column(title: string, width: string)

  datatype PivotDataResult = PivotDataResult(data: seq<OutRow>, columns: seq<Column>)

  /** Running sums: primary key -> secondary key -> sum of measures. */
  type Accumulator = map<string, map<string, int>>

  /** The fixed layout of the source table. */
  const ColumnMap: map<string, nat> := map["Category" := 0, "Subcategory" := 1, "Region" := 2, "Sales" := 3]

  const ColumnCount: nat := 4

  /** Each configured name is a column the layout knows. */
  predicate ValidConfig(config: PivotConfig) {
    config.groupBy1 in ColumnMap && config.groupBy2 in ColumnMap && config.aggregateColumn in ColumnMap
  }

  /** Every row has a cell for every column of the layout. */
  predicate WellFormedTable(rows: Table) {
    forall i :: 0 <= i < |rows| ==> |rows[i]| >= ColumnCount
  }

  /** `COLUMN_MAP[name]`: the position of a known column; no two names share one. */
  function ColumnIndex(name: string): (i: nat)
    requires name in ColumnMap
    ensures i < ColumnCount
    ensures forall other :: other in ColumnMap && ColumnMap[other] == i ==> other == name
  {
    ColumnMap[name]
  }

  /** The three lookups that open `generatePivotData`. */
  function Resolve(config: PivotConfig): (ix: Indices)
    requires ValidConfig(config)
    ensures ix.InRange()
    ensures ix.group1 == ix.group2 <==> config.groupBy1 == config.groupBy2
  {
    Indices(ColumnIndex(config.groupBy1), ColumnIndex(config.groupBy2), ColumnIndex(config.aggregateColumn))
  }

  // ---------------------------------------------------------------- aggregation

  /** `pivotMap.get(p)?.get(s) || 0`: a bucket that was never created reads as 0. */
  function Lookup(acc: Accumulator, p: string, s: string): int {
    if p in acc && s in acc[p] then acc[p][s] else 0
  }

  /** The effect of one row on the accumulator: create the buckets if needed, then add `v`. */
  function AddToBucket(acc: Accumulator, p: string, s: string, v: int): Accumulator {
    var inner := if p in acc then acc[p] else map[];
    var current := if s in inner then inner[s] else 0;
    acc[p := inner[s := current + v]]
  }

  function PrimaryKey(row: Row, ix: Indices): string
    requires ix.InRange() && |row| >= ColumnCount
  {
    Key(row[ix.group1])
  }

  function SecondaryKey(row: Row, ix: Indices): string
    requires ix.InRange() && |row| >= ColumnCount
  {
    Key(row[ix.group2])
  }

  function RowMeasure(row: Row, ix: Indices): int
    requires ix.InRange() && |row| >= ColumnCount
  {
    Measure(row[ix.agg])
  }

  /** The accumulator after the rows have been folded in, first row first. */
  function Aggregate(rows: Table, ix: Indices): Accumulator
    requires ix.InRange() && WellFormedTable(rows)
    decreases |rows|
  {
    if rows == [] then map[]
    else
      var r := rows[|rows| - 1];
      AddToBucket(Aggregate(rows[..|rows| - 1], ix), PrimaryKey(r, ix), SecondaryKey(r, ix), RowMeasure(r, ix))
  }

  /** The distinct primary keys of the table (`group1Values`). */
  function PrimaryKeys(rows: Table, ix: Indices): set<string>
    requires ix.InRange() && WellFormedTable(rows)
    decreases |rows|
  {
    if rows == [] then {} else PrimaryKeys(rows[..|rows| - 1], ix) + {PrimaryKey(rows[|rows| - 1], ix)}
  }

  /** The distinct secondary keys of the table (`group2Values`). */
  function SecondaryKeys(rows: Table, ix: Indices): set<string>
    requires ix.InRange() && WellFormedTable(rows)
    decreases |rows|
  {
    if rows == [] then {} else SecondaryKeys(rows[..|rows| - 1], ix) + {SecondaryKey(rows[|rows| - 1], ix)}
  }

  /** Extending the scanned prefix by one row adds that row's keys and measure. */
  lemma AggregateStep(rows: Table, ix: Indices, i: nat)
    requires ix.InRange() && WellFormedTable(rows) && i < |rows|
    ensures Aggregate(rows[..i + 1], ix)
            == AddToBucket(Aggregate(rows[..i], ix), PrimaryKey(rows[i], ix), SecondaryKey(rows[i], ix), RowMeasure(rows[i], ix))
    ensures PrimaryKeys(rows[..i + 1], ix) == PrimaryKeys(rows[..i], ix) + {PrimaryKey(rows[i], ix)}
    ensures SecondaryKeys(rows[..i + 1], ix) == SecondaryKeys(rows[..i], ix) + {SecondaryKey(rows[i], ix)}
  {
    assert rows[..i + 1][..i] == rows[..i];
    assert rows[..i + 1][i] == rows[i];
  }

  /** The outer keys of the accumulator are exactly the primary keys seen. */
  lemma {:induction false} AggregateKeysArePrimaryKeys(rows: Table, ix: Indices)
    requires ix.InRange() && WellFormedTable(rows)
    ensures Aggregate(rows, ix).Keys == PrimaryKeys(rows, ix)
    decreases |rows|
  {
    if rows != [] {
      var n := |rows| - 1;
      AggregateKeysArePrimaryKeys(rows[..n], ix);
      AggregateStep(rows, ix, n);
      assert rows[..n + 1] == rows;
    }
  }

  /**
   The callback the aggregation `forEach` runs on each row (pivotHelpers.ts:43-56):
   record both keys, create the bucket on first sight, add the measure.
   */
  method AccumulateRow(pivotMap: Accumulator, group1Values: set<string>, group2Values: set<string>, row: Row, ix: Indices)
    returns (pivotMap': Accumulator, group1Values': set<string>, group2Values': set<string>)
    requires ix.InRange() && |row| >= ColumnCount
    ensures pivotMap' == AddToBucket(pivotMap, PrimaryKey(row, ix), SecondaryKey(row, ix), RowMeasure(row, ix))
    ensures group1Values' == group1Values + {PrimaryKey(row, ix)}
    ensures group2Values' == group2Values + {SecondaryKey(row, ix)}
  {
    var group1Value := Key(row[ix.group1]);
    var group2Value := Key(row[ix.group2]);
    var aggValue := Measure(row[ix.agg]);

    group1Values' := group1Values + {group1Value};
    group2Values' := group2Values + {group2Value};

    pivotMap' := pivotMap;
    if group1Value !in pivotMap' {
      pivotMap' := pivotMap'[group1Value := map[]];
    }
    var group2Map := pivotMap'[group1Value];
    var currentValue := if group2Value in group2Map then group2Map[group2Value] else 0;
    pivotMap' := pivotMap'[group1Value := group2Map[group2Value := currentValue + aggValue]];
  }

  /** The aggregation `forEach` (pivotHelpers.ts:42-57): one pass over the rows, first to last. */
  method AggregateRows(rows: Table, ix: Indices) returns (pivotMap: Accumulator, group1Values: set<string>, group2Values: set<string>)
    requires ix.InRange() && WellFormedTable(rows)
    ensures pivotMap == Aggregate(rows, ix)
    ensures group1Values == PrimaryKeys(rows, ix)
    ensures group2Values == SecondaryKeys(rows, ix)
  {
    pivotMap := map[];
    group1Values := {};
    group2Values := {};
    var i := 0;
    while i < |rows|
      invariant 0 <= i <= |rows|
      invariant pivotMap == Aggregate(rows[..i], ix)
      invariant group1Values == PrimaryKeys(rows[..i], ix)
      invariant group2Values == SecondaryKeys(rows[..i], ix)
    {
      pivotMap, group1Values, group2Values := AccumulateRow(pivotMap, group1Values, group2Values, rows[i], ix);
      AggregateStep(rows, ix, i);
      i := i + 1;
    }
    assert rows[..|rows|] == rows;
  }

  // ---------------------------------------------------------------- report

  /** The detail rows of primary key `p`: one per secondary key, in the given order, whose bucket is positive. */
  function DetailRows(acc: Accumulator, p: string, keys2: seq<string>): seq<OutRow>
    decreases |keys2|
  {
    if keys2 == [] then []
    else
      var s := keys2[|keys2| - 1];
      var v := Lookup(acc, p, s);
      DetailRows(acc, p, keys2[..|keys2| - 1]) + (if v > 0 then [OutRow(p, s, v)] else [])
  }

  /** Sum of the value column of some output rows. */
  function Total(rows: seq<OutRow>): int
    decreases |rows|
  {
    if rows == [] then 0 else Total(rows[..|rows| - 1]) + rows[|rows| - 1].value
  }

  /** The subtotal row of primary key `p`, closing its group. */
  function SubtotalRow(p: string, details: seq<OutRow>): OutRow {
    OutRow(p + " Subtotal", "", Total(details))
  }

  /** The rows of one primary group: its detail rows, then its subtotal row. */
  function GroupRows(acc: Accumulator, p: string, keys2: seq<string>): seq<OutRow> {
    var details := DetailRows(acc, p, keys2);
    details + [SubtotalRow(p, details)]
  }

  /** The groups of the given primary keys, in the given order. */
  function AllGroups(acc: Accumulator, keys1: seq<string>, keys2: seq<string>): seq<OutRow>
    decreases |keys1|
  {
    if keys1 == [] then []
    else AllGroups(acc, keys1[..|keys1| - 1], keys2) + GroupRows(acc, keys1[|keys1| - 1], keys2)
  }

  /** Sum of the subtotals of the given primary keys. */
  function GrandTotal(acc: Accumulator, keys1: seq<string>, keys2: seq<string>): int
    decreases |keys1|
  {
    if keys1 == [] then 0
    else GrandTotal(acc, keys1[..|keys1| - 1], keys2) + Total(DetailRows(acc, keys1[|keys1| - 1], keys2))
  }

  const GrandTotalLabel: string := "Grand Total"

  /** The whole report: every group in order, then the grand-total row. */
  function ReportRows(acc: Accumulator, keys1: seq<string>, keys2: seq<string>): seq<OutRow> {
    AllGroups(acc, keys1, keys2) + [OutRow(GrandTotalLabel, "", GrandTotal(acc, keys1, keys2))]
  }

  /** The three column descriptors. */
  function Columns(config: PivotConfig): seq<Column> {
    [ Column(config.groupBy1, "150px"),
      Column(config.groupBy2, "150px"),
      Column("Total " + config.aggregateColumn, "150px") ]
  }

  /** What `generatePivotData(sourceData, config)` returns. */
  ghost function ExpectedPivotData(rows: Table, config: PivotConfig): PivotDataResult
    requires ValidConfig(config) && WellFormedTable(rows)
  {
    var ix := Resolve(config);
    var acc := Aggregate(rows, ix);
    PivotDataResult(ReportRows(acc, SortedSeq(PrimaryKeys(rows, ix)), SortedSeq(SecondaryKeys(rows, ix))), Columns(config))
  }

  lemma DetailRowsStep(acc: Accumulator, p: string, keys2: seq<string>, j: nat)
    requires j < |keys2|
    ensures var v := Lookup(acc, p, keys2[j]);
            DetailRows(acc, p, keys2[..j + 1]) == DetailRows(acc, p, keys2[..j]) + (if v > 0 then [OutRow(p, keys2[j], v)] else [])
  {
    assert keys2[..j + 1][..j] == keys2[..j];
  }

  lemma TotalAppend(rows: seq<OutRow>, r: OutRow)
    ensures Total(rows + [r]) == Total(rows) + r.value
  {
    assert (rows + [r])[..|rows|] == rows;
  }

  lemma GroupsStep(acc: Accumulator, keys1: seq<string>, keys2: seq<string>, i: nat)
    requires i < |keys1|
    ensures AllGroups(acc, keys1[..i + 1], keys2) == AllGroups(acc, keys1[..i], keys2) + GroupRows(acc, keys1[i], keys2)
    ensures GrandTotal(acc, keys1[..i + 1], keys2) == GrandTotal(acc, keys1[..i], keys2) + Total(DetailRows(acc, keys1[i], keys2))
  {
    assert keys1[..i + 1][..i] == keys1[..i];
  }

  /**
   The inner `forEach` (pivotHelpers.ts:75-83): push the positive buckets of `group1Val`
   onto `outputData` in the order of `sortedGroup2`, keeping their running sum.
   */
  method EmitDetails(pivotMap: Accumulator, group1Val: string, sortedGroup2: seq<string>, outputData: seq<OutRow>)
    returns (extended: seq<OutRow>, group1Subtotal: int)
    requires group1Val in pivotMap
    ensures extended == outputData + DetailRows(pivotMap, group1Val, sortedGroup2)
    ensures group1Subtotal == Total(DetailRows(pivotMap, group1Val, sortedGroup2))
  {
    var group2Map := pivotMap[group1Val];
    extended := outputData;
    group1Subtotal := 0;
    var j := 0;
    while j < |sortedGroup2|
      invariant 0 <= j <= |sortedGroup2|
      invariant extended == outputData + DetailRows(pivotMap, group1Val, sortedGroup2[..j])
      invariant group1Subtotal == Total(DetailRows(pivotMap, group1Val, sortedGroup2[..j]))
    {
      var group2Val := sortedGroup2[j];
      var value := if group2Val in group2Map then group2Map[group2Val] else 0;
      assert value == Lookup(pivotMap, group1Val, group2Val);
      ghost var before := DetailRows(pivotMap, group1Val, sortedGroup2[..j]);
      DetailRowsStep(pivotMap, group1Val, sortedGroup2, j);
      if value > 0 {
        var row := OutRow(group1Val, group2Val, value);
        TotalAppend(before, row);
        assert DetailRows(pivotMap, group1Val, sortedGroup2[..j + 1]) == before + [row];
        extended := extended + [row];
        assert extended == outputData + (before + [row]);
        group1Subtotal := group1Subtotal + value;
      } else {
        assert DetailRows(pivotMap, group1Val, sortedGroup2[..j + 1]) == before + [];
        assert before + [] == before;
      }
      j := j + 1;
    }
    assert sortedGroup2[..j] == sortedGroup2;
  }

  /** The outer `forEach` and the closing push (pivotHelpers.ts:71-91), with the running grand total. */
  method BuildReport(pivotMap: Accumulator, sortedGroup1: seq<string>, sortedGroup2: seq<string>) returns (outputData: seq<OutRow>)
    requires forall p :: p in sortedGroup1 ==> p in pivotMap
    ensures outputData == ReportRows(pivotMap, sortedGroup1, sortedGroup2)
  {
    outputData := [];
    var grandTotal := 0;
    var i := 0;
    while i < |sortedGroup1|
      invariant 0 <= i <= |sortedGroup1|
      invariant outputData == AllGroups(pivotMap, sortedGroup1[..i], sortedGroup2)
      invariant grandTotal == GrandTotal(pivotMap, sortedGroup1[..i], sortedGroup2)
    {
      var group1Val := sortedGroup1[i];
      var group1Subtotal;
      outputData, group1Subtotal := EmitDetails(pivotMap, group1Val, sortedGroup2, outputData);
      outputData := outputData + [OutRow(group1Val + " Subtotal", "", group1Subtotal)];
      grandTotal := grandTotal + group1Subtotal;
      GroupsStep(pivotMap, sortedGroup1, sortedGroup2, i);
      i := i + 1;
    }
    assert sortedGroup1[..i] == sortedGroup1;
    outputData := outputData + [OutRow(GrandTotalLabel, "", grandTotal)];
  }

  /** `generatePivotData` (pivotHelpers.ts:28-94): the three stages back to back. */
  method GeneratePivotData(sourceData: Table, config: PivotConfig) returns (result: PivotDataResult)
    requires ValidConfig(config) && WellFormedTable(sourceData)
    ensures result == ExpectedPivotData(sourceData, config)
    ensures result.columns
            == [Column(config.groupBy1, "150px"), Column(config.groupBy2, "150px"), Column("Total " + config.aggregateColumn, "150px")]
    ensures |result.data| > 0 && result.data[|result.data| - 1].group1 == GrandTotalLabel
  {
    var ix := Resolve(config);
    var pivotMap, group1Values, group2Values := AggregateRows(sourceData, ix);
    AggregateKeysArePrimaryKeys(sourceData, ix);
    var sortedGroup1 := SortKeys(group1Values);
    var sortedGroup2 := SortKeys(group2Values);
    SortedSeqFacts(group1Values);
    var outputData := BuildReport(pivotMap, sortedGroup1, sortedGroup2);
    result := PivotDataResult(outputData, Columns(config));
  }
}
