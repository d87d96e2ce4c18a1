/**
 The pivot worksheet component: the memoised computation that feeds the
 spreadsheet, and the choice between the "no data" message and the table.
 Its private copy of `generatePivotData` and of the column map is textually the
 same as the helper's, so `PivotHelpers.GeneratePivotData` models both.
 */
module PivotTableWorksheet {
  import opened Wrappers
  import opened PivotHelpers

  /** The component renders "No data available for pivot table." exactly when the result has no rows. */
  predicate ShowsNoData(pivotData: PivotDataResult) {
    |pivotData.data| == 0
  }

  /** The source prop is absent (`None`) or has no rows. */
  predicate NoSource(sourceData: Option<Table>) {
    sourceData.None? || |sourceData.value| == 0
  }

  /**
   The `useMemo` body (PivotTableWorksheet.tsx:16-21): no rows means empty data and
   columns without running the engine; otherwise the engine's result.
   */
  method PivotData(sourceData: Option<Table>, config: PivotConfig) returns (pivotData: PivotDataResult)
    requires !NoSource(sourceData) ==> ValidConfig(config) && WellFormedTable(sourceData.value)
    ensures NoSource(sourceData) ==> pivotData == PivotDataResult([], [])
    ensures !NoSource(sourceData) ==> pivotData == ExpectedPivotData(sourceData.value, config)
    ensures ShowsNoData(pivotData) <==> NoSource(sourceData)
  {
    if sourceData.None? || |sourceData.value| == 0 {
      return PivotDataResult([], []);
    }
    pivotData := GeneratePivotData(sourceData.value, config);
  }
}
