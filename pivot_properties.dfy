/**
 What the pivot report promises, proved about the specification functions that
 `GeneratePivotData` is shown to compute: bucket sums, which rows are emitted,
 their order, the totals and the length of the report.
 */
module PivotProperties {
  import opened Wrappers
  import opened Cells
  import opened Lexical
  import opened PivotHelpers

  // ---------------------------------------------------------------- buckets

  /** Sum of the measures of exactly those rows whose keys are `p` and `s`. */
  function FilteredSum(rows: Table, ix: Indices, p: string, s: string): int
    requires ix.InRange() && WellFormedTable(rows)
    decreases |rows|
  {
    if rows == [] then 0
    else
      FilteredSum(rows[..|rows| - 1], ix, p, s) + Contribution(rows[|rows| - 1], ix, p, s)
  }

  /** What one row adds to the bucket `(p, s)`. */
  function Contribution(r: Row, ix: Indices, p: string, s: string): int
    requires ix.InRange() && |r| >= ColumnCount
  {
    if PrimaryKey(r, ix) == p && SecondaryKey(r, ix) == s then RowMeasure(r, ix) else 0
  }

  /** Some row of the table has primary key `p` and secondary key `s`. */
  predicate Seen(rows: Table, ix: Indices, p: string, s: string)
    requires ix.InRange() && WellFormedTable(rows)
  {
    exists r :: r in rows && |r| >= ColumnCount && PrimaryKey(r, ix) == p && SecondaryKey(r, ix) == s
  }

  lemma LookupAddToBucket(acc: Accumulator, p': string, s': string, v: int, p: string, s: string)
    ensures Lookup(AddToBucket(acc, p', s', v), p, s) == Lookup(acc, p, s) + (if p == p' && s == s' then v else 0)
    ensures var acc' := AddToBucket(acc, p', s', v);
            (p in acc' && s in acc'[p]) <==> (p in acc && s in acc[p]) || (p == p' && s == s')
  {
  }

  /** The accumulated value of a bucket is the sum of the measures of the rows that fall in it; an unseen pair reads as 0. */
  lemma {:induction false} BucketIsFilteredSum(rows: Table, ix: Indices, p: string, s: string)
    requires ix.InRange() && WellFormedTable(rows)
    ensures Lookup(Aggregate(rows, ix), p, s) == FilteredSum(rows, ix, p, s)
    decreases |rows|
  {
    if rows != [] {
      var n := |rows| - 1;
      var r := rows[n];
      BucketIsFilteredSum(rows[..n], ix, p, s);
      LookupAddToBucket(Aggregate(rows[..n], ix), PrimaryKey(r, ix), SecondaryKey(r, ix), RowMeasure(r, ix), p, s);
    }
  }

  /** A bucket exists exactly for the key pairs that occur together in some row. */
  lemma {:induction false} BucketExistsIffSeen(rows: Table, ix: Indices, p: string, s: string)
    requires ix.InRange() && WellFormedTable(rows)
    ensures var acc := Aggregate(rows, ix); (p in acc && s in acc[p]) <==> Seen(rows, ix, p, s)
    decreases |rows|
  {
    if rows != [] {
      var n := |rows| - 1;
      var r := rows[n];
      var init := rows[..n];
      BucketExistsIffSeen(init, ix, p, s);
      LookupAddToBucket(Aggregate(init, ix), PrimaryKey(r, ix), SecondaryKey(r, ix), RowMeasure(r, ix), p, s);
      assert rows == init + [r];
      assert forall x :: x in rows <==> x in init || x == r;
    }
  }

  /** A pair of keys that never occurs together has no bucket and reads as 0. */
  lemma UnseenPairReadsZero(rows: Table, ix: Indices, p: string, s: string)
    requires ix.InRange() && WellFormedTable(rows)
    requires !Seen(rows, ix, p, s)
    ensures Lookup(Aggregate(rows, ix), p, s) == 0
    ensures FilteredSum(rows, ix, p, s) == 0
  {
    BucketExistsIffSeen(rows, ix, p, s);
    BucketIsFilteredSum(rows, ix, p, s);
  }

  /**
   A row whose measure cell is text that `Number` cannot read still registers both
   of its keys and creates its bucket, and changes no bucket's value.
   */
  lemma NonNumericMeasureStillGroups(rows: Table, ix: Indices, row: Row)
    requires ix.InRange() && WellFormedTable(rows) && |row| >= ColumnCount
    requires row[ix.agg].Text? && ParseNumber(row[ix.agg].s).None?
    ensures WellFormedTable(rows + [row])
    ensures var acc' := Aggregate(rows + [row], ix);
            PrimaryKey(row, ix) in acc' && SecondaryKey(row, ix) in acc'[PrimaryKey(row, ix)]
    ensures PrimaryKeys(rows + [row], ix) == PrimaryKeys(rows, ix) + {PrimaryKey(row, ix)}
    ensures SecondaryKeys(rows + [row], ix) == SecondaryKeys(rows, ix) + {SecondaryKey(row, ix)}
    ensures forall p, s :: Lookup(Aggregate(rows + [row], ix), p, s) == Lookup(Aggregate(rows, ix), p, s)
  {
    var rows' := rows + [row];
    assert rows'[..|rows|] == rows;
    forall p, s ensures Lookup(Aggregate(rows', ix), p, s) == Lookup(Aggregate(rows, ix), p, s) {
      LookupAddToBucket(Aggregate(rows, ix), PrimaryKey(row, ix), SecondaryKey(row, ix), RowMeasure(row, ix), p, s);
    }
  }

  // ---------------------------------------------------------------- detail rows

  /** No key occurs twice. */
  predicate Distinct(keys: seq<string>) {
    forall i, j :: 0 <= i < j < |keys| ==> keys[i] != keys[j]
  }

  lemma SortedIsDistinct(keys: seq<string>)
    requires StrictlySorted(keys)
    ensures Distinct(keys)
  {
    forall i, j | 0 <= i < j < |keys| ensures keys[i] != keys[j] {
      LessIrreflexive(keys[i]);
    }
  }

  /**
   A row is a detail row of group `p` exactly when it names `p` and one of the
   secondary keys and carries that bucket's value, which is positive: zero and
   negative buckets never yield a row.
   */
  lemma {:induction false} DetailRowIff(acc: Accumulator, p: string, keys2: seq<string>, r: OutRow)
    ensures r in DetailRows(acc, p, keys2)
            <==> r.group1 == p && r.group2 in keys2 && r.value == Lookup(acc, p, r.group2) && r.value > 0
    decreases |keys2|
  {
    if keys2 != [] {
      var n := |keys2| - 1;
      DetailRowIff(acc, p, keys2[..n], r);
      assert keys2 == keys2[..n] + [keys2[n]];
    }
  }

  /** The secondary-key column of some output rows is strictly ascending. */
  predicate AscendingSecondary(d: seq<OutRow>) {
    forall i, j :: 0 <= i < j < |d| ==> Less(d[i].group2, d[j].group2)
  }

  /** Within a group the detail rows follow the order of the secondary keys, so no secondary key appears twice. */
  lemma {:induction false} DetailRowsOrdered(acc: Accumulator, p: string, keys2: seq<string>)
    requires StrictlySorted(keys2)
    ensures AscendingSecondary(DetailRows(acc, p, keys2))
    decreases |keys2|
  {
    if keys2 != [] {
      var n := |keys2| - 1;
      var init := keys2[..n];
      DetailRowsOrdered(acc, p, init);
      var d0 := DetailRows(acc, p, init);
      var v := Lookup(acc, p, keys2[n]);
      var extra := if v > 0 then [OutRow(p, keys2[n], v)] else [];
      var d := DetailRows(acc, p, keys2);
      assert d == d0 + extra;
      forall i, j | 0 <= i < j < |d| ensures Less(d[i].group2, d[j].group2) {
        if j >= |d0| {
          assert d[j].group2 == keys2[n];
          assert d[i] == d0[i] && d0[i] in d0;
          DetailRowIff(acc, p, init, d0[i]);
          var k :| 0 <= k < n && init[k] == d0[i].group2;
          assert keys2[k] == init[k];
        } else {
          assert d[i] == d0[i] && d[j] == d0[j];
        }
      }
    }
  }

  /** A subtotal is never negative, and it is 0 exactly when its group has no detail rows. */
  lemma {:induction false} SubtotalSign(acc: Accumulator, p: string, keys2: seq<string>)
    ensures Total(DetailRows(acc, p, keys2)) >= 0
    ensures Total(DetailRows(acc, p, keys2)) == 0 <==> DetailRows(acc, p, keys2) == []
    decreases |keys2|
  {
    if keys2 != [] {
      var n := |keys2| - 1;
      SubtotalSign(acc, p, keys2[..n]);
      var d0 := DetailRows(acc, p, keys2[..n]);
      var v := Lookup(acc, p, keys2[n]);
      if v > 0 {
        assert DetailRows(acc, p, keys2) == d0 + [OutRow(p, keys2[n], v)];
        TotalAppend(d0, OutRow(p, keys2[n], v));
      } else {
        assert DetailRows(acc, p, keys2) == d0;
      }
    }
  }

  // ---------------------------------------------------------------- length

  /** The secondary keys of `keys` whose bucket under `p` is positive. */
  function PositiveSecondaries(acc: Accumulator, p: string, keys: seq<string>): set<string> {
    set s | s in keys && Lookup(acc, p, s) > 0
  }

  lemma {:induction false} DetailRowsCount(acc: Accumulator, p: string, keys2: seq<string>)
    requires Distinct(keys2)
    ensures |DetailRows(acc, p, keys2)| == |PositiveSecondaries(acc, p, keys2)|
    decreases |keys2|
  {
    if keys2 != [] {
      var n := |keys2| - 1;
      var init := keys2[..n];
      DetailRowsCount(acc, p, init);
      var k := keys2[n];
      assert k !in init;
      assert keys2 == init + [k];
      if Lookup(acc, p, k) > 0 {
        assert PositiveSecondaries(acc, p, keys2) == PositiveSecondaries(acc, p, init) + {k};
      } else {
        assert PositiveSecondaries(acc, p, keys2) == PositiveSecondaries(acc, p, init);
      }
    }
  }

  /** The positive buckets whose primary key is in `keys1` and secondary key in `keys2`. */
  function PositivePairsOver(acc: Accumulator, keys1: seq<string>, keys2: seq<string>): set<(string, string)> {
    set p, s | p in keys1 && s in keys2 && Lookup(acc, p, s) > 0 :: (p, s)
  }

  /** All positive buckets of the accumulator. */
  function PositiveBuckets(acc: Accumulator): set<(string, string)> {
    set p, s | p in acc && s in acc[p] && acc[p][s] > 0 :: (p, s)
  }

  lemma {:induction false} PairImageSize(q: string, ss: set<string>)
    ensures |set s | s in ss :: (q, s)| == |ss|
    decreases |ss|
  {
    if ss != {} {
      var x :| x in ss;
      PairImageSize(q, ss - {x});
      assert (set s | s in ss :: (q, s)) == (set s | s in ss - {x} :: (q, s)) + {(q, x)};
    }
  }

  /** The positive pairs of one more primary key are new, and they are that key paired with its positive secondaries. */
  lemma PositivePairsStep(acc: Accumulator, init: seq<string>, q: string, keys2: seq<string>)
    requires q !in init
    ensures PositivePairsOver(acc, init + [q], keys2)
            == PositivePairsOver(acc, init, keys2) + set s | s in PositiveSecondaries(acc, q, keys2) :: (q, s)
    ensures PositivePairsOver(acc, init, keys2) !! set s | s in PositiveSecondaries(acc, q, keys2) :: (q, s)
  {
    assert forall p :: p in init + [q] <==> p in init || p == q;
  }

  lemma AllGroupsLength(acc: Accumulator, keys1: seq<string>, keys2: seq<string>)
    requires keys1 != []
    ensures var n := |keys1| - 1;
            |AllGroups(acc, keys1, keys2)| == |AllGroups(acc, keys1[..n], keys2)| + |DetailRows(acc, keys1[n], keys2)| + 1
  {
  }

  lemma DistinctPrefix(keys: seq<string>)
    requires keys != [] && Distinct(keys)
    ensures Distinct(keys[..|keys| - 1]) && keys[|keys| - 1] !in keys[..|keys| - 1]
  {
    var n := |keys| - 1;
    var init := keys[..n];
    forall i, j | 0 <= i < j < n ensures init[i] != init[j] { assert init[i] == keys[i] && init[j] == keys[j]; }
    forall i | 0 <= i < n ensures init[i] != keys[n] { assert init[i] == keys[i]; }
  }

  /** One more, new, primary key adds as many positive pairs as it has positive secondaries. */
  lemma PositivePairsCountStep(acc: Accumulator, keys1: seq<string>, keys2: seq<string>)
    requires keys1 != [] && Distinct(keys1)
    ensures var n := |keys1| - 1;
            |PositivePairsOver(acc, keys1, keys2)|
              == |PositivePairsOver(acc, keys1[..n], keys2)| + |PositiveSecondaries(acc, keys1[n], keys2)|
  {
    var n := |keys1| - 1;
    var init, q := keys1[..n], keys1[n];
    DistinctPrefix(keys1);
    assert keys1 == init + [q];
    PositivePairsStep(acc, init, q, keys2);
    var before, added := PositivePairsOver(acc, init, keys2), set s | s in PositiveSecondaries(acc, q, keys2) :: (q, s);
    PairImageSize(q, PositiveSecondaries(acc, q, keys2));
    assert PositivePairsOver(acc, keys1, keys2) == before + added;
    assert |before + added| == |before| + |added|;
  }

  lemma {:induction false} AllGroupsCount(acc: Accumulator, keys1: seq<string>, keys2: seq<string>)
    requires Distinct(keys1) && Distinct(keys2)
    ensures |AllGroups(acc, keys1, keys2)| == |PositivePairsOver(acc, keys1, keys2)| + |keys1|
    decreases |keys1|
  {
    if keys1 != [] {
      var n := |keys1| - 1;
      DistinctPrefix(keys1);
      AllGroupsCount(acc, keys1[..n], keys2);
      DetailRowsCount(acc, keys1[n], keys2);
      AllGroupsLength(acc, keys1, keys2);
      PositivePairsCountStep(acc, keys1, keys2);
    }
  }



  /**
   The report has one row per positive bucket, one subtotal row per primary key and
   the grand-total row, provided the key lists cover the accumulator.
   */
  lemma ReportLength(acc: Accumulator, keys1: seq<string>, keys2: seq<string>)
    requires Distinct(keys1) && Distinct(keys2)
    requires forall p :: p in keys1 <==> p in acc
    requires forall p, s :: p in acc && s in acc[p] ==> s in keys2
    ensures |ReportRows(acc, keys1, keys2)| == |PositiveBuckets(acc)| + |keys1| + 1
  {
    AllGroupsCount(acc, keys1, keys2);
    assert PositivePairsOver(acc, keys1, keys2) == PositiveBuckets(acc);
  }

  // ---------------------------------------------------------------- totals

  lemma {:induction false} TotalConcat(a: seq<OutRow>, b: seq<OutRow>)
    ensures Total(a + b) == Total(a) + Total(b)
    decreases |b|
  {
    if b != [] {
      var n := |b| - 1;
      TotalConcat(a, b[..n]);
      assert a + b == (a + b[..n]) + [b[n]];
      TotalAppend(a + b[..n], b[n]);
      assert b == b[..n] + [b[n]];
      TotalAppend(b[..n], b[n]);
    } else {
      assert a + b == a;
    }
  }

  /** The detail rows of the whole report, group after group, without the subtotal rows. */
  function AllDetails(acc: Accumulator, keys1: seq<string>, keys2: seq<string>): seq<OutRow>
    decreases |keys1|
  {
    if keys1 == [] then []
    else AllDetails(acc, keys1[..|keys1| - 1], keys2) + DetailRows(acc, keys1[|keys1| - 1], keys2)
  }

  /** The subtotal rows of the whole report, in group order. */
  function SubtotalRows(acc: Accumulator, keys1: seq<string>, keys2: seq<string>): seq<OutRow>
    decreases |keys1|
  {
    if keys1 == [] then []
    else
      var p := keys1[|keys1| - 1];
      SubtotalRows(acc, keys1[..|keys1| - 1], keys2) + [SubtotalRow(p, DetailRows(acc, p, keys2))]
  }

  /** The grand total is the sum of the subtotal rows, and it is never negative. */
  lemma {:induction false} GrandTotalIsSumOfSubtotals(acc: Accumulator, keys1: seq<string>, keys2: seq<string>)
    ensures GrandTotal(acc, keys1, keys2) == Total(SubtotalRows(acc, keys1, keys2))
    ensures GrandTotal(acc, keys1, keys2) >= 0
    decreases |keys1|
  {
    if keys1 != [] {
      var n := |keys1| - 1;
      var p := keys1[n];
      GrandTotalIsSumOfSubtotals(acc, keys1[..n], keys2);
      TotalAppend(SubtotalRows(acc, keys1[..n], keys2), SubtotalRow(p, DetailRows(acc, p, keys2)));
      SubtotalSign(acc, p, keys2);
    }
  }

  /**
   The grand total is also the sum of all detail rows, so the rows above the
   grand-total row (details and subtotals) sum to twice the grand total.
   */
  lemma {:induction false} GrandTotalIsSumOfDetails(acc: Accumulator, keys1: seq<string>, keys2: seq<string>)
    ensures GrandTotal(acc, keys1, keys2) == Total(AllDetails(acc, keys1, keys2))
    decreases |keys1|
  {
    if keys1 != [] {
      var n := |keys1| - 1;
      var p := keys1[n];
      var d := DetailRows(acc, p, keys2);
      GrandTotalIsSumOfDetails(acc, keys1[..n], keys2);
      assert AllDetails(acc, keys1, keys2) == AllDetails(acc, keys1[..n], keys2) + d;
      TotalConcat(AllDetails(acc, keys1[..n], keys2), d);
    }
  }

  /** Each group's rows sum to twice its subtotal, so the group rows of the report sum to twice the grand total. */
  lemma {:induction false} GroupRowsTotal(acc: Accumulator, keys1: seq<string>, keys2: seq<string>)
    ensures Total(AllGroups(acc, keys1, keys2)) == 2 * GrandTotal(acc, keys1, keys2)
    decreases |keys1|
  {
    if keys1 != [] {
      var n := |keys1| - 1;
      var p := keys1[n];
      var d := DetailRows(acc, p, keys2);
      GroupRowsTotal(acc, keys1[..n], keys2);
      assert AllGroups(acc, keys1, keys2) == AllGroups(acc, keys1[..n], keys2) + GroupRows(acc, p, keys2);
      TotalConcat(AllGroups(acc, keys1[..n], keys2), GroupRows(acc, p, keys2));
      TotalAppend(d, SubtotalRow(p, d));
    }
  }


  /** Sum of the measures of all rows. */
  function TableTotal(rows: Table, ix: Indices): int
    requires ix.InRange() && WellFormedTable(rows)
    decreases |rows|
  {
    if rows == [] then 0 else TableTotal(rows[..|rows| - 1], ix) + RowMeasure(rows[|rows| - 1], ix)
  }

  predicate NoNegativeMeasure(rows: Table, ix: Indices)
    requires ix.InRange() && WellFormedTable(rows)
  {
    forall i :: 0 <= i < |rows| ==> RowMeasure(rows[i], ix) >= 0
  }

  /** Sum of the buckets of `p` over the secondary keys `keys2`. */
  function BucketsOf(rows: Table, ix: Indices, p: string, keys2: seq<string>): int
    requires ix.InRange() && WellFormedTable(rows)
    decreases |keys2|
  {
    if keys2 == [] then 0
    else BucketsOf(rows, ix, p, keys2[..|keys2| - 1]) + FilteredSum(rows, ix, p, keys2[|keys2| - 1])
  }

  /** Sum of all buckets over the primary keys `keys1` and secondary keys `keys2`. */
  function AllBuckets(rows: Table, ix: Indices, keys1: seq<string>, keys2: seq<string>): int
    requires ix.InRange() && WellFormedTable(rows)
    decreases |keys1|
  {
    if keys1 == [] then 0
    else AllBuckets(rows, ix, keys1[..|keys1| - 1], keys2) + BucketsOf(rows, ix, keys1[|keys1| - 1], keys2)
  }

  lemma {:induction false} FilteredSumNonnegative(rows: Table, ix: Indices, p: string, s: string)
    requires ix.InRange() && WellFormedTable(rows) && NoNegativeMeasure(rows, ix)
    ensures FilteredSum(rows, ix, p, s) >= 0
    decreases |rows|
  {
    if rows != [] {
      FilteredSumNonnegative(rows[..|rows| - 1], ix, p, s);
    }
  }

  /** With no negative measure, the subtotal of `p` is the sum of all of its buckets. */
  lemma {:induction false} SubtotalIsBucketSum(rows: Table, ix: Indices, p: string, keys2: seq<string>)
    requires ix.InRange() && WellFormedTable(rows) && NoNegativeMeasure(rows, ix)
    ensures Total(DetailRows(Aggregate(rows, ix), p, keys2)) == BucketsOf(rows, ix, p, keys2)
    decreases |keys2|
  {
    if keys2 != [] {
      var n := |keys2| - 1;
      var acc := Aggregate(rows, ix);
      var s := keys2[n];
      SubtotalIsBucketSum(rows, ix, p, keys2[..n]);
      BucketIsFilteredSum(rows, ix, p, s);
      FilteredSumNonnegative(rows, ix, p, s);
      var d0 := DetailRows(acc, p, keys2[..n]);
      if Lookup(acc, p, s) > 0 {
        TotalAppend(d0, OutRow(p, s, Lookup(acc, p, s)));
      } else {
        assert DetailRows(acc, p, keys2) == d0;
      }
    }
  }

  lemma {:induction false} GrandTotalIsAllBuckets(rows: Table, ix: Indices, keys1: seq<string>, keys2: seq<string>)
    requires ix.InRange() && WellFormedTable(rows) && NoNegativeMeasure(rows, ix)
    ensures GrandTotal(Aggregate(rows, ix), keys1, keys2) == AllBuckets(rows, ix, keys1, keys2)
    decreases |keys1|
  {
    if keys1 != [] {
      var n := |keys1| - 1;
      GrandTotalIsAllBuckets(rows, ix, keys1[..n], keys2);
      SubtotalIsBucketSum(rows, ix, keys1[n], keys2);
    }
  }

  /** One more row adds its measure to the one bucket its keys name, if `keys2` lists its secondary key once. */
  lemma {:induction false} BucketsOfStep(rows: Table, ix: Indices, r: Row, p: string, keys2: seq<string>)
    requires ix.InRange() && WellFormedTable(rows) && |r| >= ColumnCount && Distinct(keys2)
    ensures WellFormedTable(rows + [r])
    ensures BucketsOf(rows + [r], ix, p, keys2)
            == BucketsOf(rows, ix, p, keys2)
               + (if p == PrimaryKey(r, ix) && SecondaryKey(r, ix) in keys2 then RowMeasure(r, ix) else 0)
    decreases |keys2|
  {
    var rows' := rows + [r];
    assert rows'[..|rows|] == rows;
    if keys2 != [] {
      var n := |keys2| - 1;
      BucketsOfStep(rows, ix, r, p, keys2[..n]);
      assert keys2 == keys2[..n] + [keys2[n]];
      assert keys2[n] !in keys2[..n];
    }
  }

  lemma {:induction false} AllBucketsStep(rows: Table, ix: Indices, r: Row, keys1: seq<string>, keys2: seq<string>)
    requires ix.InRange() && WellFormedTable(rows) && |r| >= ColumnCount && Distinct(keys1) && Distinct(keys2)
    requires SecondaryKey(r, ix) in keys2
    ensures WellFormedTable(rows + [r])
    ensures AllBuckets(rows + [r], ix, keys1, keys2)
            == AllBuckets(rows, ix, keys1, keys2) + (if PrimaryKey(r, ix) in keys1 then RowMeasure(r, ix) else 0)
    decreases |keys1|
  {
    assert (rows + [r])[..|rows|] == rows;
    if keys1 != [] {
      var n := |keys1| - 1;
      AllBucketsStep(rows, ix, r, keys1[..n], keys2);
      BucketsOfStep(rows, ix, r, keys1[n], keys2);
      assert keys1 == keys1[..n] + [keys1[n]];
      assert keys1[n] !in keys1[..n];
    }
  }

  lemma {:induction false} EmptyTableBuckets(ix: Indices, keys1: seq<string>, keys2: seq<string>)
    requires ix.InRange()
    ensures AllBuckets([], ix, keys1, keys2) == 0
    ensures forall p :: BucketsOf([], ix, p, keys2) == 0
    decreases |keys1| + |keys2|
  {
    if keys2 != [] {
      EmptyTableBuckets(ix, [], keys2[..|keys2| - 1]);
    }
    if keys1 != [] {
      EmptyTableBuckets(ix, keys1[..|keys1| - 1], keys2);
    }
  }

  /** Summing every bucket over key lists that list each key of the table once gives the sum of all measures. */
  lemma {:induction false} AllBucketsIsTableTotal(rows: Table, ix: Indices, keys1: seq<string>, keys2: seq<string>)
    requires ix.InRange() && WellFormedTable(rows) && Distinct(keys1) && Distinct(keys2)
    requires forall p :: p in PrimaryKeys(rows, ix) ==> p in keys1
    requires forall s :: s in SecondaryKeys(rows, ix) ==> s in keys2
    ensures AllBuckets(rows, ix, keys1, keys2) == TableTotal(rows, ix)
    decreases |rows|
  {
    if rows != [] {
      var n := |rows| - 1;
      var init := rows[..n];
      assert rows == init + [rows[n]];
      assert PrimaryKeys(rows, ix) == PrimaryKeys(init, ix) + {PrimaryKey(rows[n], ix)};
      assert SecondaryKeys(rows, ix) == SecondaryKeys(init, ix) + {SecondaryKey(rows[n], ix)};
      AllBucketsIsTableTotal(init, ix, keys1, keys2);
      AllBucketsStep(init, ix, rows[n], keys1, keys2);
    } else {
      EmptyTableBuckets(ix, keys1, keys2);
    }
  }

  /**
   When no measure is negative nothing is filtered out: the grand total of the
   report equals the sum of the measure column over the whole table.
   */
  lemma GrandTotalOfNonnegativeTable(rows: Table, config: PivotConfig)
    requires ValidConfig(config) && WellFormedTable(rows)
    requires NoNegativeMeasure(rows, Resolve(config))
    ensures var data := ExpectedPivotData(rows, config).data;
            data[|data| - 1] == OutRow(GrandTotalLabel, "", TableTotal(rows, Resolve(config)))
  {
    var ix := Resolve(config);
    var keys1 := SortedSeq(PrimaryKeys(rows, ix));
    var keys2 := SortedSeq(SecondaryKeys(rows, ix));
    SortedSeqFacts(PrimaryKeys(rows, ix));
    SortedSeqFacts(SecondaryKeys(rows, ix));
    SortedIsDistinct(keys1);
    SortedIsDistinct(keys2);
    GrandTotalIsAllBuckets(rows, ix, keys1, keys2);
    AllBucketsIsTableTotal(rows, ix, keys1, keys2);
  }

  // ---------------------------------------------------------------- the report as a whole

  /** Every bucket of `acc` has its secondary key in `keys`. */
  predicate InnerKeysWithin(acc: Accumulator, keys: set<string>) {
    forall p, s :: p in acc && s in acc[p] ==> s in keys
  }

  /** Every secondary key under every primary key of the accumulator is one of the table's secondary keys. */
  lemma {:induction false} InnerKeysAreSecondaryKeys(rows: Table, ix: Indices)
    requires ix.InRange() && WellFormedTable(rows)
    ensures InnerKeysWithin(Aggregate(rows, ix), SecondaryKeys(rows, ix))
    decreases |rows|
  {
    if rows != [] {
      var n := |rows| - 1;
      InnerKeysAreSecondaryKeys(rows[..n], ix);
      var r := rows[n];
      var acc := Aggregate(rows, ix);
      assert SecondaryKeys(rows, ix) == SecondaryKeys(rows[..n], ix) + {SecondaryKey(r, ix)};
      var before := Aggregate(rows[..n], ix);
      assert acc == AddToBucket(before, PrimaryKey(r, ix), SecondaryKey(r, ix), RowMeasure(r, ix));
      forall p, s | p in acc && s in acc[p] ensures s in SecondaryKeys(rows, ix) {
        LookupAddToBucket(before, PrimaryKey(r, ix), SecondaryKey(r, ix), RowMeasure(r, ix), p, s);
        if p in before && s in before[p] {
          assert s in SecondaryKeys(rows[..n], ix);
        } else {
          assert s == SecondaryKey(r, ix);
        }
      }
    }
  }

  /** The report's rows: one per positive bucket, one subtotal per distinct primary key, and the grand total. */
  lemma PivotReportLength(rows: Table, config: PivotConfig)
    requires ValidConfig(config) && WellFormedTable(rows)
    ensures var ix := Resolve(config);
            |ExpectedPivotData(rows, config).data|
              == |PositiveBuckets(Aggregate(rows, ix))| + |PrimaryKeys(rows, ix)| + 1
  {
    var ix := Resolve(config);
    var acc := Aggregate(rows, ix);
    SortedSeqFacts(PrimaryKeys(rows, ix));
    SortedSeqFacts(SecondaryKeys(rows, ix));
    SortedIsDistinct(SortedSeq(PrimaryKeys(rows, ix)));
    SortedIsDistinct(SortedSeq(SecondaryKeys(rows, ix)));
    AggregateKeysArePrimaryKeys(rows, ix);
    InnerKeysAreSecondaryKeys(rows, ix);
    ReportLength(acc, SortedSeq(PrimaryKeys(rows, ix)), SortedSeq(SecondaryKeys(rows, ix)));
  }

  /** An empty table gives the one-row report `["Grand Total", "", 0]`. */
  lemma EmptyTableReport(config: PivotConfig)
    requires ValidConfig(config)
    ensures ExpectedPivotData([], config).data == [OutRow(GrandTotalLabel, "", 0)]
  {
  }

  /** Each row of the detail rows of `keys1` names one of `keys1`. */
  lemma {:induction false} AllDetailsPrimaryKeys(acc: Accumulator, keys1: seq<string>, keys2: seq<string>)
    ensures forall r :: r in AllDetails(acc, keys1, keys2) ==> r.group1 in keys1
    decreases |keys1|
  {
    if keys1 != [] {
      var n := |keys1| - 1;
      AllDetailsPrimaryKeys(acc, keys1[..n], keys2);
      forall r | r in DetailRows(acc, keys1[n], keys2) ensures r.group1 == keys1[n] {
        DetailRowIff(acc, keys1[n], keys2, r);
      }
    }
  }

  /** `a` comes before `b` ordering by primary key, then by secondary key. */
  predicate PairLess(a: OutRow, b: OutRow) {
    Less(a.group1, b.group1) || (a.group1 == b.group1 && Less(a.group2, b.group2))
  }

  /** The rows ascend by primary key, then by secondary key. */
  predicate AscendingPairs(d: seq<OutRow>) {
    forall i, j :: 0 <= i < j < |d| ==> PairLess(d[i], d[j])
  }

  /**
   Read in report order, the detail rows ascend by primary key and, within one
   primary key, by secondary key; so no bucket is reported twice.
   */
  lemma {:induction false} AllDetailsOrdered(acc: Accumulator, keys1: seq<string>, keys2: seq<string>)
    requires StrictlySorted(keys1) && StrictlySorted(keys2)
    ensures AscendingPairs(AllDetails(acc, keys1, keys2))
    decreases |keys1|
  {
    if keys1 != [] {
      var n := |keys1| - 1;
      var q := keys1[n];
      var init := keys1[..n];
      AllDetailsOrdered(acc, init, keys2);
      AllDetailsPrimaryKeys(acc, init, keys2);
      DetailRowsOrdered(acc, q, keys2);
      var d0 := AllDetails(acc, init, keys2);
      var e := DetailRows(acc, q, keys2);
      var d := AllDetails(acc, keys1, keys2);
      assert d == d0 + e;
      forall i, j | 0 <= i < j < |d| ensures PairLess(d[i], d[j]) {
        if i >= |d0| {
          assert d[i] == e[i - |d0|] && d[j] == e[j - |d0|];
          DetailRowIff(acc, q, keys2, e[i - |d0|]);
          DetailRowIff(acc, q, keys2, e[j - |d0|]);
          assert d[i].group1 == q && d[j].group1 == q;
          assert Less(e[i - |d0|].group2, e[j - |d0|].group2);
        } else if j >= |d0| {
          assert d[i] == d0[i] && d0[i] in d0;
          assert d[j] == e[j - |d0|];
          DetailRowIff(acc, q, keys2, e[j - |d0|]);
          var k :| 0 <= k < n && init[k] == d0[i].group1;
          assert keys1[k] == init[k];
          assert Less(keys1[k], keys1[n]);
          assert Less(d[i].group1, d[j].group1);
        } else {
          assert d[i] == d0[i] && d[j] == d0[j];
          assert PairLess(d0[i], d0[j]);
        }
      }
    }
  }

  /**
   The report lists the primary groups in ascending key order, each distinct
   primary key exactly once, every group closed by its subtotal row, and its
   detail rows ascending by (primary, secondary) key.
   */
  lemma PivotReportOrder(rows: Table, config: PivotConfig)
    requires ValidConfig(config) && WellFormedTable(rows)
    ensures var ix := Resolve(config);
            var acc := Aggregate(rows, ix);
            var keys1 := SortedSeq(PrimaryKeys(rows, ix));
            var keys2 := SortedSeq(SecondaryKeys(rows, ix));
            && StrictlySorted(keys1)
            && (forall p :: p in keys1 <==> p in PrimaryKeys(rows, ix))
            && ExpectedPivotData(rows, config).data
               == AllGroups(acc, keys1, keys2) + [OutRow(GrandTotalLabel, "", GrandTotal(acc, keys1, keys2))]
            && AscendingPairs(AllDetails(acc, keys1, keys2))
  {
    var ix := Resolve(config);
    SortedSeqFacts(PrimaryKeys(rows, ix));
    SortedSeqFacts(SecondaryKeys(rows, ix));
    AllDetailsOrdered(Aggregate(rows, ix), SortedSeq(PrimaryKeys(rows, ix)), SortedSeq(SecondaryKeys(rows, ix)));
  }

  // ---------------------------------------------------------------- row order

  lemma {:induction false} FilteredSumConcat(a: Table, b: Table, ix: Indices, p: string, s: string)
    requires ix.InRange() && WellFormedTable(a) && WellFormedTable(b)
    ensures WellFormedTable(a + b)
    ensures FilteredSum(a + b, ix, p, s) == FilteredSum(a, ix, p, s) + FilteredSum(b, ix, p, s)
    decreases |b|
  {
    var ab := a + b;
    assert WellFormedTable(ab) by {
      forall i | 0 <= i < |ab| ensures |ab[i]| >= ColumnCount {
        if i < |a| { assert ab[i] == a[i]; } else { assert ab[i] == b[i - |a|]; }
      }
    }
    if b == [] {
      assert ab == a;
    } else {
      var n := |b| - 1;
      var init := b[..n];
      assert WellFormedTable(init) by {
        forall i | 0 <= i < n ensures |init[i]| >= ColumnCount { assert init[i] == b[i]; }
      }
      FilteredSumConcat(a, init, ix, p, s);
      assert ab[..|ab| - 1] == a + init;
      assert ab[|ab| - 1] == b[n];
      var c := Contribution(b[n], ix, p, s);
      assert FilteredSum(ab, ix, p, s) == FilteredSum(a + init, ix, p, s) + c;
      assert FilteredSum(b, ix, p, s) == FilteredSum(init, ix, p, s) + c;
    }
  }

  /** Bucket sums do not depend on the order of the rows. */
  lemma {:induction false} FilteredSumPermutation(rows1: Table, rows2: Table, ix: Indices, p: string, s: string)
    requires ix.InRange() && WellFormedTable(rows1) && WellFormedTable(rows2)
    requires multiset(rows1) == multiset(rows2)
    ensures FilteredSum(rows1, ix, p, s) == FilteredSum(rows2, ix, p, s)
    decreases |rows1|
  {
    if rows1 == [] {
      assert |multiset(rows2)| == 0;
    } else {
      var n := |rows1| - 1;
      assert rows1[n] in multiset(rows2);
      var k :| 0 <= k < |rows2| && rows2[k] == rows1[n];
      MultisetWithout(rows1, rows2, k);
      FilteredSumWithout(rows2, k, ix, p, s);
      FilteredSumPermutation(rows1[..n], rows2[..k] + rows2[k + 1..], ix, p, s);
    }
  }

  /** The key sets of a table depend only on which rows it holds. */
  lemma {:induction false} KeysOfElements(rows: Table, ix: Indices)
    requires ix.InRange() && WellFormedTable(rows)
    ensures PrimaryKeys(rows, ix) == set r | r in rows && |r| >= ColumnCount :: PrimaryKey(r, ix)
    ensures SecondaryKeys(rows, ix) == set r | r in rows && |r| >= ColumnCount :: SecondaryKey(r, ix)
    decreases |rows|
  {
    if rows != [] {
      var n := |rows| - 1;
      KeysOfElements(rows[..n], ix);
      assert rows == rows[..n] + [rows[n]];
      assert forall x :: x in rows <==> x in rows[..n] || x == rows[n];
    }
  }

  lemma MultisetWithout(rows1: Table, rows2: Table, k: nat)
    requires |rows1| > 0 && k < |rows2| && rows2[k] == rows1[|rows1| - 1]
    requires multiset(rows1) == multiset(rows2)
    ensures multiset(rows1[..|rows1| - 1]) == multiset(rows2[..k] + rows2[k + 1..])
  {
    var n := |rows1| - 1;
    var x := rows1[n];
    assert rows1 == rows1[..n] + [x];
    assert multiset(rows1) == multiset(rows1[..n]) + multiset{x};
    assert rows2 == rows2[..k] + [x] + rows2[k + 1..];
    assert multiset(rows2) == multiset(rows2[..k]) + multiset{x} + multiset(rows2[k + 1..]);
    assert multiset(rows2[..k] + rows2[k + 1..]) == multiset(rows2[..k]) + multiset(rows2[k + 1..]);
    assert multiset(rows1[..n]) == multiset(rows1) - multiset{x};
    assert multiset(rows2[..k] + rows2[k + 1..]) == multiset(rows2) - multiset{x};
  }

  lemma FilteredSumSingle(r: Row, ix: Indices, p: string, s: string)
    requires ix.InRange() && |r| >= ColumnCount
    ensures WellFormedTable([r])
    ensures FilteredSum([r], ix, p, s) == Contribution(r, ix, p, s)
  {
    assert [r][..0] == [];
  }

  /** Taking one row out of a table takes its contribution out of every bucket sum. */
  lemma FilteredSumWithout(rows: Table, k: nat, ix: Indices, p: string, s: string)
    requires ix.InRange() && WellFormedTable(rows) && k < |rows|
    ensures WellFormedTable(rows[..k] + rows[k + 1..])
    ensures FilteredSum(rows, ix, p, s)
            == FilteredSum(rows[..k] + rows[k + 1..], ix, p, s) + Contribution(rows[k], ix, p, s)
  {
    var left, right, x := rows[..k], rows[k + 1..], rows[k];
    assert WellFormedTable(left) by {
      forall i | 0 <= i < |left| ensures |left[i]| >= ColumnCount { assert left[i] == rows[i]; }
    }
    assert WellFormedTable(right) by {
      forall i | 0 <= i < |right| ensures |right[i]| >= ColumnCount { assert right[i] == rows[k + 1 + i]; }
    }
    FilteredSumSingle(x, ix, p, s);
    FilteredSumConcat(left, [x], ix, p, s);
    var lx := left + [x];
    FilteredSumConcat(lx, right, ix, p, s);
    FilteredSumConcat(left, right, ix, p, s);
    assert rows == lx + right;
    assert FilteredSum(rows, ix, p, s) == FilteredSum(lx, ix, p, s) + FilteredSum(right, ix, p, s);
  }

  /** With the same rows, the two accumulators agree on every bucket of primary key `p`. */
  lemma InnerPermutation(rows1: Table, rows2: Table, ix: Indices, p: string)
    requires ix.InRange() && WellFormedTable(rows1) && WellFormedTable(rows2)
    requires multiset(rows1) == multiset(rows2)
    requires forall r :: r in rows1 <==> r in rows2
    requires p in Aggregate(rows1, ix) && p in Aggregate(rows2, ix)
    ensures Aggregate(rows1, ix)[p] == Aggregate(rows2, ix)[p]
  {
    var m1, m2 := Aggregate(rows1, ix)[p], Aggregate(rows2, ix)[p];
    forall s ensures s in m1 <==> s in m2 {
      BucketExistsIffSeen(rows1, ix, p, s);
      BucketExistsIffSeen(rows2, ix, p, s);
    }
    forall s | s in m1 ensures m1[s] == m2[s] {
      BucketIsFilteredSum(rows1, ix, p, s);
      BucketIsFilteredSum(rows2, ix, p, s);
      FilteredSumPermutation(rows1, rows2, ix, p, s);
    }
  }

  lemma SameElements(rows1: Table, rows2: Table)
    requires multiset(rows1) == multiset(rows2)
    ensures forall r :: r in rows1 <==> r in rows2
  {
    forall r ensures r in rows1 <==> r in rows2 {
      assert r in rows1 <==> r in multiset(rows1);
      assert r in rows2 <==> r in multiset(rows2);
    }
  }

  /** Tables holding the same rows, in any order and with the same repetitions, give the same accumulator and key sets. */
  lemma AggregatePermutation(rows1: Table, rows2: Table, ix: Indices)
    requires ix.InRange() && WellFormedTable(rows1) && WellFormedTable(rows2)
    requires multiset(rows1) == multiset(rows2)
    ensures PrimaryKeys(rows1, ix) == PrimaryKeys(rows2, ix)
    ensures SecondaryKeys(rows1, ix) == SecondaryKeys(rows2, ix)
    ensures Aggregate(rows1, ix) == Aggregate(rows2, ix)
  {
    SameElements(rows1, rows2);
    KeysOfElements(rows1, ix);
    KeysOfElements(rows2, ix);
    var a1, a2 := Aggregate(rows1, ix), Aggregate(rows2, ix);
    AggregateKeysArePrimaryKeys(rows1, ix);
    AggregateKeysArePrimaryKeys(rows2, ix);
    assert a1.Keys == a2.Keys;
    forall p | p in a1 ensures a1[p] == a2[p] {
      InnerPermutation(rows1, rows2, ix, p);
    }
  }

  /** Reordering the rows of the source table does not change the report. */
  lemma RowOrderIrrelevant(rows1: Table, rows2: Table, config: PivotConfig)
    requires ValidConfig(config) && WellFormedTable(rows1) && WellFormedTable(rows2)
    requires multiset(rows1) == multiset(rows2)
    ensures ExpectedPivotData(rows1, config) == ExpectedPivotData(rows2, config)
  {
    AggregatePermutation(rows1, rows2, Resolve(config));
  }

  // ---------------------------------------------------------------- a worked example

  /** Two phone sales and one shirt sale, with columns Category, Subcategory, Region, Sales. */
  const ExampleRows: Table :=
    [ [Text("Electronics"), Text("Phones"), Text("West"), Num(100)],
      [Text("Electronics"), Text("Phones"), Text("East"), Num(50)],
      [Text("Clothing"), Text("Shirts"), Text("West"), Num(30)] ]

  const ExampleConfig := PivotConfig("Category", "Subcategory", "Sales")

  lemma ExampleRowKeys()
    ensures ValidConfig(ExampleConfig) && WellFormedTable(ExampleRows)
    ensures Resolve(ExampleConfig) == Indices(0, 1, 3)
    ensures var ix := Indices(0, 1, 3);
            && PrimaryKey(ExampleRows[0], ix) == "Electronics" && SecondaryKey(ExampleRows[0], ix) == "Phones"
            && RowMeasure(ExampleRows[0], ix) == 100
            && PrimaryKey(ExampleRows[1], ix) == "Electronics" && SecondaryKey(ExampleRows[1], ix) == "Phones"
            && RowMeasure(ExampleRows[1], ix) == 50
            && PrimaryKey(ExampleRows[2], ix) == "Clothing" && SecondaryKey(ExampleRows[2], ix) == "Shirts"
            && RowMeasure(ExampleRows[2], ix) == 30
  {
  }

  lemma ExampleFirstRows()
    ensures ValidConfig(ExampleConfig) && WellFormedTable(ExampleRows)
    ensures Resolve(ExampleConfig) == Indices(0, 1, 3)
    ensures Aggregate(ExampleRows[..2], Indices(0, 1, 3)) == map["Electronics" := map["Phones" := 150]]
    ensures PrimaryKeys(ExampleRows[..2], Indices(0, 1, 3)) == {"Electronics"}
    ensures SecondaryKeys(ExampleRows[..2], Indices(0, 1, 3)) == {"Phones"}
  {
    var ix := Indices(0, 1, 3);
    ExampleRowKeys();
    assert ExampleRows[..0] == [];
    AggregateStep(ExampleRows, ix, 0);
    var m1 := Aggregate(ExampleRows[..1], ix);
    assert m1 == AddToBucket(map[], "Electronics", "Phones", 100);
    assert m1 == map["Electronics" := map["Phones" := 100]];
    AggregateStep(ExampleRows, ix, 1);
    assert Aggregate(ExampleRows[..2], ix) == AddToBucket(m1, "Electronics", "Phones", 50);
    assert map["Phones" := 100]["Phones" := 100 + 50] == map["Phones" := 150];
  }

  lemma ExampleAggregate()
    ensures ValidConfig(ExampleConfig) && WellFormedTable(ExampleRows)
    ensures Aggregate(ExampleRows, Resolve(ExampleConfig))
            == map["Electronics" := map["Phones" := 150], "Clothing" := map["Shirts" := 30]]
    ensures PrimaryKeys(ExampleRows, Resolve(ExampleConfig)) == {"Clothing", "Electronics"}
    ensures SecondaryKeys(ExampleRows, Resolve(ExampleConfig)) == {"Phones", "Shirts"}
  {
    ExampleFirstRows();
    var ix := Indices(0, 1, 3);
    AggregateStep(ExampleRows, ix, 2);
    assert ExampleRows[..3] == ExampleRows;
  }

  lemma ExampleDetails(acc: Accumulator)
    requires acc == map["Electronics" := map["Phones" := 150], "Clothing" := map["Shirts" := 30]]
    ensures DetailRows(acc, "Clothing", ["Phones", "Shirts"]) == [OutRow("Clothing", "Shirts", 30)]
    ensures DetailRows(acc, "Electronics", ["Phones", "Shirts"]) == [OutRow("Electronics", "Phones", 150)]
  {
    var keys2 := ["Phones", "Shirts"];
    assert keys2[..0] == [] && keys2[..2] == keys2;
    assert Lookup(acc, "Clothing", "Phones") == 0 && Lookup(acc, "Clothing", "Shirts") == 30;
    assert Lookup(acc, "Electronics", "Phones") == 150 && Lookup(acc, "Electronics", "Shirts") == 0;
    DetailRowsStep(acc, "Clothing", keys2, 0);
    DetailRowsStep(acc, "Clothing", keys2, 1);
    DetailRowsStep(acc, "Electronics", keys2, 0);
    DetailRowsStep(acc, "Electronics", keys2, 1);
  }

  lemma ExampleLabels()
    ensures "Clothing" + " Subtotal" == "Clothing Subtotal"
    ensures "Electronics" + " Subtotal" == "Electronics Subtotal"
  {
  }

  lemma ExampleReport(acc: Accumulator)
    requires DetailRows(acc, "Clothing", ["Phones", "Shirts"]) == [OutRow("Clothing", "Shirts", 30)]
    requires DetailRows(acc, "Electronics", ["Phones", "Shirts"]) == [OutRow("Electronics", "Phones", 150)]
    ensures ReportRows(acc, ["Clothing", "Electronics"], ["Phones", "Shirts"])
            == [ OutRow("Clothing", "Shirts", 30), OutRow("Clothing Subtotal", "", 30),
                 OutRow("Electronics", "Phones", 150), OutRow("Electronics Subtotal", "", 150),
                 OutRow(GrandTotalLabel, "", 180) ]
  {
    var keys1, keys2 := ["Clothing", "Electronics"], ["Phones", "Shirts"];
    var clothing, electronics := [OutRow("Clothing", "Shirts", 30)], [OutRow("Electronics", "Phones", 150)];
    TotalAppend([], clothing[0]);
    TotalAppend([], electronics[0]);
    assert [] + clothing == clothing && [] + electronics == electronics;
    ExampleLabels();
    assert GroupRows(acc, "Clothing", keys2) == [OutRow("Clothing", "Shirts", 30), OutRow("Clothing Subtotal", "", 30)];
    assert GroupRows(acc, "Electronics", keys2) == [OutRow("Electronics", "Phones", 150), OutRow("Electronics Subtotal", "", 150)];
    assert keys1[..0] == [] && keys1[..2] == keys1;
    GroupsStep(acc, keys1, keys2, 0);
    GroupsStep(acc, keys1, keys2, 1);
  }

  lemma ExampleKeysSorted()
    ensures SortedSeq({"Clothing", "Electronics"}) == ["Clothing", "Electronics"]
    ensures SortedSeq({"Phones", "Shirts"}) == ["Phones", "Shirts"]
  {
    assert Less("Clothing", "Electronics");
    assert Less("Phones", "Shirts");
    SortedSeqUnique(["Clothing", "Electronics"], {"Clothing", "Electronics"});
    SortedSeqUnique(["Phones", "Shirts"], {"Phones", "Shirts"});
  }

  /** The report for the example: each category's detail rows and subtotal, categories in sorted order, then the grand total. */
  lemma WorkedExample()
    ensures ValidConfig(ExampleConfig) && WellFormedTable(ExampleRows)
    ensures ExpectedPivotData(ExampleRows, ExampleConfig).data
            == [ OutRow("Clothing", "Shirts", 30), OutRow("Clothing Subtotal", "", 30),
                 OutRow("Electronics", "Phones", 150), OutRow("Electronics Subtotal", "", 150),
                 OutRow(GrandTotalLabel, "", 180) ]
  {
    ExampleAggregate();
    ExampleKeysSorted();
    ExampleDetails(Aggregate(ExampleRows, Resolve(ExampleConfig)));
    ExampleReport(Aggregate(ExampleRows, Resolve(ExampleConfig)));
  }
}
