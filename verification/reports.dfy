/** The three summary reports of the views: the cash summary by lane and
    vehicle class, the exempt summary (the same table with counts only), and
    the lane-wise cash grouping, together with the per-cell count helpers
    the views define next to them. */
module Reports {
  import opened Basics
  import opened Text
  import opened Records
  import opened Ordering
  import opened Labels
  import opened CrossTab

  /** A capture time inside the inclusive period. */
  predicate Captured(r: Transaction, start: int, end: int) {
    r.captureDate.Some? && start <= r.captureDate.value <= end
  }

  /** The filter of both lane x class summaries: the period, one pay type,
      no shift events, and only classified vehicles. */
  function SummaryQuery(start: int, end: int, payType: string): Pred {
    AllOf([CapturedFrom(start), CapturedUntil(end), PayTypeIs(Some(payType)), NotShiftEvent, CountedClass])
  }

  lemma SummaryQueryHolds(start: int, end: int, payType: string, r: Transaction)
    ensures Holds(SummaryQuery(start, end, payType), r) <==>
      && Captured(r, start, end)
      && r.payType == Some(payType)
      && r.transType !in ShiftEvents
      && r.vehicleClass !in UncountedClasses
  {
    HoldsAll5([CapturedFrom(start), CapturedUntil(end), PayTypeIs(Some(payType)), NotShiftEvent, CountedClass], r);
    ExclusionsHold(r);
  }

  /** The lane x class table of one pay type. */
  function SummaryTable(rs: seq<Transaction>, start: int, end: int, payType: string): Table {
    Tabulate(rs, SummaryQuery(start, end, payType))
  }

  /** `vehicle_class_displays`: a label for every class column. */
  function ClassDisplays(classes: seq<string>): (m: map<string, string>)
    ensures forall c :: c in m <==> c in classes
    ensures forall c :: c in m ==> m[c] == VehicleClassDisplay(Some(c))
  {
    map c | c in classes :: VehicleClassDisplay(Some(c))
  }

  /** The cash summary: the table of `CSH` rows and its column labels. */
  datatype CashSummary = CashSummary(table: Table, displays: map<string, string>)

  function LaneClassWiseReport(rs: seq<Transaction>, start: int, end: int): CashSummary {
    var t := SummaryTable(rs, start, end, Cash);
    CashSummary(t, ClassDisplays(t.classes))
  }

  // ---------------------------------------------------------------------
  // Facts shared by both summaries
  // ---------------------------------------------------------------------

  /** The summary's filter already drops rows without a class. */
  lemma SummaryHasClass(rs: seq<Transaction>, q: Pred, start: int, end: int, payType: string)
    requires q == SummaryQuery(start, end, payType)
    ensures Select(rs, And(q, Not(ClassIs(None)))) == Select(rs, q)
    ensures forall l :: Select(rs, And(LaneQuery(q, l), Not(ClassIs(None)))) == Select(rs, LaneQuery(q, l))
  {
    forall r | r in rs
      ensures Holds(And(q, Not(ClassIs(None))), r) <==> Holds(q, r)
    {
      SummaryQueryHolds(start, end, payType, r);
      HoldsAndNot(q, ClassIs(None), r);
    }
    SelectSame(rs, And(q, Not(ClassIs(None))), q);
    forall l
      ensures Select(rs, And(LaneQuery(q, l), Not(ClassIs(None)))) == Select(rs, LaneQuery(q, l))
    {
      forall r | r in rs
        ensures Holds(And(LaneQuery(q, l), Not(ClassIs(None))), r) <==> Holds(LaneQuery(q, l), r)
      {
        SummaryQueryHolds(start, end, payType, r);
        HoldsAndNot(LaneQuery(q, l), ClassIs(None), r);
      }
      SelectSame(rs, And(LaneQuery(q, l), Not(ClassIs(None))), LaneQuery(q, l));
    }
  }

  /** The dimensions are the distinct lanes and classes of the filtered
      rows, in ascending code order ("10" before "2"), and the class
      dimension never holds a violation or an empty code. */
  lemma SummaryDimensions(rs: seq<Transaction>, start: int, end: int, payType: string)
    ensures var t := SummaryTable(rs, start, end, payType);
      && Ascending(t.lanes) && StrAscending(t.classes)
      && (forall l :: l in t.lanes <==>
            exists r :: r in rs && Holds(SummaryQuery(start, end, payType), r) && r.lane == l)
      && (forall c :: c in t.classes <==>
            exists r :: r in rs && Holds(SummaryQuery(start, end, payType), r) && r.vehicleClass == Some(c))
      && (forall c :: c in t.classes ==> c != "0" && c != "")
  {
    var q := SummaryQuery(start, end, payType);
    var t := SummaryTable(rs, start, end, payType);
    forall c | c in t.classes
      ensures c != "0" && c != ""
    {
      var r :| r in Select(rs, q) && r.vehicleClass == Some(c);
      SummaryQueryHolds(start, end, payType, r);
    }
  }

  /** Grand totals count every filtered row once: the grand vehicle total is
      the number of rows that pass the filter and the grand amount their fare
      sum; each class entry is the filtered rows of that class. */
  lemma SummaryGrandIsFilteredCount(rs: seq<Transaction>, start: int, end: int, payType: string)
    ensures var q, t := SummaryQuery(start, end, payType), SummaryTable(rs, start, end, payType);
      && t.grand.totalVehicles == Count(rs, q)
      && t.grand.totalAmount == FareSum(rs, q)
      && (forall c :: c in t.classes ==>
            && t.grand.classes[c].count == Count(rs, And(q, ClassIs(Some(c))))
            && t.grand.classes[c].amount == FareSum(rs, And(q, ClassIs(Some(c)))))
  {
    var q := SummaryQuery(start, end, payType);
    TabulateGrand(rs, q);
    SummaryHasClass(rs, q, start, end, payType);
  }

  /** The shown rows are exactly the lanes with at least one filtered row,
      in lane order, each with that lane's filtered row count and fare sum. */
  lemma SummaryRows(rs: seq<Transaction>, start: int, end: int, payType: string)
    ensures var q, t := SummaryQuery(start, end, payType), SummaryTable(rs, start, end, payType);
      && Ascending(RowLanes(t.rows))
      && (forall l :: l in RowLanes(t.rows) <==> l in t.lanes && Count(rs, LaneQuery(q, l)) > 0)
      && (forall row :: row in t.rows ==>
            row.totalVehicles == Count(rs, LaneQuery(q, row.lane))
            && row.totalAmount == FareSum(rs, LaneQuery(q, row.lane)))
  {
    var q := SummaryQuery(start, end, payType);
    var t := SummaryTable(rs, start, end, payType);
    TabulateRowLanes(rs, q);
    SummaryHasClass(rs, q, start, end, payType);
    forall row | row in t.rows
      ensures row.totalVehicles == Count(rs, LaneQuery(q, row.lane))
              && row.totalAmount == FareSum(rs, LaneQuery(q, row.lane))
    {
      TabulateRows(rs, q, row);
    }
  }

  /** Different class columns never share a label. */
  lemma DisplaysDistinct(rs: seq<Transaction>, start: int, end: int, a: string, b: string)
    requires var d := LaneClassWiseReport(rs, start, end).displays; a in d && b in d && a != b
    ensures var d := LaneClassWiseReport(rs, start, end).displays; d[a] != d[b]
  {
    VehicleClassDisplayInjective(a, b);
  }

  // ---------------------------------------------------------------------
  // The exempt summary: the same table, counts only
  // ---------------------------------------------------------------------

  datatype ExemptRow = ExemptRow(
    lane: Option<string>,
    laneDisplay: string,
    totalVehicles: nat,
    classes: map<string, nat>)

  datatype ExemptSummary = ExemptSummary(
    lanes: seq<Option<string>>,
    classes: seq<string>,
    rows: seq<ExemptRow>,
    totalVehicles: nat,
    classTotals: map<string, nat>,
    displays: map<string, string>)

  function Counts(cells: map<string, Cell>): (m: map<string, nat>)
    ensures forall c :: c in m <==> c in cells
  {
    map c | c in cells :: cells[c].count
  }

  function CountsOnly(row: Row): ExemptRow {
    ExemptRow(row.lane, row.laneDisplay, row.totalVehicles, Counts(row.classes))
  }

  function CountRows(rows: seq<Row>): (r: seq<ExemptRow>)
    ensures |r| == |rows|
    ensures forall i :: 0 <= i < |rows| ==> r[i] == CountsOnly(rows[i])
  {
    if rows == [] then [] else CountRows(rows[..|rows| - 1]) + [CountsOnly(rows[|rows| - 1])]
  }

  function ExemptReport(rs: seq<Transaction>, start: int, end: int): ExemptSummary {
    var t := SummaryTable(rs, start, end, Exempt);
    ExemptSummary(t.lanes, t.classes, CountRows(t.rows), t.grand.totalVehicles, Counts(t.grand.classes), ClassDisplays(t.classes))
  }

  /** The counts of a row over a class dimension. */
  function CountSum(counts: map<string, nat>, classes: seq<string>): nat
    requires forall c :: c in classes ==> c in counts
  {
    if classes == [] then 0
    else CountSum(counts, classes[..|classes| - 1]) + counts[classes[|classes| - 1]]
  }

  function ExemptVehicles(rows: seq<ExemptRow>): nat {
    if rows == [] then 0 else ExemptVehicles(rows[..|rows| - 1]) + rows[|rows| - 1].totalVehicles
  }

  /** One class column summed over the exempt rows. */
  function ExemptColumn(rows: seq<ExemptRow>, c: string): nat {
    if rows == [] then 0
    else
      var last := rows[|rows| - 1];
      ExemptColumn(rows[..|rows| - 1], c) + (if c in last.classes then last.classes[c] else 0)
  }

  lemma {:induction false} CountSumOfCells(cells: map<string, Cell>, classes: seq<string>)
    requires forall c :: c in classes ==> c in cells
    ensures CountSum(Counts(cells), classes) == CellCountSum(cells, classes)
  {
    if classes != [] {
      CountSumOfCells(cells, classes[..|classes| - 1]);
    }
  }

  lemma {:induction false} CountRowsSums(rows: seq<Row>, c: string)
    ensures ExemptVehicles(CountRows(rows)) == RowsVehicles(rows)
    ensures ExemptColumn(CountRows(rows), c) == ColumnCount(rows, c)
  {
    if rows != [] {
      var pre := rows[..|rows| - 1];
      CountRowsSums(pre, c);
      assert CountRows(rows)[..|rows| - 1] == CountRows(pre);
    }
  }

  /** Reconciliation of the exempt summary: each row's total is the sum of
      its class counts, each class total the sum of its column, and the
      grand total the sum of the row totals and the number of filtered
      rows. */
  lemma ExemptReconciles(rs: seq<Transaction>, start: int, end: int)
    ensures var e := ExemptReport(rs, start, end);
      && (forall row :: row in e.rows ==>
            (forall c :: c in e.classes ==> c in row.classes) && row.totalVehicles == CountSum(row.classes, e.classes))
      && (forall c :: c in e.classes ==> c in e.classTotals && e.classTotals[c] == ExemptColumn(e.rows, c))
      && e.totalVehicles == ExemptVehicles(e.rows)
      && e.totalVehicles == Count(rs, SummaryQuery(start, end, Exempt))
  {
    var q := SummaryQuery(start, end, Exempt);
    var t := SummaryTable(rs, start, end, Exempt);
    var e := ExemptReport(rs, start, end);
    TabulateGrand(rs, q);
    SummaryGrandIsFilteredCount(rs, start, end, Exempt);
    forall row | row in e.rows
      ensures (forall c :: c in e.classes ==> c in row.classes) && row.totalVehicles == CountSum(row.classes, e.classes)
    {
      var i :| 0 <= i < |e.rows| && e.rows[i] == row;
      var full := t.rows[i];
      TabulateRowSums(rs, q, full);
      CountSumOfCells(full.classes, t.classes);
    }
    forall c | c in e.classes
      ensures c in e.classTotals && e.classTotals[c] == ExemptColumn(e.rows, c)
    {
      CountRowsSums(t.rows, c);
    }
    CountRowsSums(t.rows, "");
  }

  function ExemptLanes(rows: seq<ExemptRow>): (r: seq<Option<string>>)
    ensures |r| == |rows|
    ensures forall i :: 0 <= i < |rows| ==> r[i] == rows[i].lane
  {
    seq(|rows|, i requires 0 <= i < |rows| => rows[i].lane)
  }

  /** The exempt rows are the lanes with at least one filtered exempt row,
      in lane order. */
  lemma ExemptRowLanes(rs: seq<Transaction>, start: int, end: int)
    ensures var q, e := SummaryQuery(start, end, Exempt), ExemptReport(rs, start, end);
      && Ascending(ExemptLanes(e.rows))
      && (forall l :: l in ExemptLanes(e.rows) <==> l in e.lanes && Count(rs, LaneQuery(q, l)) > 0)
  {
    var t := SummaryTable(rs, start, end, Exempt);
    var e := ExemptReport(rs, start, end);
    SummaryRows(rs, start, end, Exempt);
    assert ExemptLanes(e.rows) == RowLanes(t.rows);
  }

  /** Each exempt row counts its lane's filtered rows, in total and per
      class. */
  lemma ExemptRowCounts(rs: seq<Transaction>, start: int, end: int, row: ExemptRow)
    requires row in ExemptReport(rs, start, end).rows
    ensures var q, e := SummaryQuery(start, end, Exempt), ExemptReport(rs, start, end);
      && row.totalVehicles == Count(rs, LaneQuery(q, row.lane))
      && (forall c :: c in e.classes ==> c in row.classes && row.classes[c] == Count(rs, CellQuery(q, row.lane, c)))
  {
    var q := SummaryQuery(start, end, Exempt);
    var t := SummaryTable(rs, start, end, Exempt);
    var e := ExemptReport(rs, start, end);
    var i :| 0 <= i < |e.rows| && e.rows[i] == row;
    var full := t.rows[i];
    assert full in t.rows;
    SummaryRows(rs, start, end, Exempt);
    TabulateRows(rs, q, full);
  }

  // ---------------------------------------------------------------------
  // The lane-wise cash grouping
  // ---------------------------------------------------------------------

  /** `.values('lane').annotate(transaction_count=Count('vehicle_class'),
      total_fare=Sum('fare'))`: one entry per lane. */
  datatype LaneTotal = LaneTotal(lane: Option<string>, transactionCount: nat, totalFare: Option<int>)

  /** The lane-wise filter: the period, cash only, no shift events, no
      violations (unclassified rows stay). */
  function LaneWiseQuery(start: int, end: int): Pred {
    AllOf([CapturedFrom(start), CapturedUntil(end), PayTypeIs(Some(Cash)), NotShiftEvent, NotViolation])
  }

  /** `Count` of a column skips rows where it is absent. */
  const HasClass: Pred := Not(ClassIs(None))

  /** SQL's `SUM`: absent when no row has a fare. */
  function SumOrNull(rs: seq<Transaction>, p: Pred): (s: Option<int>)
    ensures s.None? ==> FareSum(rs, p) == 0
    ensures s.Some? ==> s.value == FareSum(rs, p)
  {
    if Count(rs, And(p, Not(FareIsNull))) == 0 then
      NullFaresSumZero(rs, p);
      None
    else Some(FareSum(rs, p))
  }

  function LaneTotalOf(rs: seq<Transaction>, q: Pred, l: Option<string>): LaneTotal {
    LaneTotal(l, Count(rs, LaneQuery(And(q, HasClass), l)), SumOrNull(rs, LaneQuery(q, l)))
  }

  function LaneTotals(rs: seq<Transaction>, q: Pred, lanes: seq<Option<string>>): (r: seq<LaneTotal>)
    ensures |r| == |lanes|
    ensures forall i :: 0 <= i < |lanes| ==> r[i] == LaneTotalOf(rs, q, lanes[i])
  {
    if lanes == [] then [] else LaneTotals(rs, q, lanes[..|lanes| - 1]) + [LaneTotalOf(rs, q, lanes[|lanes| - 1])]
  }

  /** The groups in `.order_by('lane')`: the distinct lanes of the filtered
      rows, absent lane first. */
  function LaneWiseReport(rs: seq<Transaction>, start: int, end: int): seq<LaneTotal> {
    var q := LaneWiseQuery(start, end);
    LaneTotals(rs, q, LanesPresent(Select(rs, q)))
  }

  function TotalCount(ts: seq<LaneTotal>): nat {
    if ts == [] then 0 else TotalCount(ts[..|ts| - 1]) + ts[|ts| - 1].transactionCount
  }

  function TotalFare(ts: seq<LaneTotal>): int {
    if ts == [] then 0 else TotalFare(ts[..|ts| - 1]) + ts[|ts| - 1].totalFare.GetOr(0)
  }

  lemma {:induction false} LaneTotalsSum(rs: seq<Transaction>, q: Pred, lanes: seq<Option<string>>)
    requires Distinct(lanes)
    ensures TotalCount(LaneTotals(rs, q, lanes)) == Count(rs, And(And(q, HasClass), LaneIn(LaneSet(lanes))))
    ensures TotalFare(LaneTotals(rs, q, lanes)) == FareSum(rs, And(q, LaneIn(LaneSet(lanes))))
  {
    var ts := LaneTotals(rs, q, lanes);
    if lanes == [] {
      SelectNone(rs, And(And(q, HasClass), LaneIn(LaneSet(lanes))));
      SelectNone(rs, And(q, LaneIn(LaneSet(lanes))));
    } else {
      var pre, l := lanes[..|lanes| - 1], lanes[|lanes| - 1];
      assert lanes == pre + [l];
      assert Distinct(pre) && l !in pre;
      LaneTotalsSum(rs, q, pre);
      assert ts[..|ts| - 1] == LaneTotals(rs, q, pre);
      LaneUnion(rs, And(q, HasClass), pre, l);
      LaneUnion(rs, q, pre, l);
    }
  }

  /** The lane-wise grouping lists each lane of the filtered rows once, in
      lane order with the absent lane first. */
  lemma LaneWiseLanes(rs: seq<Transaction>, start: int, end: int)
    ensures var q, ts := LaneWiseQuery(start, end), LaneWiseReport(rs, start, end);
      var ls := LanesPresent(Select(rs, q));
      && |ts| == |ls| && (forall i :: 0 <= i < |ts| ==> ts[i].lane == ls[i])
      && Ascending(ls) && Distinct(ls)
      && (forall l :: l in ls <==> exists r :: r in rs && Holds(q, r) && r.lane == l)
  {
  }

  /** The lane-wise counts add up to the filtered rows that have a class,
      and the lane fares to the fare sum of the filtered rows. */
  lemma LaneWiseTotals(rs: seq<Transaction>, start: int, end: int)
    ensures var q, ts := LaneWiseQuery(start, end), LaneWiseReport(rs, start, end);
      && TotalCount(ts) == Count(rs, And(q, HasClass))
      && TotalFare(ts) == FareSum(rs, q)
  {
    var q := LaneWiseQuery(start, end);
    var lanes := LanesPresent(Select(rs, q));
    LaneTotalsSum(rs, q, lanes);
    AllLanesSame(rs, q, q);
    forall r | r in rs && Holds(And(q, HasClass), r)
      ensures Holds(q, r)
    {
    }
    AllLanesSame(rs, q, And(q, HasClass));
  }

  /** SQL's `SUM` is absent exactly when none of the rows has a fare. */
  lemma SumOrNullAbsent(rs: seq<Transaction>, p: Pred)
    ensures SumOrNull(rs, p).None? <==> forall r :: r in rs && Holds(p, r) ==> r.fare.None?
  {
    var sel := Select(rs, And(p, Not(FareIsNull)));
    if SumOrNull(rs, p).None? {
      forall r | r in rs && Holds(p, r)
        ensures r.fare.None?
      {
        HoldsAndNot(p, FareIsNull, r);
      }
    } else {
      assert sel[0] in sel;
      HoldsAndNot(p, FareIsNull, sel[0]);
    }
  }

  /** A lane's total fare is absent exactly when none of its rows has a
      fare. */
  lemma LaneFareAbsent(rs: seq<Transaction>, start: int, end: int, i: nat)
    requires i < |LaneWiseReport(rs, start, end)|
    ensures var q, t := LaneWiseQuery(start, end), LaneWiseReport(rs, start, end)[i];
      t.totalFare.None? <==> forall r :: r in rs && Holds(LaneQuery(q, t.lane), r) ==> r.fare.None?
  {
    var q := LaneWiseQuery(start, end);
    var t := LaneWiseReport(rs, start, end)[i];
    SumOrNullAbsent(rs, LaneQuery(q, t.lane));
  }

  // ---------------------------------------------------------------------
  // The views' per-cell count helpers
  // ---------------------------------------------------------------------

  /** `get_class_type_count`: one lane's cash rows of one class in the
      period; only violations are excluded. */
  function ClassTypeCount(rs: seq<Transaction>, vehicleClass: Option<string>, lane: Option<string>, maxDate: int, minDate: int): nat {
    Count(rs, AllOf([CapturedUntil(maxDate), CapturedFrom(minDate), LaneIs(lane), ClassIs(vehicleClass),
                     PayTypeIs(Some(Cash)), NotShiftEvent, NotViolation]))
  }

  /** `get_exempt_by_lane_count` of the views: one lane's exempt rows in the
      period; only violations are excluded, so unclassified rows count. */
  function ExemptByLaneCount(rs: seq<Transaction>, lane: Option<string>, maxDate: int, minDate: int): nat {
    Count(rs, AllOf([CapturedUntil(maxDate), CapturedFrom(minDate), LaneIs(lane), PayTypeIs(Some(Exempt)),
                     NotShiftEvent, NotViolation]))
  }

  /** `get_exempt_by_class_count` of the views. */
  function ExemptByClassCount(rs: seq<Transaction>, vehicleClass: Option<string>, lane: Option<string>, maxDate: int, minDate: int): nat {
    Count(rs, AllOf([CapturedUntil(maxDate), CapturedFrom(minDate), LaneIs(lane), ClassIs(vehicleClass),
                     PayTypeIs(Some(Exempt)), NotShiftEvent, NotViolation]))
  }

  /** For a proper class code, the helper's count is the summary's cell. */
  lemma HelperIsCell(rs: seq<Transaction>, payType: string, c: string, lane: Option<string>, start: int, end: int)
    requires c != "0" && c != ""
    ensures Count(rs, AllOf([CapturedUntil(end), CapturedFrom(start), LaneIs(lane), ClassIs(Some(c)),
                             PayTypeIs(Some(payType)), NotShiftEvent, NotViolation]))
         == Count(rs, CellQuery(SummaryQuery(start, end, payType), lane, c))
  {
    var ps := [CapturedUntil(end), CapturedFrom(start), LaneIs(lane), ClassIs(Some(c)),
               PayTypeIs(Some(payType)), NotShiftEvent, NotViolation];
    var q := SummaryQuery(start, end, payType);
    forall r | r in rs
      ensures Holds(AllOf(ps), r) <==> Holds(CellQuery(q, lane, c), r)
    {
      HoldsAll7(ps, r);
      ExclusionsHold(r);
      SummaryQueryHolds(start, end, payType, r);
      HoldsAnd3(q, LaneIs(lane), ClassIs(Some(c)), r);
    }
    SelectSame(rs, AllOf(ps), CellQuery(q, lane, c));
  }

  /** `get_class_type_count` for a class column of the cash summary is that
      column's cell count. */
  lemma ClassTypeCountIsCell(rs: seq<Transaction>, c: string, lane: Option<string>, start: int, end: int)
    requires c in SummaryTable(rs, start, end, Cash).classes
    ensures ClassTypeCount(rs, Some(c), lane, end, start) == Count(rs, CellQuery(SummaryQuery(start, end, Cash), lane, c))
  {
    SummaryDimensions(rs, start, end, Cash);
    HelperIsCell(rs, Cash, c, lane, start, end);
  }

  /** `get_exempt_by_class_count` of the views for a class column of the
      exempt summary is that column's cell count. */
  lemma ExemptByClassCountIsCell(rs: seq<Transaction>, c: string, lane: Option<string>, start: int, end: int)
    requires c in SummaryTable(rs, start, end, Exempt).classes
    ensures ExemptByClassCount(rs, Some(c), lane, end, start) == Count(rs, CellQuery(SummaryQuery(start, end, Exempt), lane, c))
  {
    SummaryDimensions(rs, start, end, Exempt);
    HelperIsCell(rs, Exempt, c, lane, start, end);
  }

  /** The views' lane helper counts the lane's exempt summary rows plus its
      exempt rows whose class is empty or absent, which the summary leaves
      out. */
  lemma ExemptByLaneCountSplit(rs: seq<Transaction>, lane: Option<string>, start: int, end: int)
    ensures ExemptByLaneCount(rs, lane, end, start)
         == Count(rs, LaneQuery(SummaryQuery(start, end, Exempt), lane))
          + Count(rs, AllOf([CapturedFrom(start), CapturedUntil(end), LaneIs(lane), PayTypeIs(Some(Exempt)),
                             NotShiftEvent, ClassIn({Some(""), None})]))
  {
    var ps := [CapturedUntil(end), CapturedFrom(start), LaneIs(lane), PayTypeIs(Some(Exempt)), NotShiftEvent, NotViolation];
    var us := [CapturedFrom(start), CapturedUntil(end), LaneIs(lane), PayTypeIs(Some(Exempt)), NotShiftEvent, ClassIn({Some(""), None})];
    var q := SummaryQuery(start, end, Exempt);
    forall r | r in rs
      ensures (Holds(AllOf(ps), r) <==> Holds(LaneQuery(q, lane), r) || Holds(AllOf(us), r))
      ensures !(Holds(LaneQuery(q, lane), r) && Holds(AllOf(us), r))
    {
      HoldsAll6(ps, r);
      HoldsAll6(us, r);
      ExclusionsHold(r);
      SummaryQueryHolds(start, end, Exempt, r);
    }
    SelectSplit(rs, LaneQuery(q, lane), AllOf(us), AllOf(ps));
  }
}
