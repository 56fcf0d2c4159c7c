/** The template filters the report pages use: the running row number across
    pages, the exempt counts per lane and per lane and class, and dictionary
    lookup. */
module TemplateTags {
  import opened Basics
  import opened Records
  import opened Ordering
  import opened Paging
  import opened CrossTab
  import opened Reports

  // ---------------------------------------------------------------------
  // sequential_number
  // ---------------------------------------------------------------------

  /** `sequential_number(page_obj, counter)`: `None` stands for a value that
      is not a page (it has no number or no paginator); the loop counter is
      then returned as it is. */
  function SequentialNumber<T>(page: Option<Page<T>>, counter: int): (n: int)
    ensures page.None? ==> n == counter
  {
    match page
    case Some(p) => (p.number - 1) * p.perPage + counter
    case None => counter
  }

  /** The number shown next to the `counter`-th row of a page is that row's
      1-based position in the whole listing. */
  lemma SequentialNumberIsPosition<T>(xs: seq<T>, perPage: nat, requested: Option<int>, counter: int)
    requires perPage > 0
    requires 1 <= counter <= |PageOf(xs, perPage, requested).items|
    ensures var p := PageOf(xs, perPage, requested);
      var n := SequentialNumber(Some(p), counter);
      && 1 <= n <= |xs|
      && xs[n - 1] == p.items[counter - 1]
  {
    var p := PageOf(xs, perPage, requested);
    PositionOnPage(xs, p, counter);
  }

  lemma PositionOnPage<T>(xs: seq<T>, p: Page<T>, counter: int)
    requires p.perPage > 0 && p.number >= 1
    requires p.items == PageItems(xs, p.perPage, p.number)
    requires 1 <= counter <= |p.items|
    ensures var n := SequentialNumber(Some(p), counter);
      && 1 <= n <= |xs|
      && xs[n - 1] == p.items[counter - 1]
  {
    var k: nat := p.number - 1;
    MulMonotone(0, k, p.perPage);
    PageItemAt(xs, p.perPage, p.number, counter - 1);
    assert SequentialNumber(Some(p), counter) == k * p.perPage + counter;
  }

  /** Numbers on pages of one size never collide: two rows get the same
      number exactly when they are the same row of the same page. */
  lemma SequentialNumberUnique<T>(p1: Page<T>, p2: Page<T>, c1: int, c2: int)
    requires p1.perPage == p2.perPage && p1.perPage > 0
    requires p1.number >= 1 && p2.number >= 1
    requires 1 <= c1 <= p1.perPage && 1 <= c2 <= p2.perPage
    ensures SequentialNumber(Some(p1), c1) == SequentialNumber(Some(p2), c2) <==> p1.number == p2.number && c1 == c2
  {
    var per := p1.perPage;
    if p1.number < p2.number {
      PagesApart(p1.number, p2.number, per);
    } else if p2.number < p1.number {
      PagesApart(p2.number, p1.number, per);
    }
  }

  /** A later page starts at least a whole page further on. */
  lemma PagesApart(k1: nat, k2: nat, per: nat)
    requires 1 <= k1 < k2
    ensures (k1 - 1) * per + per <= (k2 - 1) * per
  {
    MulMonotone(k1, k2 - 1, per);
    assert (k1 - 1) * per + per == k1 * per;
  }

  /** Numbering carries on from one page to the next: the first row of page
      1 is number 1, and the first row of page k + 1 follows the last row of
      a full page k. */
  lemma SequentialNumberContiguous<T>(p1: Page<T>, p2: Page<T>)
    requires p1.perPage == p2.perPage
    requires p2.number == p1.number + 1
    ensures SequentialNumber(Some(p1), p1.perPage) + 1 == SequentialNumber(Some(p2), 1)
    ensures p1.number == 1 ==> SequentialNumber(Some(p1), 1) == 1
  {
    assert (p2.number - 1) * p2.perPage == (p1.number - 1) * p1.perPage + p1.perPage;
  }

  // ---------------------------------------------------------------------
  // get_exempt_by_lane_count and get_exempt_by_class_count
  // ---------------------------------------------------------------------

  /** The lane filter: one lane's exempt rows in the period, without shift
      events, violations or unclassified rows. */
  function LaneTagQuery(lane: Option<string>, maxDate: int, minDate: int): Pred {
    AllOf([CapturedUntil(maxDate), CapturedFrom(minDate), LaneIs(lane), PayTypeIs(Some(Exempt)),
           NotShiftEvent, CountedClass])
  }

  /** The lane and class filter. */
  function ClassTagQuery(lane: Option<string>, vehicleClass: Option<string>, maxDate: int, minDate: int): Pred {
    AllOf([CapturedUntil(maxDate), CapturedFrom(minDate), LaneIs(lane), ClassIs(vehicleClass),
           PayTypeIs(Some(Exempt)), NotShiftEvent, CountedClass])
  }

  /** The `get_exempt_by_lane_count` filter. */
  function ExemptByLaneTag(rs: seq<Transaction>, lane: Option<string>, maxDate: int, minDate: int): nat {
    Count(rs, LaneTagQuery(lane, maxDate, minDate))
  }

  /** The `get_exempt_by_class_count` filter. */
  function ExemptByClassTag(rs: seq<Transaction>, lane: Option<string>, vehicleClass: Option<string>, maxDate: int, minDate: int): nat {
    Count(rs, ClassTagQuery(lane, vehicleClass, maxDate, minDate))
  }

  lemma LaneTagHolds(lane: Option<string>, start: int, end: int, r: Transaction)
    ensures Holds(LaneTagQuery(lane, end, start), r) <==> Holds(LaneQuery(SummaryQuery(start, end, Exempt), lane), r)
  {
    HoldsAll6([CapturedUntil(end), CapturedFrom(start), LaneIs(lane), PayTypeIs(Some(Exempt)), NotShiftEvent, CountedClass], r);
    ExclusionsHold(r);
    SummaryQueryHolds(start, end, Exempt, r);
  }

  lemma ClassTagHolds(lane: Option<string>, x: Option<string>, start: int, end: int, r: Transaction)
    ensures Holds(ClassTagQuery(lane, x, end, start), r) <==>
      Holds(LaneQuery(SummaryQuery(start, end, Exempt), lane), r) && r.vehicleClass == x
  {
    HoldsAll7([CapturedUntil(end), CapturedFrom(start), LaneIs(lane), ClassIs(x), PayTypeIs(Some(Exempt)),
               NotShiftEvent, CountedClass], r);
    ExclusionsHold(r);
    SummaryQueryHolds(start, end, Exempt, r);
  }

  /** The lane filter selects exactly the rows of that lane in the exempt
      summary's filter. */
  lemma LaneTagIsLaneCount(rs: seq<Transaction>, lane: Option<string>, start: int, end: int)
    ensures ExemptByLaneTag(rs, lane, end, start) == Count(rs, LaneQuery(SummaryQuery(start, end, Exempt), lane))
  {
    forall r | r in rs
      ensures Holds(LaneTagQuery(lane, end, start), r) <==> Holds(LaneQuery(SummaryQuery(start, end, Exempt), lane), r)
    {
      LaneTagHolds(lane, start, end, r);
    }
    SelectSame(rs, LaneTagQuery(lane, end, start), LaneQuery(SummaryQuery(start, end, Exempt), lane));
  }

  /** The lane count is the exempt summary's row total for that lane, and 0
      for a lane the summary does not show. */
  lemma LaneTagMatchesReport(rs: seq<Transaction>, lane: Option<string>, start: int, end: int)
    ensures var e := ExemptReport(rs, start, end);
      && (forall row :: row in e.rows && row.lane == lane ==> row.totalVehicles == ExemptByLaneTag(rs, lane, end, start))
      && (lane !in ExemptLanes(e.rows) ==> ExemptByLaneTag(rs, lane, end, start) == 0)
  {
    var e := ExemptReport(rs, start, end);
    LaneTagIsLaneCount(rs, lane, start, end);
    forall row | row in e.rows && row.lane == lane
      ensures row.totalVehicles == ExemptByLaneTag(rs, lane, end, start)
    {
      ExemptRowCounts(rs, start, end, row);
    }
    if lane !in ExemptLanes(e.rows) {
      HiddenLaneIsEmpty(rs, lane, start, end);
    }
  }

  lemma HiddenLaneIsEmpty(rs: seq<Transaction>, lane: Option<string>, start: int, end: int)
    requires lane !in ExemptLanes(ExemptReport(rs, start, end).rows)
    ensures Count(rs, LaneQuery(SummaryQuery(start, end, Exempt), lane)) == 0
  {
    var q := SummaryQuery(start, end, Exempt);
    ExemptRowLanes(rs, start, end);
    if lane !in LanesPresent(Select(rs, q)) {
      LaneOutsideDimension(rs, q, lane);
    }
  }

  /** A lane no selected row has selects nothing. */
  lemma LaneOutsideDimension(rs: seq<Transaction>, q: Pred, lane: Option<string>)
    requires lane !in LanesPresent(Select(rs, q))
    ensures Count(rs, LaneQuery(q, lane)) == 0
  {
    forall r | r in rs
      ensures !Holds(LaneQuery(q, lane), r)
    {
      if Holds(q, r) {
        InDimensions(rs, q, r);
      }
    }
    SelectNone(rs, LaneQuery(q, lane));
  }

  /** For a proper class code the class count is the exempt summary's cell;
      for a violation, an empty or an absent class it is 0. */
  lemma ClassTagIsCell(rs: seq<Transaction>, lane: Option<string>, x: Option<string>, start: int, end: int)
    ensures x.Some? && x.value != "0" && x.value != "" ==>
      ExemptByClassTag(rs, lane, x, end, start) == Count(rs, CellQuery(SummaryQuery(start, end, Exempt), lane, x.value))
    ensures x in UncountedClasses ==> ExemptByClassTag(rs, lane, x, end, start) == 0
  {
    var q := SummaryQuery(start, end, Exempt);
    if x.Some? && x.value != "0" && x.value != "" {
      forall r | r in rs
        ensures Holds(ClassTagQuery(lane, x, end, start), r) <==> Holds(CellQuery(q, lane, x.value), r)
      {
        ClassTagHolds(lane, x, start, end, r);
      }
      SelectSame(rs, ClassTagQuery(lane, x, end, start), CellQuery(q, lane, x.value));
    }
    if x in UncountedClasses {
      forall r | r in rs
        ensures !Holds(ClassTagQuery(lane, x, end, start), r)
      {
        ClassTagHolds(lane, x, start, end, r);
        SummaryQueryHolds(start, end, Exempt, r);
      }
      SelectNone(rs, ClassTagQuery(lane, x, end, start));
    }
  }

  /** The class counts of one lane over a list of classes. */
  function ClassTagSum(rs: seq<Transaction>, lane: Option<string>, classes: seq<string>, maxDate: int, minDate: int): nat {
    if classes == [] then 0
    else ClassTagSum(rs, lane, classes[..|classes| - 1], maxDate, minDate)
         + ExemptByClassTag(rs, lane, Some(classes[|classes| - 1]), maxDate, minDate)
  }

  lemma {:induction false} ClassTagSumIsCellSum(rs: seq<Transaction>, lane: Option<string>, cells: map<string, Cell>,
                                                 classes: seq<string>, maxDate: int, minDate: int)
    requires forall c :: c in classes ==> c in cells && cells[c].count == ExemptByClassTag(rs, lane, Some(c), maxDate, minDate)
    ensures ClassTagSum(rs, lane, classes, maxDate, minDate) == CellCountSum(cells, classes)
  {
    if classes != [] {
      ClassTagSumIsCellSum(rs, lane, cells, classes[..|classes| - 1], maxDate, minDate);
    }
  }

  /** A lane's count is the sum of its class counts over the exempt
      summary's classes, for every lane, shown or not. */
  lemma LaneTagIsClassSum(rs: seq<Transaction>, lane: Option<string>, start: int, end: int)
    ensures ExemptByLaneTag(rs, lane, end, start) == ClassTagSum(rs, lane, ExemptReport(rs, start, end).classes, end, start)
  {
    var q := SummaryQuery(start, end, Exempt);
    var t := SummaryTable(rs, start, end, Exempt);
    var classes := t.classes;
    SummaryDimensions(rs, start, end, Exempt);
    StrAscendingIsDistinct(classes);
    BuildRowFacts(rs, q, lane, classes);
    RowIsLaneCount(rs, q, lane);
    SummaryHasClass(rs, q, start, end, Exempt);
    LaneTagIsLaneCount(rs, lane, start, end);
    var row := BuildRow(rs, q, lane, classes);
    forall c | c in classes
      ensures c in row.classes && row.classes[c].count == ExemptByClassTag(rs, lane, Some(c), end, start)
    {
      ClassTagIsCell(rs, lane, Some(c), start, end);
    }
    ClassTagSumIsCellSum(rs, lane, row.classes, classes, end, start);
  }

  // ---------------------------------------------------------------------
  // get_item
  // ---------------------------------------------------------------------

  /** `dictionary.get(key)`: the mapped value, or `None` for a missing key. */
  function GetItem<K, V>(m: map<K, V>, key: K): (v: Option<V>)
    ensures v.Some? <==> key in m
    ensures v.Some? ==> v.value == m[key]
  {
    if key in m then Some(m[key]) else None
  }

  /** In the exempt page every class column has a label and every shown row
      a count for it: the lookups the template makes never come back empty. */
  lemma ExemptLookupsFound(rs: seq<Transaction>, start: int, end: int, row: ExemptRow, c: string)
    requires row in ExemptReport(rs, start, end).rows
    requires c in ExemptReport(rs, start, end).classes
    ensures var e := ExemptReport(rs, start, end);
      && GetItem(e.displays, c) == Some(Labels.VehicleClassDisplay(Some(c)))
      && GetItem(row.classes, c) == Some(ExemptByClassTag(rs, row.lane, Some(c), end, start))
      && GetItem(e.classTotals, c).Some?
  {
    SummaryDimensions(rs, start, end, Exempt);
    ExemptRowCounts(rs, start, end, row);
    ClassTagIsCell(rs, row.lane, Some(c), start, end);
    ExemptReconciles(rs, start, end);
  }
}
