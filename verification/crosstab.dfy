/** The lane x vehicle-class cross-tabulation shared by the cash summary and
    the exempt summary. Given a base query `q`, the lane and class dimensions
    are the distinct values found in the selected rows; the loops then fill
    one cell per (lane, class), sum each lane into a row, add every row into
    the grand totals, and keep only rows whose vehicle total is positive.

    The functions follow the loops of the views exactly (lanes outer, classes
    inner, grand totals accumulated for every lane, kept or not); the lemmas
    state the reconciliation the report promises. */
module CrossTab {
  import opened Basics
  import opened Records
  import opened Ordering
  import opened Labels

  /** One (lane, class) cell: how many rows and their fare sum in cents. */
  datatype Cell = Cell(count: nat, amount: int)

  datatype Row = Row(
    lane: Option<string>,
    laneDisplay: string,
    totalVehicles: nat,
    totalAmount: int,
    classes: map<string, Cell>)

  datatype Totals = Totals(totalVehicles: nat, totalAmount: int, classes: map<string, Cell>)

  datatype Table = Table(
    lanes: seq<Option<string>>,
    classes: seq<string>,
    rows: seq<Row>,
    grand: Totals)

  function AddCell(a: Cell, b: Cell): Cell {
    Cell(a.count + b.count, a.amount + b.amount)
  }

  /** The class codes of a dimension as column values. */
  function ClassSet(classes: seq<string>): set<Option<string>> {
    set c | c in classes :: Some(c)
  }

  lemma ClassSetMember(classes: seq<string>, x: Option<string>)
    ensures x in ClassSet(classes) <==> x.Some? && x.value in classes
  {
  }

  function LaneQuery(q: Pred, lane: Option<string>): Pred {
    And(q, LaneIs(lane))
  }

  function CellQuery(q: Pred, lane: Option<string>, c: string): Pred {
    And(LaneQuery(q, lane), ClassIs(Some(c)))
  }

  /** `class_transactions.count()` and `Sum('fare') or 0` for one cell. */
  function CellOf(rs: seq<Transaction>, q: Pred, lane: Option<string>, c: string): Cell {
    Cell(Count(rs, CellQuery(q, lane, c)), FareSum(rs, CellQuery(q, lane, c)))
  }

  /** One lane's row: the loop over the class dimension. */
  function BuildRow(rs: seq<Transaction>, q: Pred, lane: Option<string>, classes: seq<string>): (row: Row)
    ensures row.lane == lane && row.laneDisplay == LaneDisplay(lane)
    ensures forall c :: c in row.classes <==> c in classes
    decreases |classes|
  {
    if classes == [] then Row(lane, LaneDisplay(lane), 0, 0, map[])
    else
      var row := BuildRow(rs, q, lane, classes[..|classes| - 1]);
      var c := classes[|classes| - 1];
      var cell := CellOf(rs, q, lane, c);
      row.(totalVehicles := row.totalVehicles + cell.count,
           totalAmount := row.totalAmount + cell.amount,
           classes := row.classes[c := cell])
  }

  /** The grand totals before any lane is added: 0 for every class. */
  function ZeroTotals(classes: seq<string>): Totals {
    Totals(0, 0, map c | c in classes :: Cell(0, 0))
  }

  /** Adds one lane's row into the grand totals. */
  function Accumulate(g: Totals, row: Row): (r: Totals)
    ensures forall c :: c in r.classes <==> c in g.classes
    ensures forall c :: c in g.classes && c in row.classes ==> r.classes[c] == AddCell(g.classes[c], row.classes[c])
  {
    Totals(
      g.totalVehicles + row.totalVehicles,
      g.totalAmount + row.totalAmount,
      map c | c in g.classes :: if c in row.classes then AddCell(g.classes[c], row.classes[c]) else g.classes[c])
  }

  /** The loop over the lane dimension, grand totals part: every lane's
      row is added, whether it is kept or not. */
  function GrandTotals(rs: seq<Transaction>, q: Pred, lanes: seq<Option<string>>, classes: seq<string>): (g: Totals)
    ensures forall c :: c in g.classes <==> c in classes
    decreases |lanes|
  {
    if lanes == [] then ZeroTotals(classes)
    else Accumulate(GrandTotals(rs, q, lanes[..|lanes| - 1], classes), BuildRow(rs, q, lanes[|lanes| - 1], classes))
  }

  /** The loop over the lane dimension, output part: a lane's row is
      appended only when its vehicle total is positive. */
  function KeptRows(rs: seq<Transaction>, q: Pred, lanes: seq<Option<string>>, classes: seq<string>): (kept: seq<Row>)
    decreases |lanes|
  {
    if lanes == [] then []
    else
      var kept := KeptRows(rs, q, lanes[..|lanes| - 1], classes);
      var row := BuildRow(rs, q, lanes[|lanes| - 1], classes);
      if row.totalVehicles > 0 then kept + [row] else kept
  }

  /** The whole cross-tabulation of the rows selected by `q`. */
  function Tabulate(rs: seq<Transaction>, q: Pred): Table {
    var base := Select(rs, q);
    var lanes := LanesPresent(base);
    var classes := ClassesPresent(base);
    Table(lanes, classes, KeptRows(rs, q, lanes, classes), GrandTotals(rs, q, lanes, classes))
  }

  // ---------------------------------------------------------------------
  // Sums the report promises
  // ---------------------------------------------------------------------

  /** The vehicle counts of a row's cells over a class dimension. */
  function CellCountSum(cells: map<string, Cell>, classes: seq<string>): nat
    requires forall c :: c in classes ==> c in cells
  {
    if classes == [] then 0
    else CellCountSum(cells, classes[..|classes| - 1]) + cells[classes[|classes| - 1]].count
  }

  /** The fare amounts of a row's cells over a class dimension. */
  function CellAmountSum(cells: map<string, Cell>, classes: seq<string>): int
    requires forall c :: c in classes ==> c in cells
  {
    if classes == [] then 0
    else CellAmountSum(cells, classes[..|classes| - 1]) + cells[classes[|classes| - 1]].amount
  }

  function RowsVehicles(rows: seq<Row>): nat {
    if rows == [] then 0 else RowsVehicles(rows[..|rows| - 1]) + rows[|rows| - 1].totalVehicles
  }

  function RowsAmount(rows: seq<Row>): int {
    if rows == [] then 0 else RowsAmount(rows[..|rows| - 1]) + rows[|rows| - 1].totalAmount
  }

  /** One class column summed over rows (0 where a row lacks the class). */
  function ColumnCount(rows: seq<Row>, c: string): nat {
    if rows == [] then 0
    else
      var last := rows[|rows| - 1];
      ColumnCount(rows[..|rows| - 1], c) + (if c in last.classes then last.classes[c].count else 0)
  }

  function ColumnAmount(rows: seq<Row>, c: string): int {
    if rows == [] then 0
    else
      var last := rows[|rows| - 1];
      ColumnAmount(rows[..|rows| - 1], c) + (if c in last.classes then last.classes[c].amount else 0)
  }

  function RowLanes(rows: seq<Row>): (r: seq<Option<string>>)
    ensures |r| == |rows|
    ensures forall i :: 0 <= i < |rows| ==> r[i] == rows[i].lane
  {
    if rows == [] then [] else RowLanes(rows[..|rows| - 1]) + [rows[|rows| - 1].lane]
  }

  // ---------------------------------------------------------------------
  // Lemmas
  // ---------------------------------------------------------------------

  lemma CellSumsIgnoreOtherKeys(cells: map<string, Cell>, classes: seq<string>, c: string, x: Cell)
    requires forall k :: k in classes ==> k in cells
    requires c !in classes
    ensures CellCountSum(cells[c := x], classes) == CellCountSum(cells, classes)
    ensures CellAmountSum(cells[c := x], classes) == CellAmountSum(cells, classes)
  {
    if classes != [] {
      CellSumsIgnoreOtherKeys(cells, classes[..|classes| - 1], c, x);
    }
  }

  /** Adding one more class to the selected classes adds that class's cell. */
  lemma LaneSplit(rs: seq<Transaction>, q: Pred, lane: Option<string>, pre: seq<string>, c: string)
    requires c !in pre
    ensures Count(rs, And(LaneQuery(q, lane), ClassIn(ClassSet(pre)))) + Count(rs, CellQuery(q, lane, c))
         == Count(rs, And(LaneQuery(q, lane), ClassIn(ClassSet(pre + [c]))))
    ensures FareSum(rs, And(LaneQuery(q, lane), ClassIn(ClassSet(pre)))) + FareSum(rs, CellQuery(q, lane, c))
         == FareSum(rs, And(LaneQuery(q, lane), ClassIn(ClassSet(pre + [c]))))
  {
    var lq := LaneQuery(q, lane);
    var p1, p2, u := And(lq, ClassIn(ClassSet(pre))), CellQuery(q, lane, c), And(lq, ClassIn(ClassSet(pre + [c])));
    forall i | 0 <= i < |rs|
      ensures SplitsInto(rs[i], u, p1, p2)
    {
      var r := rs[i];
      ClassSetMember(pre, r.vehicleClass);
      ClassSetMember(pre + [c], r.vehicleClass);
      assert Holds(u, r) <==> Holds(lq, r) && (r.vehicleClass in ClassSet(pre) || r.vehicleClass == Some(c));
      assert Holds(p2, r) <==> Holds(lq, r) && r.vehicleClass == Some(c);
    }
    SelectSplit(rs, p1, p2, u);
  }

  /** Each row's totals are the sums of its cells, and equal the number (and
      fare sum) of the lane's selected rows whose class is in the dimension. */
  lemma {:induction false} BuildRowFacts(rs: seq<Transaction>, q: Pred, lane: Option<string>, classes: seq<string>)
    requires Distinct(classes)
    ensures var row := BuildRow(rs, q, lane, classes);
      && (forall c :: c in classes ==> row.classes[c] == CellOf(rs, q, lane, c))
      && row.totalVehicles == CellCountSum(row.classes, classes)
      && row.totalAmount == CellAmountSum(row.classes, classes)
      && row.totalVehicles == Count(rs, And(LaneQuery(q, lane), ClassIn(ClassSet(classes))))
      && row.totalAmount == FareSum(rs, And(LaneQuery(q, lane), ClassIn(ClassSet(classes))))
  {
    var row := BuildRow(rs, q, lane, classes);
    if classes == [] {
      SelectNone(rs, And(LaneQuery(q, lane), ClassIn(ClassSet(classes))));
    } else {
      var pre := classes[..|classes| - 1];
      var c := classes[|classes| - 1];
      assert classes == pre + [c];
      assert Distinct(pre);
      assert c !in pre;
      BuildRowFacts(rs, q, lane, pre);
      var prev := BuildRow(rs, q, lane, pre);
      CellSumsIgnoreOtherKeys(prev.classes, pre, c, CellOf(rs, q, lane, c));
      assert pre == classes[..|classes| - 1];
      LaneSplit(rs, q, lane, pre, c);
    }
  }

  function LaneSet(lanes: seq<Option<string>>): set<Option<string>> {
    set l | l in lanes
  }

  /** The rows of the lanes seen so far whose class is `c`. */
  function ColumnQuery(q: Pred, lanes: seq<Option<string>>, c: string): Pred {
    And(And(q, LaneIn(LaneSet(lanes))), ClassIs(Some(c)))
  }

  /** The rows of the lanes seen so far whose class is in the dimension. */
  function GridQuery(q: Pred, lanes: seq<Option<string>>, classes: seq<string>): Pred {
    And(And(q, LaneIn(LaneSet(lanes))), ClassIn(ClassSet(classes)))
  }

  /** The last lane of `lanes` splits a column into the earlier lanes' part
      and that lane's cell. */
  lemma ColumnSplit(rs: seq<Transaction>, q: Pred, lanes: seq<Option<string>>, c: string)
    requires lanes != [] && lanes[|lanes| - 1] !in lanes[..|lanes| - 1]
    ensures var pre, l := lanes[..|lanes| - 1], lanes[|lanes| - 1];
      && Count(rs, ColumnQuery(q, pre, c)) + Count(rs, CellQuery(q, l, c)) == Count(rs, ColumnQuery(q, lanes, c))
      && FareSum(rs, ColumnQuery(q, pre, c)) + FareSum(rs, CellQuery(q, l, c)) == FareSum(rs, ColumnQuery(q, lanes, c))
  {
    var pre, l := lanes[..|lanes| - 1], lanes[|lanes| - 1];
    assert lanes == pre + [l];
    var p1, p2, u := ColumnQuery(q, pre, c), CellQuery(q, l, c), ColumnQuery(q, lanes, c);
    forall r | r in rs
      ensures (Holds(u, r) <==> Holds(p1, r) || Holds(p2, r)) && !(Holds(p1, r) && Holds(p2, r))
    {
      assert r.lane in LaneSet(lanes) <==> r.lane in pre || r.lane == l;
      assert r.lane in LaneSet(pre) <==> r.lane in pre;
      HoldsAnd3(q, LaneIn(LaneSet(lanes)), ClassIs(Some(c)), r);
      HoldsAnd3(q, LaneIn(LaneSet(pre)), ClassIs(Some(c)), r);
      HoldsAnd3(q, LaneIs(l), ClassIs(Some(c)), r);
    }
    SelectSplit(rs, p1, p2, u);
  }

  /** The last lane of `lanes` splits the grid into the earlier lanes' part
      and that lane's classified rows. */
  lemma GridSplit(rs: seq<Transaction>, q: Pred, lanes: seq<Option<string>>, classes: seq<string>)
    requires lanes != [] && lanes[|lanes| - 1] !in lanes[..|lanes| - 1]
    ensures var pre, l := lanes[..|lanes| - 1], lanes[|lanes| - 1];
      && Count(rs, GridQuery(q, pre, classes)) + Count(rs, And(LaneQuery(q, l), ClassIn(ClassSet(classes))))
         == Count(rs, GridQuery(q, lanes, classes))
      && FareSum(rs, GridQuery(q, pre, classes)) + FareSum(rs, And(LaneQuery(q, l), ClassIn(ClassSet(classes))))
         == FareSum(rs, GridQuery(q, lanes, classes))
  {
    var pre, l := lanes[..|lanes| - 1], lanes[|lanes| - 1];
    assert lanes == pre + [l];
    var p1, p2, u := GridQuery(q, pre, classes), And(LaneQuery(q, l), ClassIn(ClassSet(classes))),
                     GridQuery(q, lanes, classes);
    forall r | r in rs
      ensures (Holds(u, r) <==> Holds(p1, r) || Holds(p2, r)) && !(Holds(p1, r) && Holds(p2, r))
    {
      assert r.lane in LaneSet(lanes) <==> r.lane in pre || r.lane == l;
      assert r.lane in LaneSet(pre) <==> r.lane in pre;
      HoldsAnd3(q, LaneIn(LaneSet(lanes)), ClassIn(ClassSet(classes)), r);
      HoldsAnd3(q, LaneIn(LaneSet(pre)), ClassIn(ClassSet(classes)), r);
      HoldsAnd3(q, LaneIs(l), ClassIn(ClassSet(classes)), r);
    }
    SelectSplit(rs, p1, p2, u);
  }

  /** Adding one more lane to a set of lanes adds that lane's rows. */
  lemma LaneUnion(rs: seq<Transaction>, q: Pred, pre: seq<Option<string>>, l: Option<string>)
    requires l !in pre
    ensures Count(rs, And(q, LaneIn(LaneSet(pre)))) + Count(rs, LaneQuery(q, l)) == Count(rs, And(q, LaneIn(LaneSet(pre + [l]))))
    ensures FareSum(rs, And(q, LaneIn(LaneSet(pre)))) + FareSum(rs, LaneQuery(q, l)) == FareSum(rs, And(q, LaneIn(LaneSet(pre + [l]))))
  {
    var p1, p2, u := And(q, LaneIn(LaneSet(pre))), LaneQuery(q, l), And(q, LaneIn(LaneSet(pre + [l])));
    forall r | r in rs
      ensures (Holds(u, r) <==> Holds(p1, r) || Holds(p2, r)) && !(Holds(p1, r) && Holds(p2, r))
    {
      assert r.lane in LaneSet(pre + [l]) <==> r.lane in pre || r.lane == l;
      assert r.lane in LaneSet(pre) <==> r.lane in pre;
    }
    SelectSplit(rs, p1, p2, u);
  }

  /** Restricting a narrower query `q'` to the lanes found by `q` changes
      nothing. */
  lemma AllLanesSame(rs: seq<Transaction>, q: Pred, q': Pred)
    requires forall r :: r in rs && Holds(q', r) ==> Holds(q, r)
    ensures Select(rs, And(q', LaneIn(LaneSet(LanesPresent(Select(rs, q)))))) == Select(rs, q')
  {
    var lanes := LanesPresent(Select(rs, q));
    forall r | r in rs
      ensures Holds(And(q', LaneIn(LaneSet(lanes))), r) <==> Holds(q', r)
    {
      if Holds(q', r) {
        InDimensions(rs, q, r);
      }
    }
    SelectSame(rs, And(q', LaneIn(LaneSet(lanes))), q');
  }

  lemma {:induction false} CellCountSumZero(cells: map<string, Cell>, classes: seq<string>)
    requires forall c :: c in classes ==> c in cells
    requires CellCountSum(cells, classes) == 0
    ensures forall c :: c in classes ==> cells[c].count == 0
  {
    if classes != [] {
      CellCountSumZero(cells, classes[..|classes| - 1]);
      assert forall c :: c in classes ==> c in classes[..|classes| - 1] || c == classes[|classes| - 1];
    }
  }

  /** A query that selects nothing sums to nothing. */
  lemma EmptyCountEmptySum(rs: seq<Transaction>, p: Pred)
    requires Count(rs, p) == 0
    ensures FareSum(rs, p) == 0
  {
    assert Select(rs, p) == [];
  }

  /** A row the report drops contributes nothing to any total. */
  lemma DroppedRowIsZero(rs: seq<Transaction>, q: Pred, lane: Option<string>, classes: seq<string>)
    requires Distinct(classes)
    requires BuildRow(rs, q, lane, classes).totalVehicles == 0
    ensures var row := BuildRow(rs, q, lane, classes);
      && row.totalAmount == 0
      && forall c :: c in classes ==> row.classes[c] == Cell(0, 0)
  {
    var row := BuildRow(rs, q, lane, classes);
    BuildRowFacts(rs, q, lane, classes);
    EmptyCountEmptySum(rs, And(LaneQuery(q, lane), ClassIn(ClassSet(classes))));
    CellCountSumZero(row.classes, classes);
    forall c | c in classes
      ensures row.classes[c] == Cell(0, 0)
    {
      EmptyCountEmptySum(rs, CellQuery(q, lane, c));
    }
  }

  /** One more lane through the loop: its row is added to the grand totals,
      and kept when its total is positive. */
  lemma LaneStep(rs: seq<Transaction>, q: Pred, lanes: seq<Option<string>>, classes: seq<string>)
    requires lanes != []
    ensures var pre, row := lanes[..|lanes| - 1], BuildRow(rs, q, lanes[|lanes| - 1], classes);
      && GrandTotals(rs, q, lanes, classes) == Accumulate(GrandTotals(rs, q, pre, classes), row)
      && KeptRows(rs, q, lanes, classes)
         == if row.totalVehicles > 0 then KeptRows(rs, q, pre, classes) + [row] else KeptRows(rs, q, pre, classes)
  {
  }

  /** Before any lane, nothing is selected and every total is 0. */
  lemma TallyEmpty(rs: seq<Transaction>, q: Pred, classes: seq<string>)
    ensures Count(rs, GridQuery(q, [], classes)) == 0 && FareSum(rs, GridQuery(q, [], classes)) == 0
    ensures forall c :: Count(rs, ColumnQuery(q, [], c)) == 0 && FareSum(rs, ColumnQuery(q, [], c)) == 0
  {
    forall r | r in rs
      ensures !Holds(GridQuery(q, [], classes), r)
    {
      HoldsAnd3(q, LaneIn(LaneSet([])), ClassIn(ClassSet(classes)), r);
    }
    SelectNone(rs, GridQuery(q, [], classes));
    forall c
      ensures Count(rs, ColumnQuery(q, [], c)) == 0 && FareSum(rs, ColumnQuery(q, [], c)) == 0
    {
      forall r | r in rs
        ensures !Holds(ColumnQuery(q, [], c), r)
      {
        HoldsAnd3(q, LaneIn(LaneSet([])), ClassIs(Some(c)), r);
      }
      SelectNone(rs, ColumnQuery(q, [], c));
    }
  }

  /** One grand class entry after one more lane: its column query widened
      by that lane. */
  lemma ClassStep(rs: seq<Transaction>, q: Pred, lanes: seq<Option<string>>, classes: seq<string>, c: string)
    requires lanes != [] && Distinct(classes) && c in classes
    requires lanes[|lanes| - 1] !in lanes[..|lanes| - 1]
    requires var g0, pre := GrandTotals(rs, q, lanes[..|lanes| - 1], classes), lanes[..|lanes| - 1];
      && g0.classes[c].count == Count(rs, ColumnQuery(q, pre, c))
      && g0.classes[c].amount == FareSum(rs, ColumnQuery(q, pre, c))
    ensures var g := GrandTotals(rs, q, lanes, classes);
      && g.classes[c].count == Count(rs, ColumnQuery(q, lanes, c))
      && g.classes[c].amount == FareSum(rs, ColumnQuery(q, lanes, c))
  {
    var pre, l := lanes[..|lanes| - 1], lanes[|lanes| - 1];
    var g0, row := GrandTotals(rs, q, pre, classes), BuildRow(rs, q, l, classes);
    LaneStep(rs, q, lanes, classes);
    assert c in g0.classes && c in row.classes;
    assert GrandTotals(rs, q, lanes, classes).classes[c] == AddCell(g0.classes[c], row.classes[c]);
    RowCell(rs, q, l, classes, c);
    ColumnSplit(rs, q, lanes, c);
  }

  lemma RowCell(rs: seq<Transaction>, q: Pred, lane: Option<string>, classes: seq<string>, c: string)
    requires Distinct(classes) && c in classes
    ensures BuildRow(rs, q, lane, classes).classes[c] == CellOf(rs, q, lane, c)
  {
    BuildRowFacts(rs, q, lane, classes);
  }

  /** The grand totals after one more lane: the grid widened by that lane. */
  lemma TotalsStep(rs: seq<Transaction>, q: Pred, lanes: seq<Option<string>>, classes: seq<string>)
    requires lanes != [] && Distinct(classes)
    requires lanes[|lanes| - 1] !in lanes[..|lanes| - 1]
    requires var g0, pre := GrandTotals(rs, q, lanes[..|lanes| - 1], classes), lanes[..|lanes| - 1];
      && g0.totalVehicles == Count(rs, GridQuery(q, pre, classes))
      && g0.totalAmount == FareSum(rs, GridQuery(q, pre, classes))
    ensures var g := GrandTotals(rs, q, lanes, classes);
      && g.totalVehicles == Count(rs, GridQuery(q, lanes, classes))
      && g.totalAmount == FareSum(rs, GridQuery(q, lanes, classes))
  {
    LaneStep(rs, q, lanes, classes);
    BuildRowFacts(rs, q, lanes[|lanes| - 1], classes);
    GridSplit(rs, q, lanes, classes);
  }

  /** Reconciliation of the lane loop against the table: each grand class
      entry counts (and sums the fares of) the selected rows of these lanes
      in that class, and the grand totals do the same over the whole grid. */
  lemma {:induction false} TallyCounts(rs: seq<Transaction>, q: Pred, lanes: seq<Option<string>>, classes: seq<string>)
    requires Distinct(lanes) && Distinct(classes)
    ensures var g := GrandTotals(rs, q, lanes, classes);
      && (forall c :: c in classes ==>
            && g.classes[c].count == Count(rs, ColumnQuery(q, lanes, c))
            && g.classes[c].amount == FareSum(rs, ColumnQuery(q, lanes, c)))
      && g.totalVehicles == Count(rs, GridQuery(q, lanes, classes))
      && g.totalAmount == FareSum(rs, GridQuery(q, lanes, classes))
  {
    if lanes == [] {
      TallyEmpty(rs, q, classes);
    } else {
      var pre := lanes[..|lanes| - 1];
      assert Distinct(pre) && lanes[|lanes| - 1] !in pre;
      TallyCounts(rs, q, pre, classes);
      TotalsStep(rs, q, lanes, classes);
      forall c | c in classes
        ensures var g := GrandTotals(rs, q, lanes, classes);
          && g.classes[c].count == Count(rs, ColumnQuery(q, lanes, c))
          && g.classes[c].amount == FareSum(rs, ColumnQuery(q, lanes, c))
      {
        ClassStep(rs, q, lanes, classes, c);
      }
    }
  }

  /** Adding a row to the kept rows adds its totals; dropping it adds 0. */
  lemma RowsStep(kept0: seq<Row>, row: Row, keep: bool)
    requires !keep ==> row.totalVehicles == 0 && row.totalAmount == 0
    ensures var kept := if keep then kept0 + [row] else kept0;
      && RowsVehicles(kept) == RowsVehicles(kept0) + row.totalVehicles
      && RowsAmount(kept) == RowsAmount(kept0) + row.totalAmount
  {
    if keep {
      assert (kept0 + [row])[..|kept0|] == kept0;
    }
  }

  /** The grand totals are the sums over the KEPT rows: a dropped row is
      all zero, so dropping it changes no total. */
  lemma {:induction false} TallyRowSums(rs: seq<Transaction>, q: Pred, lanes: seq<Option<string>>, classes: seq<string>)
    requires Distinct(classes)
    ensures var g, kept := GrandTotals(rs, q, lanes, classes), KeptRows(rs, q, lanes, classes);
      && g.totalVehicles == RowsVehicles(kept)
      && g.totalAmount == RowsAmount(kept)
  {
    if lanes != [] {
      var pre := lanes[..|lanes| - 1];
      var row := BuildRow(rs, q, lanes[|lanes| - 1], classes);
      TallyRowSums(rs, q, pre, classes);
      LaneStep(rs, q, lanes, classes);
      if row.totalVehicles == 0 {
        DroppedRowIsZero(rs, q, lanes[|lanes| - 1], classes);
      }
      RowsStep(KeptRows(rs, q, pre, classes), row, row.totalVehicles > 0);
    }
  }

  /** Adding a row to the kept rows adds its cell to a column; dropping it
      adds 0. */
  lemma ColumnStep(kept0: seq<Row>, row: Row, keep: bool, c: string)
    requires c in row.classes
    requires !keep ==> row.classes[c] == Cell(0, 0)
    ensures var kept := if keep then kept0 + [row] else kept0;
      && ColumnCount(kept, c) == ColumnCount(kept0, c) + row.classes[c].count
      && ColumnAmount(kept, c) == ColumnAmount(kept0, c) + row.classes[c].amount
  {
    if keep {
      assert (kept0 + [row])[..|kept0|] == kept0;
    }
  }

  /** One grand class entry is its column summed over the KEPT rows. */
  lemma {:induction false} TallyColumn(rs: seq<Transaction>, q: Pred, lanes: seq<Option<string>>, classes: seq<string>, c: string)
    requires Distinct(classes) && c in classes
    ensures var g, kept := GrandTotals(rs, q, lanes, classes), KeptRows(rs, q, lanes, classes);
      g.classes[c].count == ColumnCount(kept, c) && g.classes[c].amount == ColumnAmount(kept, c)
  {
    if lanes != [] {
      var pre := lanes[..|lanes| - 1];
      var row := BuildRow(rs, q, lanes[|lanes| - 1], classes);
      var g0 := GrandTotals(rs, q, pre, classes);
      TallyColumn(rs, q, pre, classes, c);
      LaneStep(rs, q, lanes, classes);
      if row.totalVehicles == 0 {
        DroppedRowIsZero(rs, q, lanes[|lanes| - 1], classes);
      }
      ColumnStep(KeptRows(rs, q, pre, classes), row, row.totalVehicles > 0, c);
      assert c in g0.classes && c in row.classes;
      assert GrandTotals(rs, q, lanes, classes).classes[c] == AddCell(g0.classes[c], row.classes[c]);
    }
  }

  /** The kept rows are exactly the lanes with a positive total, in lane
      order. */
  lemma {:induction false} TallyKeptLanes(rs: seq<Transaction>, q: Pred, lanes: seq<Option<string>>, classes: seq<string>)
    requires Ascending(lanes)
    ensures var kept := KeptRows(rs, q, lanes, classes);
      && (forall l :: l in RowLanes(kept) <==> l in lanes && BuildRow(rs, q, l, classes).totalVehicles > 0)
      && Ascending(RowLanes(kept))
  {
    if lanes != [] {
      var pre := lanes[..|lanes| - 1];
      var l := lanes[|lanes| - 1];
      assert lanes == pre + [l];
      assert Ascending(pre);
      TallyKeptLanes(rs, q, pre, classes);
      var kept0 := KeptRows(rs, q, pre, classes);
      var row := BuildRow(rs, q, l, classes);
      var kept := KeptRows(rs, q, lanes, classes);
      if row.totalVehicles > 0 {
        assert kept == kept0 + [row];
        assert kept[..|kept| - 1] == kept0;
        assert RowLanes(kept) == RowLanes(kept0) + [l];
        forall i, j | 0 <= i < j < |RowLanes(kept)|
          ensures KeyLt(RowLanes(kept)[i], RowLanes(kept)[j])
        {
          if j == |RowLanes(kept)| - 1 {
            assert RowLanes(kept)[i] in RowLanes(kept0);
            var k :| 0 <= k < |pre| && pre[k] == RowLanes(kept)[i];
            assert lanes[k] == pre[k];
          } else {
            assert RowLanes(kept)[i] == RowLanes(kept0)[i];
            assert RowLanes(kept)[j] == RowLanes(kept0)[j];
          }
        }
      } else {
        assert kept == kept0;
        assert l !in pre by {
          AscendingIsDistinct(lanes);
        }
      }
    }
  }

  /** Every kept row is the lane's full row, with a positive vehicle total. */
  lemma {:induction false} KeptRowsBuilt(rs: seq<Transaction>, q: Pred, lanes: seq<Option<string>>, classes: seq<string>)
    ensures forall row :: row in KeptRows(rs, q, lanes, classes) ==>
      row == BuildRow(rs, q, row.lane, classes) && row.totalVehicles > 0
  {
    if lanes != [] {
      var pre := lanes[..|lanes| - 1];
      KeptRowsBuilt(rs, q, pre, classes);
      var row := BuildRow(rs, q, lanes[|lanes| - 1], classes);
      assert KeptRows(rs, q, lanes, classes) == if row.totalVehicles > 0 then KeptRows(rs, q, pre, classes) + [row] else KeptRows(rs, q, pre, classes);
    }
  }

  /** A selected row's lane, and its class when it has one, are among the
      dimensions found in the selection. */
  lemma InDimensions(rs: seq<Transaction>, q: Pred, r: Transaction)
    requires r in rs && Holds(q, r)
    ensures r.lane in LanesPresent(Select(rs, q))
    ensures r.vehicleClass.Some? ==> r.vehicleClass in ClassSet(ClassesPresent(Select(rs, q)))
  {
    var base := Select(rs, q);
    assert r in base;
    if r.vehicleClass.Some? {
      var c := r.vehicleClass.value;
      assert exists t :: t in base && t.vehicleClass == Some(c);
      ClassSetMember(ClassesPresent(base), r.vehicleClass);
    }
  }

  /** Over the lanes found in the selection, restricting to those lanes
      changes nothing: a column is all selected rows of that class. */
  lemma AllLanesColumn(rs: seq<Transaction>, q: Pred, c: string)
    ensures var lanes := LanesPresent(Select(rs, q));
      && Count(rs, ColumnQuery(q, lanes, c)) == Count(rs, And(q, ClassIs(Some(c))))
      && FareSum(rs, ColumnQuery(q, lanes, c)) == FareSum(rs, And(q, ClassIs(Some(c))))
  {
    var lanes := LanesPresent(Select(rs, q));
    forall r | r in rs
      ensures Holds(ColumnQuery(q, lanes, c), r) <==> Holds(And(q, ClassIs(Some(c))), r)
    {
      HoldsAnd3(q, LaneIn(LaneSet(lanes)), ClassIs(Some(c)), r);
      if Holds(q, r) {
        InDimensions(rs, q, r);
      }
    }
    SelectSame(rs, ColumnQuery(q, lanes, c), And(q, ClassIs(Some(c))));
  }

  lemma GridPoint(rs: seq<Transaction>, q: Pred, r: Transaction)
    requires r in rs
    ensures var base := Select(rs, q);
      Holds(GridQuery(q, LanesPresent(base), ClassesPresent(base)), r) <==> Holds(And(q, Not(ClassIs(None))), r)
  {
    var base := Select(rs, q);
    var lanes, classes := LanesPresent(base), ClassesPresent(base);
    HoldsAnd3(q, LaneIn(LaneSet(lanes)), ClassIn(ClassSet(classes)), r);
    ClassSetMember(classes, r.vehicleClass);
    HoldsAndNot(q, ClassIs(None), r);
    if Holds(q, r) {
      InDimensions(rs, q, r);
    }
  }

  /** Over the lanes and classes found in the selection, the grid is every
      selected row that has a vehicle class. */
  lemma AllLanesGrid(rs: seq<Transaction>, q: Pred)
    ensures var base := Select(rs, q);
      var lanes, classes := LanesPresent(base), ClassesPresent(base);
      && Count(rs, GridQuery(q, lanes, classes)) == Count(rs, And(q, Not(ClassIs(None))))
      && FareSum(rs, GridQuery(q, lanes, classes)) == FareSum(rs, And(q, Not(ClassIs(None))))
  {
    var base := Select(rs, q);
    var lanes, classes := LanesPresent(base), ClassesPresent(base);
    forall r | r in rs
      ensures Holds(GridQuery(q, lanes, classes), r) <==> Holds(And(q, Not(ClassIs(None))), r)
    {
      GridPoint(rs, q, r);
    }
    SelectSame(rs, GridQuery(q, lanes, classes), And(q, Not(ClassIs(None))));
  }

  /** The report's grand totals: per class, the selected rows of that class;
      overall, the selected rows that have a class; and both agree with the
      sums over the rows the report shows. */
  lemma TabulateGrand(rs: seq<Transaction>, q: Pred)
    ensures var t := Tabulate(rs, q);
      && (forall c :: c in t.classes ==>
            && t.grand.classes[c].count == Count(rs, And(q, ClassIs(Some(c))))
            && t.grand.classes[c].amount == FareSum(rs, And(q, ClassIs(Some(c))))
            && t.grand.classes[c].count == ColumnCount(t.rows, c)
            && t.grand.classes[c].amount == ColumnAmount(t.rows, c))
      && t.grand.totalVehicles == Count(rs, And(q, Not(ClassIs(None))))
      && t.grand.totalAmount == FareSum(rs, And(q, Not(ClassIs(None))))
      && t.grand.totalVehicles == RowsVehicles(t.rows)
      && t.grand.totalAmount == RowsAmount(t.rows)
  {
    var t := Tabulate(rs, q);
    var lanes, classes := t.lanes, t.classes;
    TallyCounts(rs, q, lanes, classes);
    TallyRowSums(rs, q, lanes, classes);
    AllLanesGrid(rs, q);
    forall c | c in classes
      ensures && t.grand.classes[c].count == Count(rs, And(q, ClassIs(Some(c))))
              && t.grand.classes[c].amount == FareSum(rs, And(q, ClassIs(Some(c))))
              && t.grand.classes[c].count == ColumnCount(t.rows, c)
              && t.grand.classes[c].amount == ColumnAmount(t.rows, c)
    {
      AllLanesColumn(rs, q, c);
      TallyColumn(rs, q, lanes, classes, c);
    }
  }

  lemma LanePoint(q: Pred, l: Option<string>, classes: seq<string>, r: Transaction)
    requires Holds(q, r) && r.vehicleClass.Some? ==> r.vehicleClass in ClassSet(classes)
    ensures Holds(And(LaneQuery(q, l), ClassIn(ClassSet(classes))), r) <==> Holds(And(LaneQuery(q, l), Not(ClassIs(None))), r)
  {
    HoldsAnd3(q, LaneIs(l), ClassIn(ClassSet(classes)), r);
    HoldsAnd3(q, LaneIs(l), Not(ClassIs(None)), r);
    ClassSetMember(classes, r.vehicleClass);
  }

  /** A lane's row counts that lane's selected rows that have a class. */
  lemma RowIsLaneCount(rs: seq<Transaction>, q: Pred, l: Option<string>)
    ensures var row := BuildRow(rs, q, l, ClassesPresent(Select(rs, q)));
      && row.totalVehicles == Count(rs, And(LaneQuery(q, l), Not(ClassIs(None))))
      && row.totalAmount == FareSum(rs, And(LaneQuery(q, l), Not(ClassIs(None))))
  {
    var base := Select(rs, q);
    var classes := ClassesPresent(base);
    BuildRowFacts(rs, q, l, classes);
    forall r | r in rs
      ensures Holds(And(LaneQuery(q, l), ClassIn(ClassSet(classes))), r) <==> Holds(And(LaneQuery(q, l), Not(ClassIs(None))), r)
    {
      if Holds(q, r) {
        InDimensions(rs, q, r);
      }
      LanePoint(q, l, classes, r);
    }
    SelectSame(rs, And(LaneQuery(q, l), ClassIn(ClassSet(classes))), And(LaneQuery(q, l), Not(ClassIs(None))));
  }

  /** The report's rows are exactly the lanes of the selection with at least
      one classified vehicle, in lane order. */
  lemma TabulateRowLanes(rs: seq<Transaction>, q: Pred)
    ensures var t := Tabulate(rs, q);
      && Ascending(RowLanes(t.rows))
      && (forall l :: l in RowLanes(t.rows) <==>
            l in t.lanes && Count(rs, And(LaneQuery(q, l), Not(ClassIs(None)))) > 0)
  {
    var t := Tabulate(rs, q);
    TallyKeptLanes(rs, q, t.lanes, t.classes);
    forall l {
      RowIsLaneCount(rs, q, l);
    }
  }

  /** Each shown row's cells count its lane's selected rows per class, and
      its totals are the sums of its cells and its lane's classified rows. */
  lemma TabulateRows(rs: seq<Transaction>, q: Pred, row: Row)
    requires row in Tabulate(rs, q).rows
    ensures var classes := Tabulate(rs, q).classes;
      && row.laneDisplay == LaneDisplay(row.lane)
      && (forall c :: c in classes ==> c in row.classes && row.classes[c] == CellOf(rs, q, row.lane, c))
      && row.totalVehicles == Count(rs, And(LaneQuery(q, row.lane), Not(ClassIs(None))))
      && row.totalAmount == FareSum(rs, And(LaneQuery(q, row.lane), Not(ClassIs(None))))
  {
    var t := Tabulate(rs, q);
    KeptRowsBuilt(rs, q, t.lanes, t.classes);
    BuildRowFacts(rs, q, row.lane, t.classes);
    RowIsLaneCount(rs, q, row.lane);
  }

  /** A shown row's totals are the sums of its cells. */
  lemma TabulateRowSums(rs: seq<Transaction>, q: Pred, row: Row)
    requires row in Tabulate(rs, q).rows
    ensures var classes := Tabulate(rs, q).classes;
      && (forall c :: c in classes ==> c in row.classes)
      && row.totalVehicles == CellCountSum(row.classes, classes)
      && row.totalAmount == CellAmountSum(row.classes, classes)
  {
    var t := Tabulate(rs, q);
    KeptRowsBuilt(rs, q, t.lanes, t.classes);
    BuildRowFacts(rs, q, row.lane, t.classes);
  }
}
