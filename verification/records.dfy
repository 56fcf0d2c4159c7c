/** The TRANSACTION table as a finite sequence of immutable rows, and the
    ORM queries the views issue against it as first-order predicates.

    A query is a `Pred` tree: `.filter(a, b)` is `And(a, b)`, `.exclude(x)`
    is `And(q, Not(x))`. Column comparisons follow Python's equality on
    possibly-absent values: `lane=None` matches exactly the rows whose lane
    is absent, an absent transaction type is never in `['LOGIN', 'LOGOUT']`,
    and an absent capture time fails every range predicate. */
module Records {
  import opened Basics

  newtype byte = x: int | 0 <= x < 256

  /** One row of the TRANSACTION table; `fare` is in integer cents. */
  datatype Transaction = Transaction(
    sequence: string,
    plazaId: Option<string>,
    plazaName: Option<string>,
    lane: Option<string>,
    collectorId: Option<string>,
    captureDate: Option<int>,
    transType: Option<string>,
    vehicleClass: Option<string>,
    regNumber: Option<string>,
    fare: Option<int>,
    payType: Option<string>,
    pic: Option<seq<byte>>,
    shift: Option<string>,
    exemptType: Option<string>)

  const Cash: string := "CSH"
  const Exempt: string := "VCH"

  /** Shift events recorded by collectors; never tolls. */
  const ShiftEvents: set<Option<string>> := {Some("LOGIN"), Some("LOGOUT")}

  /** `vehicle_class__in=['0', '', None]`: violation or unclassified. */
  const UncountedClasses: set<Option<string>> := {Some("0"), Some(""), None}

  /** One ORM lookup, or a combination of lookups. */
  datatype Pred =
    | CapturedFrom(start: int)          // capturedate__gte
    | CapturedUntil(end: int)           // capturedate__lte
    | LaneIs(lane: Option<string>)
    | LaneIn(lanes: set<Option<string>>)
    | ClassIs(vehicleClass: Option<string>)
    | ClassIn(classes: set<Option<string>>)
    | PayTypeIs(payType: Option<string>)
    | TransTypeIn(types: set<Option<string>>)
    | SequenceIs(sequence: string)
    | PicIsNull
    | FareIsNull
    | Not(negated: Pred)
    | And(left: Pred, right: Pred)

  predicate Holds(p: Pred, r: Transaction) {
    match p
    case CapturedFrom(t) => r.captureDate.Some? && r.captureDate.value >= t
    case CapturedUntil(t) => r.captureDate.Some? && r.captureDate.value <= t
    case LaneIs(l) => r.lane == l
    case LaneIn(ls) => r.lane in ls
    case ClassIs(c) => r.vehicleClass == c
    case ClassIn(cs) => r.vehicleClass in cs
    case PayTypeIs(t) => r.payType == t
    case TransTypeIn(ts) => r.transType in ts
    case SequenceIs(s) => r.sequence == s
    case PicIsNull => r.pic.None?
    case FareIsNull => r.fare.None?
    case Not(q) => !Holds(q, r)
    case And(a, b) => Holds(a, r) && Holds(b, r)
  }

  /** A query narrowed twice holds when all three parts hold. */
  lemma HoldsAnd3(q: Pred, a: Pred, b: Pred, r: Transaction)
    ensures Holds(And(And(q, a), b), r) <==> Holds(q, r) && Holds(a, r) && Holds(b, r)
  {
    assert Holds(And(q, a), r) <==> Holds(q, r) && Holds(a, r);
  }

  /** A query with one exclusion holds when the query holds and the
      excluded lookup does not. */
  lemma HoldsAndNot(q: Pred, x: Pred, r: Transaction)
    ensures Holds(And(q, Not(x)), r) <==> Holds(q, r) && !Holds(x, r)
  {
    assert Holds(Not(x), r) <==> !Holds(x, r);
  }

  /** A chain of `.filter(...)`/`.exclude(...)` calls: every lookup must hold. */
  function AllOf(ps: seq<Pred>): Pred
    requires ps != []
  {
    if |ps| == 1 then ps[0] else And(AllOf(ps[..|ps| - 1]), ps[|ps| - 1])
  }

  lemma {:induction false} HoldsAllOf(ps: seq<Pred>, r: Transaction)
    requires ps != []
    ensures Holds(AllOf(ps), r) <==> forall i :: 0 <= i < |ps| ==> Holds(ps[i], r)
  {
    if |ps| > 1 {
      var pre := ps[..|ps| - 1];
      HoldsAllOf(pre, r);
      assert forall i :: 0 <= i < |pre| ==> pre[i] == ps[i];
    }
  }

  /** `HoldsAllOf` spelled out for the chains of three to seven lookups the
      views build. */
  lemma HoldsAll3(ps: seq<Pred>, r: Transaction)
    requires |ps| == 3
    ensures Holds(AllOf(ps), r) <==> (Holds(ps[0], r) && Holds(ps[1], r) && Holds(ps[2], r))
  {
    HoldsAllOf(ps, r);
    if Holds(ps[0], r) && Holds(ps[1], r) && Holds(ps[2], r) {
      forall i | 0 <= i < |ps|
        ensures Holds(ps[i], r)
      {
        assert i == 0 || i == 1 || i == 2;
      }
    }
  }

  lemma HoldsAll4(ps: seq<Pred>, r: Transaction)
    requires |ps| == 4
    ensures Holds(AllOf(ps), r) <==> (Holds(ps[0], r) && Holds(ps[1], r) && Holds(ps[2], r) && Holds(ps[3], r))
  {
    HoldsAllOf(ps, r);
    if Holds(ps[0], r) && Holds(ps[1], r) && Holds(ps[2], r) && Holds(ps[3], r) {
      forall i | 0 <= i < |ps|
        ensures Holds(ps[i], r)
      {
        assert i == 0 || i == 1 || i == 2 || i == 3;
      }
    }
  }

  lemma HoldsAll5(ps: seq<Pred>, r: Transaction)
    requires |ps| == 5
    ensures Holds(AllOf(ps), r) <==> (Holds(ps[0], r) && Holds(ps[1], r) && Holds(ps[2], r) && Holds(ps[3], r) && Holds(ps[4], r))
  {
    HoldsAllOf(ps, r);
    if Holds(ps[0], r) && Holds(ps[1], r) && Holds(ps[2], r) && Holds(ps[3], r) && Holds(ps[4], r) {
      forall i | 0 <= i < |ps|
        ensures Holds(ps[i], r)
      {
        assert i == 0 || i == 1 || i == 2 || i == 3 || i == 4;
      }
    }
  }

  lemma HoldsAll6(ps: seq<Pred>, r: Transaction)
    requires |ps| == 6
    ensures Holds(AllOf(ps), r) <==> (Holds(ps[0], r) && Holds(ps[1], r) && Holds(ps[2], r) && Holds(ps[3], r) && Holds(ps[4], r)
                                      && Holds(ps[5], r))
  {
    HoldsAllOf(ps, r);
    if Holds(ps[0], r) && Holds(ps[1], r) && Holds(ps[2], r) && Holds(ps[3], r) && Holds(ps[4], r) && Holds(ps[5], r) {
      forall i | 0 <= i < |ps|
        ensures Holds(ps[i], r)
      {
        assert i == 0 || i == 1 || i == 2 || i == 3 || i == 4 || i == 5;
      }
    }
  }

  lemma HoldsAll7(ps: seq<Pred>, r: Transaction)
    requires |ps| == 7
    ensures Holds(AllOf(ps), r) <==> (Holds(ps[0], r) && Holds(ps[1], r) && Holds(ps[2], r) && Holds(ps[3], r) && Holds(ps[4], r)
                                      && Holds(ps[5], r) && Holds(ps[6], r))
  {
    HoldsAllOf(ps, r);
    if Holds(ps[0], r) && Holds(ps[1], r) && Holds(ps[2], r) && Holds(ps[3], r) && Holds(ps[4], r) && Holds(ps[5], r)
       && Holds(ps[6], r) {
      forall i | 0 <= i < |ps|
        ensures Holds(ps[i], r)
      {
        assert i == 0 || i == 1 || i == 2 || i == 3 || i == 4 || i == 5 || i == 6;
      }
    }
  }

  /** The meaning of the exclusions every view applies. */
  lemma ExclusionsHold(r: Transaction)
    ensures Holds(NotShiftEvent, r) <==> r.transType !in ShiftEvents
    ensures Holds(CountedClass, r) <==> r.vehicleClass !in UncountedClasses
    ensures Holds(NotViolation, r) <==> r.vehicleClass != Some("0")
  {
  }

  /** The inclusive range filter every report starts from. */
  function InPeriod(start: int, end: int): Pred {
    And(CapturedFrom(start), CapturedUntil(end))
  }

  /** `.exclude(transtype__in=['LOGIN', 'LOGOUT'])` */
  const NotShiftEvent: Pred := Not(TransTypeIn(ShiftEvents))

  /** `.exclude(vehicle_class__in=['0', '', None])` */
  const CountedClass: Pred := Not(ClassIn(UncountedClasses))

  /** `.exclude(vehicle_class='0')` */
  const NotViolation: Pred := Not(ClassIs(Some("0")))

  /** The rows that satisfy `q`, in table order. */
  function Select(rs: seq<Transaction>, q: Pred): (r: seq<Transaction>)
    ensures |r| <= |rs|
    ensures forall t :: t in r <==> t in rs && Holds(q, t)
  {
    if rs == [] then []
    else (if Holds(q, rs[0]) then [rs[0]] else []) + Select(rs[1..], q)
  }

  /** A selection keeps each satisfying row as often as the table holds it,
      and no other row. */
  lemma {:induction false} SelectMultiset(rs: seq<Transaction>, q: Pred)
    ensures forall t :: multiset(Select(rs, q))[t] == if Holds(q, t) then multiset(rs)[t] else 0
  {
    if rs != [] {
      SelectMultiset(rs[1..], q);
      assert rs == [rs[0]] + rs[1..];
    }
  }

  /** `.count()` */
  function Count(rs: seq<Transaction>, q: Pred): nat {
    |Select(rs, q)|
  }

  /** A fare in cents, an absent fare counting as nothing. */
  function FareOf(r: Transaction): int {
    r.fare.GetOr(0)
  }

  /** The fares of a sequence of rows, absent fares counting as 0. */
  function FareTotal(rs: seq<Transaction>): int {
    if rs == [] then 0 else FareOf(rs[0]) + FareTotal(rs[1..])
  }

  /** `.aggregate(total=Sum('fare'))['total'] or 0`: SQL's SUM skips absent
      fares and the `or 0` turns the empty sum into 0. */
  function FareSum(rs: seq<Transaction>, q: Pred): int {
    FareTotal(Select(rs, q))
  }

  lemma {:induction false} FareTotalAppend(a: seq<Transaction>, b: seq<Transaction>)
    ensures FareTotal(a + b) == FareTotal(a) + FareTotal(b)
  {
    if a == [] {
      assert a + b == b;
    } else {
      assert (a + b)[1..] == a[1..] + b;
      FareTotalAppend(a[1..], b);
    }
  }

  /** Selecting from a non-empty table: the first row, if it qualifies,
      followed by the selection from the rest. */
  lemma SelectCons(rs: seq<Transaction>, q: Pred)
    requires rs != []
    ensures Count(rs, q) == (if Holds(q, rs[0]) then 1 else 0) + Count(rs[1..], q)
    ensures FareSum(rs, q) == (if Holds(q, rs[0]) then FareOf(rs[0]) else 0) + FareSum(rs[1..], q)
  {
    var h := if Holds(q, rs[0]) then [rs[0]] else [];
    assert Select(rs, q) == h + Select(rs[1..], q);
    FareTotalAppend(h, Select(rs[1..], q));
  }

  /** `u` holds of a row exactly when one of the disjoint `p1`, `p2` does. */
  predicate SplitsInto(r: Transaction, u: Pred, p1: Pred, p2: Pred) {
    (Holds(u, r) <==> Holds(p1, r) || Holds(p2, r)) && !(Holds(p1, r) && Holds(p2, r))
  }

  /** Two queries that no row satisfies together split a third one that is
      their union: counts and fare sums add up. */
  lemma {:induction false} SelectSplit(rs: seq<Transaction>, p1: Pred, p2: Pred, u: Pred)
    requires forall i :: 0 <= i < |rs| ==> SplitsInto(rs[i], u, p1, p2)
    ensures Count(rs, p1) + Count(rs, p2) == Count(rs, u)
    ensures FareSum(rs, p1) + FareSum(rs, p2) == FareSum(rs, u)
  {
    if rs != [] {
      SelectSplit(rs[1..], p1, p2, u);
      SelectCons(rs, p1);
      SelectCons(rs, p2);
      SelectCons(rs, u);
    }
  }

  /** Queries that agree on every row select the same rows. */
  lemma {:induction false} SelectSame(rs: seq<Transaction>, p: Pred, p': Pred)
    requires forall i :: 0 <= i < |rs| ==> (Holds(p, rs[i]) <==> Holds(p', rs[i]))
    ensures Select(rs, p) == Select(rs, p')
  {
    if rs != [] {
      SelectSame(rs[1..], p, p');
    }
  }

  /** A query no row satisfies selects nothing. */
  lemma {:induction false} SelectNone(rs: seq<Transaction>, p: Pred)
    requires forall r :: r in rs ==> !Holds(p, r)
    ensures Select(rs, p) == []
    ensures Count(rs, p) == 0 && FareSum(rs, p) == 0
  {
    if rs != [] {
      SelectNone(rs[1..], p);
    }
  }

  /** Narrowing a selection is the same as narrowing the query. */
  lemma {:induction false} SelectSelect(rs: seq<Transaction>, p: Pred, p': Pred)
    ensures Select(Select(rs, p), p') == Select(rs, And(p, p'))
  {
    if rs != [] {
      SelectSelect(rs[1..], p, p');
      var s := Select(rs, p);
      if Holds(p, rs[0]) {
        assert s == [rs[0]] + Select(rs[1..], p);
        assert s[0] == rs[0] && s[1..] == Select(rs[1..], p);
      } else {
        assert s == Select(rs[1..], p);
      }
    }
  }

  /** Rows whose fare is absent add nothing to a fare sum. */
  lemma {:induction false} NullFaresSumZero(rs: seq<Transaction>, p: Pred)
    requires Count(rs, And(p, Not(FareIsNull))) == 0
    ensures FareSum(rs, p) == 0
  {
    if rs != [] {
      SelectCons(rs, p);
      SelectCons(rs, And(p, Not(FareIsNull)));
      HoldsAndNot(p, FareIsNull, rs[0]);
      NullFaresSumZero(rs[1..], p);
    }
  }

  /** Leaving out the rows whose fare is absent changes no fare sum. */
  lemma FareSumSkipsNull(rs: seq<Transaction>, p: Pred)
    ensures FareSum(rs, And(p, Not(FareIsNull))) == FareSum(rs, p)
  {
    forall r | r in rs
      ensures (Holds(p, r) <==> Holds(And(p, Not(FareIsNull)), r) || Holds(And(p, FareIsNull), r))
      ensures !(Holds(And(p, Not(FareIsNull)), r) && Holds(And(p, FareIsNull), r))
    {
      HoldsAndNot(p, FareIsNull, r);
    }
    SelectSplit(rs, And(p, Not(FareIsNull)), And(p, FareIsNull), p);
    forall r | r in rs
      ensures !Holds(And(And(p, FareIsNull), Not(FareIsNull)), r)
    {
      HoldsAndNot(And(p, FareIsNull), FareIsNull, r);
    }
    SelectNone(rs, And(And(p, FareIsNull), Not(FareIsNull)));
    NullFaresSumZero(rs, And(p, FareIsNull));
  }
}
