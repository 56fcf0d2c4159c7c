/** The two orderings the views ask of the database: `.distinct().order_by(col)`
    on a nullable text column (lane, vehicle class) and `.order_by('-capturedate')`
    for listings. NULL sorts before every text value, so it comes first in an
    ascending order and last in a descending one. */
module Ordering {
  import opened Basics
  import opened Text
  import opened Records

  // ---------------------------------------------------------------------
  // Ascending order on a nullable text column
  // ---------------------------------------------------------------------

  predicate KeyLt(a: Option<string>, b: Option<string>) {
    (a.None? && b.Some?) || (a.Some? && b.Some? && StrLt(a.value, b.value))
  }

  lemma KeyLtIrreflexive(a: Option<string>)
    ensures !KeyLt(a, a)
  {
    if a.Some? {
      StrLtIrreflexive(a.value);
    }
  }

  lemma KeyLtTransitive(a: Option<string>, b: Option<string>, c: Option<string>)
    requires KeyLt(a, b) && KeyLt(b, c)
    ensures KeyLt(a, c)
  {
    if a.Some? {
      StrLtTransitive(a.value, b.value, c.value);
    }
  }

  lemma KeyLtTotal(a: Option<string>, b: Option<string>)
    requires a != b
    ensures KeyLt(a, b) || KeyLt(b, a)
  {
    if a.Some? && b.Some? {
      StrLtTotal(a.value, b.value);
    }
  }

  predicate Ascending(s: seq<Option<string>>) {
    forall i, j :: 0 <= i < j < |s| ==> KeyLt(s[i], s[j])
  }

  predicate StrAscending(s: seq<string>) {
    forall i, j :: 0 <= i < j < |s| ==> StrLt(s[i], s[j])
  }

  predicate Distinct<T(==)>(s: seq<T>) {
    forall i, j :: 0 <= i < j < |s| ==> s[i] != s[j]
  }

  lemma AscendingIsDistinct(s: seq<Option<string>>)
    requires Ascending(s)
    ensures Distinct(s)
  {
    forall i, j | 0 <= i < j < |s|
      ensures s[i] != s[j]
    {
      KeyLtIrreflexive(s[i]);
    }
  }

  lemma StrAscendingIsDistinct(s: seq<string>)
    requires StrAscending(s)
    ensures Distinct(s)
  {
    forall i, j | 0 <= i < j < |s|
      ensures s[i] != s[j]
    {
      StrLtIrreflexive(s[i]);
    }
  }

  lemma AscendingPrepend(x: Option<string>, s: seq<Option<string>>)
    requires Ascending(s)
    requires forall y :: y in s ==> KeyLt(x, y)
    ensures Ascending([x] + s)
  {
    var t := [x] + s;
    forall i, j | 0 <= i < j < |t|
      ensures KeyLt(t[i], t[j])
    {
      if i == 0 {
        assert t[j] in s;
      } else {
        assert t[i] == s[i - 1] && t[j] == s[j - 1];
      }
    }
  }

  /** Adds `x` to an ascending sequence of distinct keys. */
  function InsertKey(s: seq<Option<string>>, x: Option<string>): (r: seq<Option<string>>)
    requires Ascending(s)
    ensures Ascending(r)
    ensures forall y :: y in r <==> y in s || y == x
  {
    if s == [] then [x]
    else if x == s[0] then s
    else if KeyLt(x, s[0]) then
      assert forall y :: y in s ==> KeyLt(x, y) by {
        forall y | y in s
          ensures KeyLt(x, y)
        {
          if y != s[0] {
            var j :| 0 <= j < |s| && s[j] == y;
            KeyLtTransitive(x, s[0], y);
          }
        }
      }
      AscendingPrepend(x, s);
      [x] + s
    else
      var rest := InsertKey(s[1..], x);
      assert forall y :: y in rest ==> KeyLt(s[0], y) by {
        forall y | y in rest
          ensures KeyLt(s[0], y)
        {
          if y == x {
            KeyLtTotal(x, s[0]);
          } else {
            var j :| 0 <= j < |s[1..]| && s[1..][j] == y;
            assert s[j + 1] == y;
          }
        }
      }
      AscendingPrepend(s[0], rest);
      assert s == [s[0]] + s[1..];
      [s[0]] + rest
  }

  /** `.values_list(col, flat=True).distinct().order_by(col)`: each value of
      `xs` once, in ascending order. */
  function DistinctAscending(xs: seq<Option<string>>): (r: seq<Option<string>>)
    ensures Ascending(r) && Distinct(r)
    ensures forall y :: y in r <==> y in xs
  {
    if xs == [] then []
    else
      var r := InsertKey(DistinctAscending(xs[..|xs| - 1]), xs[|xs| - 1]);
      assert xs == xs[..|xs| - 1] + [xs[|xs| - 1]];
      AscendingIsDistinct(r);
      r
  }

  /** The present values of an ascending key sequence stay ascending. */
  lemma {:induction false} PresentAscending(s: seq<Option<string>>)
    requires Ascending(s)
    ensures StrAscending(Present(s))
  {
    if s != [] {
      assert Ascending(s[1..]);
      PresentAscending(s[1..]);
      var rest := Present(s[1..]);
      if s[0].Some? {
        var v := s[0].value;
        assert Present(s) == [v] + rest;
        forall i, j | 0 <= i < j < |[v] + rest|
          ensures StrLt(([v] + rest)[i], ([v] + rest)[j])
        {
          if i == 0 {
            var w := rest[j - 1];
            assert w in rest;
            assert Some(w) in s[1..];
            var k :| 0 <= k < |s[1..]| && s[1..][k] == Some(w);
            assert KeyLt(s[0], s[k + 1]);
          }
        }
      }
    }
  }

  // ---------------------------------------------------------------------
  // Column projections
  // ---------------------------------------------------------------------

  function LaneColumn(rs: seq<Transaction>): (r: seq<Option<string>>)
    ensures |r| == |rs|
    ensures forall i :: 0 <= i < |rs| ==> r[i] == rs[i].lane
  {
    if rs == [] then [] else [rs[0].lane] + LaneColumn(rs[1..])
  }

  function ClassColumn(rs: seq<Transaction>): (r: seq<Option<string>>)
    ensures |r| == |rs|
    ensures forall i :: 0 <= i < |rs| ==> r[i] == rs[i].vehicleClass
  {
    if rs == [] then [] else [rs[0].vehicleClass] + ClassColumn(rs[1..])
  }

  /** The distinct lanes of `rs`, absent lane first, then in code order. */
  function LanesPresent(rs: seq<Transaction>): (r: seq<Option<string>>)
    ensures Ascending(r) && Distinct(r)
    ensures forall l :: l in r <==> exists t :: t in rs && t.lane == l
  {
    var col := LaneColumn(rs);
    assert forall l :: l in col <==> exists t :: t in rs && t.lane == l by {
      forall l
        ensures l in col <==> exists t :: t in rs && t.lane == l
      {
        if exists t :: t in rs && t.lane == l {
          var t :| t in rs && t.lane == l;
          var i :| 0 <= i < |rs| && rs[i] == t;
          assert col[i] == l;
        }
      }
    }
    DistinctAscending(col)
  }

  /** The distinct present vehicle classes of `rs`, in code order. */
  function ClassesPresent(rs: seq<Transaction>): (r: seq<string>)
    ensures StrAscending(r) && Distinct(r)
    ensures forall c :: c in r <==> exists t :: t in rs && t.vehicleClass == Some(c)
  {
    var col := ClassColumn(rs);
    var keys := DistinctAscending(col);
    assert forall c :: Some(c) in col <==> exists t :: t in rs && t.vehicleClass == Some(c) by {
      forall c
        ensures Some(c) in col <==> exists t :: t in rs && t.vehicleClass == Some(c)
      {
        if exists t :: t in rs && t.vehicleClass == Some(c) {
          var t :| t in rs && t.vehicleClass == Some(c);
          var i :| 0 <= i < |rs| && rs[i] == t;
          assert col[i] == Some(c);
        }
      }
    }
    PresentAscending(keys);
    StrAscendingIsDistinct(Present(keys));
    Present(keys)
  }

  // ---------------------------------------------------------------------
  // ORDER BY capturedate DESC
  // ---------------------------------------------------------------------

  /** `a` may be listed before `b` when newest come first and absent
      capture times come last. */
  predicate NoOlder(a: Option<int>, b: Option<int>) {
    match a
    case None => b.None?
    case Some(x) => b.None? || x >= b.value
  }

  predicate NewestFirst(s: seq<Transaction>) {
    forall i, j :: 0 <= i < j < |s| ==> NoOlder(s[i].captureDate, s[j].captureDate)
  }

  lemma NewestFirstPrepend(x: Transaction, s: seq<Transaction>)
    requires NewestFirst(s)
    requires forall y :: y in s ==> NoOlder(x.captureDate, y.captureDate)
    ensures NewestFirst([x] + s)
  {
    var t := [x] + s;
    forall i, j | 0 <= i < j < |t|
      ensures NoOlder(t[i].captureDate, t[j].captureDate)
    {
      if i == 0 {
        assert t[j] in s;
      } else {
        assert t[i] == s[i - 1] && t[j] == s[j - 1];
      }
    }
  }

  /** The first row of a newest-first listing is no older than any row. */
  lemma HeadIsNewest(s: seq<Transaction>)
    requires NewestFirst(s) && s != []
    ensures forall y :: y in s ==> NoOlder(s[0].captureDate, y.captureDate)
  {
    forall y | y in s
      ensures NoOlder(s[0].captureDate, y.captureDate)
    {
      var j :| 0 <= j < |s| && s[j] == y;
      if j > 0 {
        assert NoOlder(s[0].captureDate, s[j].captureDate);
      }
    }
  }

  /** A row that is no older than the head of a newest-first listing can go
      in front of it. */
  lemma InsertAtFront(s: seq<Transaction>, x: Transaction)
    requires NewestFirst(s) && s != [] && NoOlder(x.captureDate, s[0].captureDate)
    ensures NewestFirst([x] + s)
  {
    HeadIsNewest(s);
    NewestFirstPrepend(x, s);
  }

  /** A row older than the head goes after it: the head stays no older than
      everything behind it. */
  lemma InsertBehind(s: seq<Transaction>, x: Transaction, rest: seq<Transaction>)
    requires NewestFirst(s) && s != [] && !NoOlder(x.captureDate, s[0].captureDate)
    requires NewestFirst(rest) && multiset(rest) == multiset(s[1..]) + multiset{x}
    ensures NewestFirst([s[0]] + rest)
  {
    HeadIsNewest(s);
    forall y | y in rest
      ensures NoOlder(s[0].captureDate, y.captureDate)
    {
      assert y in multiset(rest);
      if y != x {
        assert y in s[1..];
      }
    }
    NewestFirstPrepend(s[0], rest);
  }

  lemma FareTotalCons(x: Transaction, s: seq<Transaction>)
    ensures FareTotal([x] + s) == FareOf(x) + FareTotal(s)
  {
    assert ([x] + s)[1..] == s;
  }

  /** Puts `x` in front of the first row it is no older than. */
  function InsertByCapture(s: seq<Transaction>, x: Transaction): (r: seq<Transaction>)
    ensures multiset(r) == multiset(s) + multiset{x}
  {
    if s == [] then [x]
    else if NoOlder(x.captureDate, s[0].captureDate) then [x] + s
    else
      assert s == [s[0]] + s[1..];
      [s[0]] + InsertByCapture(s[1..], x)
  }

  lemma {:induction false} InsertKeepsNewestFirst(s: seq<Transaction>, x: Transaction)
    requires NewestFirst(s)
    ensures NewestFirst(InsertByCapture(s, x))
  {
    if s != [] && !NoOlder(x.captureDate, s[0].captureDate) {
      InsertKeepsNewestFirst(s[1..], x);
      InsertBehind(s, x, InsertByCapture(s[1..], x));
    } else if s != [] {
      InsertAtFront(s, x);
    }
  }

  lemma {:induction false} InsertAddsFare(s: seq<Transaction>, x: Transaction)
    ensures FareTotal(InsertByCapture(s, x)) == FareTotal(s) + FareOf(x)
  {
    if s == [] {
    } else if NoOlder(x.captureDate, s[0].captureDate) {
      FareTotalCons(x, s);
    } else {
      InsertAddsFare(s[1..], x);
      FareTotalCons(s[0], InsertByCapture(s[1..], x));
      FareTotalCons(s[0], s[1..]);
      assert s == [s[0]] + s[1..];
    }
  }

  lemma SameLengthAsMultiset(s: seq<Transaction>, r: seq<Transaction>)
    requires s != [] && multiset(r) == multiset(s[1..]) + multiset{s[0]}
    ensures multiset(r) == multiset(s) && |r| == |s|
  {
    assert s == [s[0]] + s[1..];
    assert |r| == |multiset(r)|;
  }

  /** `.order_by('-capturedate')`: the same rows, newest first. Rows with the
      same capture time may come in any order in SQL; this model keeps one. */
  function NewestFirstOrder(s: seq<Transaction>): (r: seq<Transaction>)
    ensures NewestFirst(r)
    ensures multiset(r) == multiset(s)
    ensures |r| == |s|
    ensures FareTotal(r) == FareTotal(s)
  {
    if s == [] then []
    else
      var t := NewestFirstOrder(s[1..]);
      InsertKeepsNewestFirst(t, s[0]);
      InsertAddsFare(t, s[0]);
      SameLengthAsMultiset(s, InsertByCapture(t, s[0]));
      InsertByCapture(t, s[0])
  }
}
