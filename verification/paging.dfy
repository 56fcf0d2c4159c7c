/** The pagination the listings use: a fixed page size, a page number read
    from the request, and the fall-backs the views apply when that number is
    not an integer (first page) or out of range (last page). Page numbers
    start at 1, and an empty listing still has one (empty) page. */
module Paging {
  import opened Basics
  import opened Text

  function Min(a: int, b: int): int {
    if a <= b then a else b
  }

  /** How many pages `count` items fill, never fewer than one. */
  function NumPages(count: nat, perPage: nat): (n: nat)
    requires perPage > 0
    ensures n >= 1
    ensures count <= n * perPage
    ensures count == 0 || (n - 1) * perPage < count
  {
    if count == 0 then 1
    else
      var n := (count + perPage - 1) / perPage;
      assert (count + perPage - 1) % perPage < perPage;
      n
  }

  /** The texts `int` reads as a number here: a non-empty run of decimal
      digits, optionally after one minus sign. */
  predicate IsDecimal(s: string) {
    (|s| > 0 && AllDigits(s)) || (|s| > 1 && s[0] == '-' && AllDigits(s[1..]))
  }

  /** `int(page)` on the request's page value: `None` when the value is
      missing or is not an optionally negative decimal integer. */
  function PageNumber(raw: Option<string>): (n: Option<int>)
    ensures n.Some? <==> raw.Some? && IsDecimal(raw.value)
    ensures n.Some? && AllDigits(raw.value) ==> n.value == ParseNat(raw.value) as int
    ensures n.Some? && !AllDigits(raw.value) ==> n.value == -(ParseNat(raw.value[1..]) as int)
  {
    match raw
    case None => None
    case Some(s) =>
      if |s| > 0 && AllDigits(s) then Some(ParseNat(s) as int)
      else if |s| > 1 && s[0] == '-' && AllDigits(s[1..]) then Some(-(ParseNat(s[1..]) as int))
      else None
  }

  /** A page number written out by the templates' page links reads back as
      itself. */
  lemma PageNumberRoundTrip(k: nat)
    ensures PageNumber(Some(NatToString(k))) == Some(k as int)
  {
    ParseNatToString(k);
  }

  /** The page a view shows for the requested number: `None` stands for a
      value that is missing or not an integer (the first page is shown), and
      a number below 1 or past the end shows the last page. */
  function ResolvePage(requested: Option<int>, numPages: nat): (k: nat)
    requires numPages >= 1
    ensures 1 <= k <= numPages
    ensures requested.None? ==> k == 1
    ensures requested.Some? && 1 <= requested.value <= numPages ==> k == requested.value
    ensures requested.Some? && !(1 <= requested.value <= numPages) ==> k == numPages
  {
    match requested
    case None => 1
    case Some(n) => if 1 <= n <= numPages then n as nat else numPages
  }

  /** The items on page `k`. */
  function PageItems<T>(xs: seq<T>, perPage: nat, k: nat): (items: seq<T>)
    requires perPage > 0 && k >= 1
    ensures |items| <= perPage
    ensures forall i :: 0 <= i < |items| ==> (k - 1) * perPage + i < |xs| && items[i] == xs[(k - 1) * perPage + i]
  {
    xs[Min((k - 1) * perPage, |xs|)..Min(k * perPage, |xs|)]
  }

  /** The `i`-th item of page `k` is item `(k - 1) * perPage + i` of the
      listing. */
  lemma PageItemAt<T>(xs: seq<T>, perPage: nat, k: nat, i: nat)
    requires perPage > 0 && k >= 1
    requires i < |PageItems(xs, perPage, k)|
    ensures var n := (k - 1) * perPage + i;
      n < |xs| && PageItems(xs, perPage, k)[i] == xs[n]
  {
  }

  /** A page as the templates see it: its number, the page size, the page
      count and the items. */
  datatype Page<T> = Page(number: nat, perPage: nat, numPages: nat, items: seq<T>)

  /** `paginator.page(page)` with the views' fall-backs. */
  function PageOf<T>(xs: seq<T>, perPage: nat, requested: Option<int>): (p: Page<T>)
    requires perPage > 0
    ensures p.perPage == perPage && p.numPages == NumPages(|xs|, perPage)
    ensures 1 <= p.number <= p.numPages
    ensures p.items == PageItems(xs, perPage, p.number)
    ensures p.items == [] <==> xs == []
  {
    var n := NumPages(|xs|, perPage);
    var k := ResolvePage(requested, n);
    MulMonotone(k - 1, n - 1, perPage);
    Page(k, perPage, n, PageItems(xs, perPage, k))
  }

  lemma MulMonotone(a: nat, b: nat, c: nat)
    requires a <= b
    ensures a * c <= b * c
  {
  }

  /** Pages 1 to `m` laid end to end. */
  function Paged<T>(xs: seq<T>, perPage: nat, m: nat): seq<T>
    requires perPage > 0
  {
    if m == 0 then [] else Paged(xs, perPage, m - 1) + PageItems(xs, perPage, m)
  }

  /** The first `m` pages are a prefix of the listing. */
  lemma {:induction false} PagedPrefix<T>(xs: seq<T>, perPage: nat, m: nat)
    requires perPage > 0
    ensures Paged(xs, perPage, m) == xs[..Min(m * perPage, |xs|)]
  {
    if m > 0 {
      PagedPrefix(xs, perPage, m - 1);
      MulMonotone(m - 1, m, perPage);
      assert (m - 1) * perPage + perPage == m * perPage;
      var lo, hi := Min((m - 1) * perPage, |xs|), Min(m * perPage, |xs|);
      assert xs[..lo] + xs[lo..hi] == xs[..hi];
    }
  }

  /** All pages together are the whole listing, each item once, in order. */
  lemma PagesCover<T>(xs: seq<T>, perPage: nat)
    requires perPage > 0
    ensures Paged(xs, perPage, NumPages(|xs|, perPage)) == xs
  {
    PagedPrefix(xs, perPage, NumPages(|xs|, perPage));
  }
}
