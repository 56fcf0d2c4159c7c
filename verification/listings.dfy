/** The filtered listings of the views: the daily listing (30 rows a page,
    with the revenue of the whole period), the lane-shift listing (10 rows a
    page, narrowed by the form's lane, vehicle type and payment type), and
    the image lookup by transaction sequence. */
module Listings {
  import opened Basics
  import opened Records
  import opened Ordering
  import opened Paging
  import opened Reports

  // ---------------------------------------------------------------------
  // Daily listing
  // ---------------------------------------------------------------------

  const DailyPageSize: nat := 30
  const ShiftPageSize: nat := 10

  /** The period, no shift events, no violations. */
  function DailyQuery(start: int, end: int): Pred {
    AllOf([CapturedFrom(start), CapturedUntil(end), NotShiftEvent, NotViolation])
  }

  lemma DailyQueryHolds(start: int, end: int, r: Transaction)
    ensures Holds(DailyQuery(start, end), r) <==>
      Captured(r, start, end) && r.transType !in ShiftEvents && r.vehicleClass != Some("0")
  {
    var ps := [CapturedFrom(start), CapturedUntil(end), NotShiftEvent, NotViolation];
    HoldsAll4(ps, r);
    ExclusionsHold(r);
  }

  /** `request.POST.get('page') or request.GET.get('page')`: an empty form
      value falls through to the query string. */
  function PickPage(post: Option<string>, get: Option<string>): (raw: Option<string>)
    ensures raw == post || raw == get
    ensures post.Some? && post.value != "" ==> raw == post
  {
    if post.Some? && post.value != "" then post else get
  }

  /** The listing newest first, with rows lacking a capture time last. */
  function DailyRows(rs: seq<Transaction>, start: int, end: int): seq<Transaction> {
    NewestFirstOrder(Select(rs, DailyQuery(start, end)))
  }

  datatype DailyListing = DailyListing(page: Page<Transaction>, totalRevenue: int)

  function DailyReport(rs: seq<Transaction>, start: int, end: int, postPage: Option<string>, getPage: Option<string>): DailyListing {
    DailyListing(
      PageOf(DailyRows(rs, start, end), DailyPageSize, PageNumber(PickPage(postPage, getPage))),
      FareSum(rs, DailyQuery(start, end)))
  }

  /** Every row on a daily page is a row of the table inside the period that
      is neither a shift event nor a violation, and the page is newest
      first. */
  lemma DailyPageRows(rs: seq<Transaction>, start: int, end: int, postPage: Option<string>, getPage: Option<string>)
    ensures var items := DailyReport(rs, start, end, postPage, getPage).page.items;
      && |items| <= DailyPageSize
      && NewestFirst(items)
      && (forall r :: r in items ==>
            r in rs && Captured(r, start, end) && r.transType !in ShiftEvents && r.vehicleClass != Some("0"))
  {
    var all := DailyRows(rs, start, end);
    var p := PageOf(all, DailyPageSize, PageNumber(PickPage(postPage, getPage)));
    assert p == DailyReport(rs, start, end, postPage, getPage).page;
    PageKeepsOrder(all, DailyPageSize, p.number);
    forall r | r in p.items
      ensures r in rs && Captured(r, start, end) && r.transType !in ShiftEvents && r.vehicleClass != Some("0")
    {
      PageRowsListed(all, DailyPageSize, p.number, r);
      DailyRowsListed(rs, start, end, r);
    }
  }

  /** A page of a newest-first listing is itself newest first. */
  lemma PageKeepsOrder(xs: seq<Transaction>, perPage: nat, k: nat)
    requires perPage > 0 && k >= 1
    requires NewestFirst(xs)
    ensures NewestFirst(PageItems(xs, perPage, k))
  {
    var items := PageItems(xs, perPage, k);
    forall i, j | 0 <= i < j < |items|
      ensures NoOlder(items[i].captureDate, items[j].captureDate)
    {
      PageItemAt(xs, perPage, k, i);
      PageItemAt(xs, perPage, k, j);
    }
  }

  lemma PageRowsListed(xs: seq<Transaction>, perPage: nat, k: nat, r: Transaction)
    requires perPage > 0 && k >= 1
    requires r in PageItems(xs, perPage, k)
    ensures r in xs
  {
    var items := PageItems(xs, perPage, k);
    var i :| 0 <= i < |items| && items[i] == r;
    assert xs[(k - 1) * perPage + i] == r;
  }

  lemma DailyRowsListed(rs: seq<Transaction>, start: int, end: int, r: Transaction)
    requires r in DailyRows(rs, start, end)
    ensures r in rs && Captured(r, start, end) && r.transType !in ShiftEvents && r.vehicleClass != Some("0")
  {
    var sel := Select(rs, DailyQuery(start, end));
    assert r in multiset(DailyRows(rs, start, end));
    assert r in sel;
    DailyQueryHolds(start, end, r);
  }

  /** The revenue shown with any page is the fare sum of the whole filtered
      period, absent fares counting as 0: the fares of all its pages laid end
      to end, whichever page is requested. */
  lemma DailyRevenue(rs: seq<Transaction>, start: int, end: int, postPage: Option<string>, getPage: Option<string>)
    ensures var d, all := DailyReport(rs, start, end, postPage, getPage), DailyRows(rs, start, end);
      && Paged(all, DailyPageSize, d.page.numPages) == all
      && d.totalRevenue == FareTotal(all)
      && (forall r :: r in all <==> r in rs && Holds(DailyQuery(start, end), r))
      && d.totalRevenue == DailyReport(rs, start, end, None, None).totalRevenue
  {
    var sel := Select(rs, DailyQuery(start, end));
    var all := DailyRows(rs, start, end);
    PagesCover(all, DailyPageSize);
    forall r
      ensures r in all <==> r in sel
    {
      assert r in all <==> r in multiset(all);
      assert r in sel <==> r in multiset(sel);
    }
  }

  // ---------------------------------------------------------------------
  // Full listing
  // ---------------------------------------------------------------------

  const ListPageSize: nat := 10

  /** `transaction_list`: the whole table but shift events and violations. */
  const ListQuery: Pred := And(NotShiftEvent, NotViolation)

  lemma ListQueryHolds(r: Transaction)
    ensures Holds(ListQuery, r) <==> r.transType !in ShiftEvents && r.vehicleClass != Some("0")
  {
    ExclusionsHold(r);
  }

  function TransactionList(rs: seq<Transaction>, getPage: Option<string>): Page<Transaction> {
    PageOf(NewestFirstOrder(Select(rs, ListQuery)), ListPageSize, PageNumber(getPage))
  }

  /** The pages of the full listing together hold exactly the table's rows
      that are neither shift events nor violations, newest first. */
  lemma TransactionListing(rs: seq<Transaction>)
    ensures var all := NewestFirstOrder(Select(rs, ListQuery));
      && Paged(all, ListPageSize, NumPages(|all|, ListPageSize)) == all
      && NewestFirst(all)
      && (forall r :: r in all <==> r in rs && r.transType !in ShiftEvents && r.vehicleClass != Some("0"))
      && (forall r :: multiset(all)[r] == if Holds(ListQuery, r) then multiset(rs)[r] else 0)
  {
    var sel := Select(rs, ListQuery);
    var all := NewestFirstOrder(sel);
    PagesCover(all, ListPageSize);
    SelectMultiset(rs, ListQuery);
    forall r
      ensures r in all <==> r in rs && Holds(ListQuery, r)
    {
      assert r in all <==> r in multiset(all);
      assert r in sel <==> r in multiset(sel);
    }
    forall r
      ensures Holds(ListQuery, r) <==> r.transType !in ShiftEvents && r.vehicleClass != Some("0")
    {
      ListQueryHolds(r);
    }
  }

  // ---------------------------------------------------------------------
  // Lane-shift listing
  // ---------------------------------------------------------------------

  /** The form's three selections; each may be missing from the POST. */
  datatype ShiftForm = ShiftForm(lane: Option<string>, vType: Option<string>, pType: Option<string>)

  const All: string := "All"

  /** The vehicle type selection as a class code: "Violation" is class 0. */
  function VehicleCode(vType: Option<string>): (v: Option<string>)
    ensures vType == Some("Violation") ==> v == Some("0")
    ensures vType != Some("Violation") ==> v == vType
  {
    if vType == Some("Violation") then Some("0") else vType
  }

  /** The payment type selection as a pay type code. */
  function PayCode(pType: Option<string>): (p: Option<string>)
    ensures pType == Some("Cash") ==> p == Some(Cash)
    ensures pType == Some("Exempt") ==> p == Some(Exempt)
    ensures pType != Some("Cash") && pType != Some("Exempt") ==> p == pType
  {
    if pType == Some("Cash") then Some(Cash)
    else if pType == Some("Exempt") then Some(Exempt)
    else pType
  }

  /** Narrows `q` by `p` unless the selection is "All". */
  function Unless(q: Pred, selection: Option<string>, p: Pred): Pred {
    if selection != Some(All) then And(q, p) else q
  }

  function ShiftQuery(start: int, end: int, form: ShiftForm): Pred {
    var v, p := VehicleCode(form.vType), PayCode(form.pType);
    var base := AllOf([CapturedFrom(start), CapturedUntil(end), NotShiftEvent]);
    Unless(Unless(Unless(base, form.lane, LaneIs(form.lane)), v, ClassIs(v)), p, PayTypeIs(p))
  }

  lemma UnlessHolds(q: Pred, selection: Option<string>, p: Pred, r: Transaction)
    ensures Holds(Unless(q, selection, p), r) <==> Holds(q, r) && (selection == Some(All) || Holds(p, r))
  {
  }

  /** A row is listed exactly when it is inside the period, is not a shift
      event, and matches every selection that is not "All"; "Violation"
      selects class 0 and "Cash"/"Exempt" select `CSH`/`VCH`. */
  lemma ShiftQueryHolds(start: int, end: int, form: ShiftForm, r: Transaction)
    ensures Holds(ShiftQuery(start, end, form), r) <==>
      && Captured(r, start, end)
      && r.transType !in ShiftEvents
      && (form.lane == Some(All) || r.lane == form.lane)
      && (form.vType == Some(All) || r.vehicleClass == VehicleCode(form.vType))
      && (form.pType == Some(All) || r.payType == PayCode(form.pType))
  {
    var ps := [CapturedFrom(start), CapturedUntil(end), NotShiftEvent];
    var base := AllOf(ps);
    HoldsAll3(ps, r);
    ExclusionsHold(r);
    var v, p := VehicleCode(form.vType), PayCode(form.pType);
    var q1 := Unless(base, form.lane, LaneIs(form.lane));
    var q2 := Unless(q1, v, ClassIs(v));
    UnlessHolds(base, form.lane, LaneIs(form.lane), r);
    UnlessHolds(q1, v, ClassIs(v), r);
    UnlessHolds(q2, p, PayTypeIs(p), r);
    assert v == Some(All) <==> form.vType == Some(All);
    assert p == Some(All) <==> form.pType == Some(All);
  }

  function LaneShiftReport(rs: seq<Transaction>, start: int, end: int, form: ShiftForm, getPage: Option<string>): Page<Transaction> {
    PageOf(NewestFirstOrder(Select(rs, ShiftQuery(start, end, form))), ShiftPageSize, PageNumber(getPage))
  }

  /** All lane-shift pages together list exactly the matching rows, each as
      often as it occurs in the table, newest first. */
  lemma LaneShiftListing(rs: seq<Transaction>, start: int, end: int, form: ShiftForm)
    ensures var all := NewestFirstOrder(Select(rs, ShiftQuery(start, end, form)));
      && Paged(all, ShiftPageSize, NumPages(|all|, ShiftPageSize)) == all
      && NewestFirst(all)
      && (forall r :: r in all <==> r in rs && Holds(ShiftQuery(start, end, form), r))
      && (forall r :: multiset(all)[r] == if Holds(ShiftQuery(start, end, form), r) then multiset(rs)[r] else 0)
  {
    var sel := Select(rs, ShiftQuery(start, end, form));
    var all := NewestFirstOrder(sel);
    PagesCover(all, ShiftPageSize);
    SelectMultiset(rs, ShiftQuery(start, end, form));
    forall r
      ensures r in all <==> r in sel
    {
      assert r in all <==> r in multiset(all);
      assert r in sel <==> r in multiset(sel);
    }
  }

  // ---------------------------------------------------------------------
  // Image lookup
  // ---------------------------------------------------------------------

  /** The image response: the picture bytes, or "Image not found". */
  datatype ImageResponse = Image(bytes: seq<byte>) | NotFound

  /** `.filter(sequence=id, pic__isnull=False).first()` under the model's
      default ordering: the newest matching row. */
  function ImageCandidates(rs: seq<Transaction>, id: string): seq<Transaction> {
    NewestFirstOrder(Select(rs, And(SequenceIs(id), Not(PicIsNull))))
  }

  function GetImage(rs: seq<Transaction>, id: string): ImageResponse {
    var cs := ImageCandidates(rs, id);
    if cs == [] then NotFound
    else if cs[0].pic.Some? && cs[0].pic.value != [] then Image(cs[0].pic.value)
    else NotFound
  }

  lemma CandidateHolds(rs: seq<Transaction>, id: string, r: Transaction)
    ensures r in ImageCandidates(rs, id) <==> r in rs && r.sequence == id && r.pic.Some?
  {
    var sel := Select(rs, And(SequenceIs(id), Not(PicIsNull)));
    HoldsAndNot(SequenceIs(id), PicIsNull, r);
    assert r in ImageCandidates(rs, id) <==> r in multiset(ImageCandidates(rs, id));
    assert r in sel <==> r in multiset(sel);
  }

  /** A returned image is a non-empty picture of a row with that sequence,
      and no other row with that sequence and a picture is newer. */
  lemma GetImageFound(rs: seq<Transaction>, id: string)
    requires GetImage(rs, id).Image?
    ensures var b := GetImage(rs, id).bytes;
      && b != []
      && exists r :: r in rs && r.sequence == id && r.pic == Some(b)
           && forall u :: u in rs && u.sequence == id && u.pic.Some? ==> NoOlder(r.captureDate, u.captureDate)
  {
    var cs := ImageCandidates(rs, id);
    var r := cs[0];
    assert r in cs;
    CandidateHolds(rs, id, r);
    forall u | u in rs && u.sequence == id && u.pic.Some?
      ensures NoOlder(r.captureDate, u.captureDate)
    {
      CandidateHolds(rs, id, u);
      var j :| 0 <= j < |cs| && cs[j] == u;
      if j > 0 {
        assert NoOlder(cs[0].captureDate, cs[j].captureDate);
      } else {
        NoOlderReflexive(r.captureDate);
      }
    }
  }

  lemma NoOlderReflexive(a: Option<int>)
    ensures NoOlder(a, a)
  {
  }

  /** "Image not found" exactly when no row with that sequence has a
      picture, or the newest such picture is empty. */
  lemma GetImageNotFound(rs: seq<Transaction>, id: string)
    ensures var cs := ImageCandidates(rs, id);
      && (cs == [] <==> forall r :: r in rs && r.sequence == id ==> r.pic.None?)
      && (GetImage(rs, id).NotFound? <==> cs == [] || cs[0].pic == Some([]))
  {
    var cs := ImageCandidates(rs, id);
    if cs != [] {
      assert cs[0] in cs;
      CandidateHolds(rs, id, cs[0]);
    } else {
      forall r | r in rs && r.sequence == id
        ensures r.pic.None?
      {
        CandidateHolds(rs, id, r);
      }
    }
  }

  // ---------------------------------------------------------------------
  // Shift events
  // ---------------------------------------------------------------------

  /** A collector's LOGIN or LOGOUT row satisfies none of the views' queries,
      so no listing shows it and no report counts it. */
  lemma ShiftEventsNeverCounted(r: Transaction, start: int, end: int, payType: string, form: ShiftForm)
    requires r.transType in ShiftEvents
    ensures !Holds(ListQuery, r)
    ensures !Holds(DailyQuery(start, end), r)
    ensures !Holds(ShiftQuery(start, end, form), r)
    ensures !Holds(LaneWiseQuery(start, end), r)
    ensures !Holds(SummaryQuery(start, end, payType), r)
  {
    ExclusionsHold(r);
    DailyQueryHolds(start, end, r);
    ShiftQueryHolds(start, end, form, r);
    SummaryQueryHolds(start, end, payType, r);
    HoldsAll5([CapturedFrom(start), CapturedUntil(end), PayTypeIs(Some(Cash)), NotShiftEvent, NotViolation], r);
  }
}
