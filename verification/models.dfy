/** The three tables' models: the read-only TRANSACTION and EXEMT_LIST
    tables whose manager and rows refuse every write, the display properties
    of a transaction row, and the USERS table's permission and password
    methods. */
module Models {
  import opened Basics
  import opened Text
  import opened Records
  import opened Labels
  import opened Listings

  // ---------------------------------------------------------------------
  // Read-only tables
  // ---------------------------------------------------------------------

  /** One row of the EXEMT_LIST table (the exempt vehicle register). */
  datatype ExemptEntry = ExemptEntry(
    id: int,
    regNumber: Option<string>,
    ownerName: Option<string>,
    ownerGroup: Option<string>,
    reference: Option<string>,
    contactNumber: Option<string>,
    approvedBy: Option<string>,
    comments: Option<string>,
    pic: Option<seq<byte>>,
    suspended: Option<bool>,
    dateCreated: Option<int>)

  /** The two tables the application reads and never writes. */
  datatype Db = Db(transactions: seq<Transaction>, exemptList: seq<ExemptEntry>)

  datatype Table = TransactionTable | ExemptListTable

  /** The writes the ORM offers: the manager's `create`, `bulk_create`,
      `update`, `bulk_update`, `delete`, and a row's `save` and `delete`. */
  datatype Write =
    | Create
    | BulkCreate
    | Update
    | BulkUpdate
    | DeleteAll
    | SaveRow
    | DeleteRow

  /** What the `PermissionDenied` message says is refused. */
  datatype Refusal = NewData | BulkCreateRefused | UpdateRefused | BulkUpdateRefused | DeleteRefused | ChangeRefused

  /** A `PermissionDenied` error: the table its message names and what it
      refuses. */
  datatype Denial = Denial(named: Table, refusal: Refusal)

  /** A write attempt: the error raised and the database afterwards. */
  datatype Attempted = Attempted(denial: Denial, after: Db)

  /** The manager's writes. Both tables share one manager, whose messages
      name the TRANSACTION table whichever table is written. */
  predicate IsManagerWrite(w: Write) {
    !w.SaveRow? && !w.DeleteRow?
  }

  function RefusalOf(w: Write): Refusal {
    match w
    case Create => NewData
    case BulkCreate => BulkCreateRefused
    case Update => UpdateRefused
    case BulkUpdate => BulkUpdateRefused
    case DeleteAll => DeleteRefused
    case SaveRow => ChangeRefused
    case DeleteRow => DeleteRefused
  }

  /** Issues write `w` against table `t`: every write raises
      `PermissionDenied` before touching the database. */
  function Attempt(db: Db, t: Table, w: Write): (r: Attempted)
    ensures r.after == db
    ensures r.denial.refusal == RefusalOf(w)
    ensures IsManagerWrite(w) ==> r.denial.named == TransactionTable
    ensures !IsManagerWrite(w) ==> r.denial.named == t
  {
    var named := if IsManagerWrite(w) then TransactionTable else t;
    Attempted(Denial(named, RefusalOf(w)), db)
  }

  /** A sequence of write attempts, each applied to the database the previous
      one left; collects the errors raised. */
  function Run(db: Db, calls: seq<(Table, Write)>): (r: (Db, seq<Denial>))
    ensures |r.1| == |calls|
  {
    if calls == [] then (db, [])
    else
      var a := Attempt(db, calls[0].0, calls[0].1);
      var rest := Run(a.after, calls[1..]);
      (rest.0, [a.denial] + rest.1)
  }

  /** No sequence of writes changes either table, and each write is refused
      with the error it raises on its own. */
  lemma {:induction false} RunChangesNothing(db: Db, calls: seq<(Table, Write)>)
    ensures Run(db, calls).0 == db
    ensures forall i :: 0 <= i < |calls| ==>
      Run(db, calls).1[i] == Attempt(db, calls[i].0, calls[i].1).denial
  {
    if calls != [] {
      RunChangesNothing(db, calls[1..]);
      var r := Run(db, calls);
      forall i | 0 <= i < |calls|
        ensures r.1[i] == Attempt(db, calls[i].0, calls[i].1).denial
      {
        if i > 0 {
          assert calls[1..][i - 1] == calls[i];
        }
      }
    }
  }

  /** Every query over the TRANSACTION table answers the same after any
      sequence of write attempts. */
  lemma QueriesSurviveWrites(db: Db, calls: seq<(Table, Write)>, q: Pred)
    ensures Select(Run(db, calls).0.transactions, q) == Select(db.transactions, q)
    ensures FareSum(Run(db, calls).0.transactions, q) == FareSum(db.transactions, q)
  {
    RunChangesNothing(db, calls);
  }

  // ---------------------------------------------------------------------
  // Display properties of a transaction row
  // ---------------------------------------------------------------------

  /** `get_payment_type_display`: known pay type codes get a name, any other
      value (including an absent one) is shown as it is. */
  function PaymentDisplay(payType: Option<string>): (shown: Option<string>)
    ensures payType == Some(Cash) ==> shown == Some("Cash")
    ensures payType == Some(Exempt) ==> shown == Some("Exempt")
    ensures payType == Some("TnG") ==> shown == Some("T&G")
    ensures payType !in {Some(Cash), Some(Exempt), Some("TnG")} ==> shown == payType
  {
    match payType
    case Some("CSH") => Some("Cash")
    case Some("VCH") => Some("Exempt")
    case Some("TnG") => Some("T&G")
    case Some("ETC") => Some("ETC")
    case _ => payType
  }

  /** The listing filter's names and the display names agree: choosing
      "Cash" or "Exempt" selects the code that is displayed under that name. */
  lemma PaymentDisplayMatchesFilter(name: string)
    requires name == "Cash" || name == "Exempt"
    ensures PaymentDisplay(PayCode(Some(name))) == Some(name)
    ensures PayCode(Some(name)) != Some(name)
  {
  }

  /** A stored pay type that is already a display name is indistinguishable
      from its code once displayed. */
  lemma PaymentDisplayNotInjective()
    ensures PaymentDisplay(Some("Cash")) == PaymentDisplay(Some(Cash))
    ensures Some("Cash") != Some(Cash)
  {
  }

  /** `get_vehicle_type_display`: the same table and fallback as the
      report views. */
  function VehicleTypeDisplay(r: Transaction): (shown: string)
    ensures r.vehicleClass.Some? && VehicleType(r.vehicleClass.value).Some? ==>
      shown == VehicleType(r.vehicleClass.value).value
    ensures !(r.vehicleClass.Some? && VehicleType(r.vehicleClass.value).Some?) ==>
      shown == "Class " + Show(r.vehicleClass)
  {
    VehicleClassDisplay(r.vehicleClass)
  }

  /** Rows of different present classes are shown differently. */
  lemma VehicleTypeDisplaySeparatesClasses(r: Transaction, s: Transaction)
    requires r.vehicleClass.Some? && s.vehicleClass.Some?
    requires r.vehicleClass != s.vehicleClass
    ensures VehicleTypeDisplay(r) != VehicleTypeDisplay(s)
  {
    VehicleClassDisplayInjective(r.vehicleClass.value, s.vehicleClass.value);
  }

  /** The model's lane table: E101 is "ECR 1" here. */
  function ModelLaneName(code: string): Option<string> {
    match code
    case "E101" => Some("ECR 1")
    case "L101" => Some("Lane 1")
    case "L102" => Some("Lane 2")
    case "L103" => Some("Lane 3")
    case "L104" => Some("Lane 4")
    case "L105" => Some("Lane 5")
    case "L106" => Some("Lane 6")
    case "L107" => Some("Lane 7")
    case "L108" => Some("Lane 8")
    case "L109" => Some("Lane 9")
    case "L110" => Some("Lane 10")
    case "L112" => Some("Lane 12")
    case _ => None
  }

  /** The row's `get_lane_display`. */
  function RowLaneDisplay(r: Transaction): (shown: string)
    ensures r.lane.Some? && ModelLaneName(r.lane.value).Some? ==> shown == ModelLaneName(r.lane.value).value
    ensures r.lane == None || r.lane == Some("") ==> shown == "Unknown Lane"
    ensures r.lane.Some? && ModelLaneName(r.lane.value).None? && r.lane.value != "" ==> shown == r.lane.value
  {
    LaneLabel(if r.lane.Some? then ModelLaneName(r.lane.value) else None, r.lane)
  }

  /** The row's lane label and the report views' lane label agree on every
      lane except E101, which the row calls "ECR 1" and the reports call
      "Emergency Lane". */
  lemma LaneLabelsAgreeExceptE101(r: Transaction)
    ensures r.lane != Some("E101") ==> RowLaneDisplay(r) == LaneDisplay(r.lane)
    ensures r.lane == Some("E101") ==> RowLaneDisplay(r) == "ECR 1" && LaneDisplay(r.lane) == "Emergency Lane"
  {
    if r.lane.Some? && r.lane.value != "E101" {
      assert ModelLaneName(r.lane.value) == ViewLaneName(r.lane.value);
    }
  }

  // ---------------------------------------------------------------------
  // Fare formatting
  // ---------------------------------------------------------------------

  function TwoDigits(n: nat): (s: string)
    requires n < 100
    ensures |s| == 2 && AllDigits(s)
  {
    [DigitChar(n / 10), DigitChar(n % 10)]
  }

  function Abs(c: int): nat {
    if c < 0 then -c else c
  }

  /** `get_formatted_fare`: `f"{fare:.2f}"` for a fare held in cents; an
      absent or zero fare is "0.00". */
  function FormatFare(fare: Option<int>): (s: string)
    ensures |s| >= 4 && s[|s| - 3] == '.'
    ensures fare == None || fare == Some(0) ==> s == "0.00"
    ensures (fare.Some? && fare.value < 0) <==> s[0] == '-'
  {
    if fare.None? || fare.value == 0 then "0.00"
    else
      var a := Abs(fare.value);
      var whole := NatToString(a / 100);
      (if fare.value < 0 then "-" else "") + whole + "." + TwoDigits(a % 100)
  }

  /** Reads "<digits>.<two digits>" as a number of cents. */
  function ParseUnsigned(t: string): (cents: Option<nat>)
  {
    if |t| < 4 || t[|t| - 3] != '.' then None
    else
      var whole, frac := t[..|t| - 3], t[|t| - 2..];
      if AllDigits(whole) && AllDigits(frac) then Some(ParseNat(whole) * 100 + ParseNat(frac))
      else None
  }

  /** Reads a fare back from its two-decimal text, with an optional minus. */
  function ParseFare(s: string): (fare: Option<int>)
  {
    if s != [] && s[0] == '-' then
      match ParseUnsigned(s[1..])
      case Some(m) => Some(-(m as int))
      case None => None
    else
      match ParseUnsigned(s)
      case Some(m) => Some(m)
      case None => None
  }

  lemma TwoDigitsValue(n: nat)
    requires n < 100
    ensures ParseNat(TwoDigits(n)) == n
  {
    var s := TwoDigits(n);
    assert DigitValue(s[0]) == n / 10 && DigitValue(s[1]) == n % 10;
    assert s[..1][..0] == [];
    assert ParseNat(s[..1]) == n / 10;
    assert s[..|s| - 1] == s[..1];
  }

  /** "<whole>.<cents>" reads back as its value in cents. */
  lemma ParseUnsignedParts(whole: string, cents: string)
    requires whole != [] && AllDigits(whole) && AllDigits(cents) && |cents| == 2
    ensures ParseUnsigned(whole + "." + cents) == Some(ParseNat(whole) * 100 + ParseNat(cents))
  {
    var t := whole + "." + cents;
    assert t[..|t| - 3] == whole;
    assert t[|t| - 2..] == cents;
  }

  lemma ParseNegativeFare(t: string)
    ensures ParseUnsigned(t).Some? ==> ParseFare("-" + t) == Some(-(ParseUnsigned(t).value as int))
  {
    assert ("-" + t)[1..] == t;
  }

  lemma ParseUnsignedFare(t: string)
    requires t != [] && IsDigit(t[0])
    ensures ParseUnsigned(t).Some? ==> ParseFare(t) == Some(ParseUnsigned(t).value)
  {
  }

  lemma ParseZeroFare()
    ensures ParseFare("0.00") == Some(0)
  {
    ParseUnsignedParts("0", "00");
    assert ParseNat("0") == 0;
    assert ParseNat("00") == 0 by {
      assert "00"[..1] == "0";
      assert "0"[..0] == [];
    }
    assert "0" + "." + "00" == "0.00";
    ParseUnsignedFare("0.00");
  }

  /** The unsigned text of an amount of cents. */
  function UnsignedText(a: nat): string {
    NatToString(a / 100) + "." + TwoDigits(a % 100)
  }

  lemma UnsignedTextValue(a: nat)
    ensures ParseUnsigned(UnsignedText(a)) == Some(a)
    ensures IsDigit(UnsignedText(a)[0])
  {
    var whole, cents := NatToString(a / 100), TwoDigits(a % 100);
    ParseUnsignedParts(whole, cents);
    ParseNatToString(a / 100);
    TwoDigitsValue(a % 100);
    assert UnsignedText(a)[0] == whole[0];
  }

  lemma ParseNonZeroFare(c: int)
    requires c != 0
    ensures ParseFare(FormatFare(Some(c))) == Some(c)
  {
    var t := UnsignedText(Abs(c));
    UnsignedTextValue(Abs(c));
    if c < 0 {
      assert FormatFare(Some(c)) == "-" + t;
      ParseNegativeFare(t);
    } else {
      assert FormatFare(Some(c)) == t;
      ParseUnsignedFare(t);
    }
  }

  /** The formatted fare reads back as the fare, so different fares are
      never shown alike, except that an absent fare is shown as zero. */
  lemma FormatFareRoundTrip(fare: Option<int>)
    ensures ParseFare(FormatFare(fare)) == Some(fare.GetOr(0))
  {
    if fare.GetOr(0) == 0 {
      ParseZeroFare();
    } else {
      ParseNonZeroFare(fare.value);
    }
  }

  // ---------------------------------------------------------------------
  // Users
  // ---------------------------------------------------------------------

  /** One row of the USERS table; passwords are stored as given. */
  datatype TollUser = TollUser(
    userId: string,
    username: string,
    password: string,
    name: string,
    role: string,
    active: bool,
    createdDate: int,
    lastLogin: Option<int>)

  /** `has_perm`: admins (in either case) and web admins, web users and
      operators (in any case) hold every permission. */
  function HasPerm(u: TollUser, perm: string): (r: bool)
  {
    if Lower(u.role) == "admin" || Upper(u.role) == "ADMIN" then true
    else Lower(u.role) in {"webadmin", "webuser"} || Upper(u.role) == "OPERATOR"
  }

  /** The roles holding permissions, compared without regard to case. */
  const PermittedRoles: set<string> := {"admin", "webadmin", "webuser", "operator"}

  /** Upper-casing matches "ADMIN" exactly when lower-casing matches "admin". */
  lemma AdminTestIsCaseInsensitive(role: string)
    ensures Upper(role) == "ADMIN" <==> Lower(role) == "admin"
  {
    assert Upper("admin") == "ADMIN";
    UpperMatchesIffLowerMatches(role, "admin");
  }

  lemma OperatorTestIsCaseInsensitive(role: string)
    ensures Upper(role) == "OPERATOR" <==> Lower(role) == "operator"
  {
    UpperOperator();
    UpperMatchesIffLowerMatches(role, "operator");
  }

  lemma UpperOperator()
    ensures IsLowerWord("operator") && Upper("operator") == "OPERATOR"
  {
    var u := Upper("operator");
    assert u[0] == 'O' && u[1] == 'P' && u[2] == 'E' && u[3] == 'R';
    assert u[4] == 'A' && u[5] == 'T' && u[6] == 'O' && u[7] == 'R';
  }

  /** `has_perm` is a case-insensitive test of the role, whatever the
      permission asked for. */
  lemma HasPermIffPermittedRole(u: TollUser, perm: string)
    ensures HasPerm(u, perm) <==> Lower(u.role) in PermittedRoles
  {
    AdminTestIsCaseInsensitive(u.role);
    OperatorTestIsCaseInsensitive(u.role);
  }

  /** `has_perms`: every listed permission is held; an empty list always is. */
  function HasPerms(u: TollUser, perms: seq<string>): (r: bool)
    ensures perms == [] ==> r
    ensures perms != [] ==> (r <==> HasPerm(u, perms[0]))
  {
    forall i :: 0 <= i < |perms| ==> HasPerm(u, perms[i])
  }

  /** The roles `has_module_perms` and the login backend admit, matched
      exactly. */
  const AllowedRoles: seq<string> := ["admin", "webadmin", "webuser", "ADMIN", "OPERATOR"]

  /** `has_module_perms`: the role is one of the listed spellings. */
  function HasModulePerms(u: TollUser, appLabel: string): (r: bool)
  {
    u.role in AllowedRoles
  }

  /** A user with module permissions holds every permission, but not the
      other way round: the module test is case-sensitive and the permission
      test is not. */
  lemma ModulePermsImplyPerms(u: TollUser, appLabel: string, perm: string)
    ensures HasModulePerms(u, appLabel) ==> HasPerm(u, perm)
  {
    if HasModulePerms(u, appLabel) {
      HasPermIffPermittedRole(u, perm);
      ModuleRoleIsPermitted(u.role);
    }
  }

  lemma ModuleRoleIsPermitted(role: string)
    requires role in AllowedRoles
    ensures Lower(role) in PermittedRoles
  {
    if role == "ADMIN" {
      LowerAdminCaps();
    } else if role == "OPERATOR" {
      LowerOperatorCaps();
    } else {
      LowerKeepsLowerWord(role);
    }
  }

  lemma LowerAdminCaps()
    ensures Lower("ADMIN") == "admin"
  {
    var l := Lower("ADMIN");
    assert l[0] == 'a' && l[1] == 'd' && l[2] == 'm' && l[3] == 'i' && l[4] == 'n';
  }

  lemma LowerOperatorCaps()
    ensures Lower("OPERATOR") == "operator"
  {
    var l := Lower("OPERATOR");
    assert l[0] == 'o' && l[1] == 'p' && l[2] == 'e' && l[3] == 'r';
    assert l[4] == 'a' && l[5] == 't' && l[6] == 'o' && l[7] == 'r';
  }

  lemma MixedCaseAdminHasPermsOnly(u: TollUser, appLabel: string, perm: string)
    requires u.role == "Admin"
    ensures HasPerm(u, perm) && !HasModulePerms(u, appLabel)
  {
    assert Lower("Admin") == "admin";
  }

  /** `check_password`: the stored text equals the given text. */
  function CheckPassword(u: TollUser, raw: string): (r: bool)
  {
    u.password == raw
  }

  /** `set_password`: stores the text as given. */
  function SetPassword(u: TollUser, raw: string): (r: TollUser)
    ensures r.password == raw
    ensures r.(password := u.password) == u
  {
    u.(password := raw)
  }

  /** After setting a password, exactly that password checks. */
  lemma SetThenCheck(u: TollUser, raw: string, attempt: string)
    ensures CheckPassword(SetPassword(u, raw), attempt) <==> attempt == raw
  {
  }
}
