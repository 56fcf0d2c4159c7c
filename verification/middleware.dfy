/** The audit middleware: it logs who requested what, warns about write
    requests outside the login and report pages, passes every request on
    unchanged, and logs refused database writes. Logging is modelled as the
    list of records a call emits. */
module Middleware {
  import opened Basics
  import opened Text
  import Router

  /** `request.user`, when the request has one. */
  datatype RequestUser =
    | NoUser                                          // no `user` attribute
    | Anonymous(username: Option<string>)             // `username`, if the object has one
    | Authenticated(name: string, role: string)

  datatype Request = Request(user: RequestUser, verb: string, path: string, remoteAddr: Option<string>)

  /** One log record and the facts its message carries. */
  datatype LogRecord =
    | Accessed(username: string, role: string, verb: string, path: string, addr: string)
    | UnsafeRequest(verb: string, path: string, who: string)
    | WriteBlocked(reason: string, who: string, path: string, verb: string)

  /** A call either completes with the records it logged and its result, or
      raises `AttributeError` (a request without a user reaching a log line
      that reads the user). */
  datatype Outcome<R> = Completed(logs: seq<LogRecord>, result: R) | AttributeError(logs: seq<LogRecord>)

  const WriteMethods: set<string> := {"POST", "PUT", "PATCH", "DELETE"}
  const AuthPaths: set<string> := {"/login/", "/logout/"}
  const ReportSegments: seq<string> :=
    ["/summary_lane/", "/summary_class/", "/exempt/", "/daily_report/", "/report_date", "/list/"]

  /** Paths where a write request is expected: PDF exports and the report
      forms. */
  predicate IsReportPath(path: string) {
    Contains(path, "pdf") || exists i :: 0 <= i < |ReportSegments| && Contains(path, ReportSegments[i])
  }

  /** A request the middleware warns about. */
  predicate IsUnsafe(r: Request) {
    r.verb in WriteMethods && r.path !in AuthPaths && !IsReportPath(r.path)
  }

  /** `getattr(request.user, 'username', 'anonymous')`, or `None` where
      reading `request.user` itself fails. */
  function UsernameOrAnonymous(u: RequestUser): (name: Option<string>)
    ensures name.None? <==> u.NoUser?
    ensures u.Anonymous? ==> name == Some(if u.username.Some? then u.username.value else "anonymous")
    ensures u.Authenticated? ==> name == Some(u.name)
  {
    match u
    case NoUser => None
    case Anonymous(n) => Some(n.GetOr("anonymous"))
    case Authenticated(n, _) => Some(n)
  }

  /** The access record logged for an authenticated user. */
  function AccessLog(r: Request): (logs: seq<LogRecord>)
    ensures |logs| <= 1 && (logs != [] <==> r.user.Authenticated?)
    ensures logs != [] ==> logs[0].Accessed? && logs[0].path == r.path && logs[0].verb == r.verb
    ensures logs != [] ==> logs[0].username == r.user.name && logs[0].role == r.user.role
    ensures logs != [] ==> logs[0].addr == if r.remoteAddr.Some? then r.remoteAddr.value else "unknown"
  {
    match r.user
    case Authenticated(n, role) => [Accessed(n, role, r.verb, r.path, r.remoteAddr.GetOr("unknown"))]
    case _ => []
  }

  /** `__call__`: logs, then hands the request to `respond` and returns
      its response untouched. */
  function Handle<R>(r: Request, respond: Request -> R): (o: Outcome<R>)
    ensures o.Completed? <==> !(IsUnsafe(r) && r.user.NoUser?)
    ensures o.Completed? ==> o.result == respond(r)
    ensures o.AttributeError? ==> o.logs == []
    ensures (exists k :: 0 <= k < |o.logs| && o.logs[k].Accessed?) <==> r.user.Authenticated?
    ensures (exists k :: 0 <= k < |o.logs| && o.logs[k].UnsafeRequest?) <==> o.Completed? && IsUnsafe(r)
    ensures forall k :: 0 <= k < |o.logs| && o.logs[k].UnsafeRequest? ==>
      o.logs[k].verb == r.verb && o.logs[k].path == r.path && Some(o.logs[k].who) == UsernameOrAnonymous(r.user)
  {
    var access := AccessLog(r);
    if IsUnsafe(r) then
      match UsernameOrAnonymous(r.user)
      case None => AttributeError(access)
      case Some(who) =>
        var logs := access + [UnsafeRequest(r.verb, r.path, who)];
        assert logs[|logs| - 1].UnsafeRequest?;
        assert r.user.Authenticated? ==> logs[0].Accessed?;
        assert !r.user.Authenticated? ==> logs == [UnsafeRequest(r.verb, r.path, who)];
        Completed(logs, respond(r))
    else
      assert r.user.Authenticated? ==> access[0].Accessed?;
      Completed(access, respond(r))
  }

  /** An unsafe request by a logged-in user yields the access record and
      then the warning, both naming the same user. */
  lemma WarningNamesLoggedUser<R>(r: Request, respond: Request -> R)
    requires IsUnsafe(r) && r.user.Authenticated?
    ensures var o := Handle(r, respond);
      && o.Completed? && |o.logs| == 2
      && o.logs[0].Accessed? && o.logs[1].UnsafeRequest?
      && o.logs[1].who == o.logs[0].username == r.user.name
  {
  }

  /** Reads, the login and logout pages and the report pages are never
      warned about, whatever the user. */
  lemma ExpectedRequestsNotWarned<R>(r: Request, respond: Request -> R)
    requires r.verb !in WriteMethods || r.path in AuthPaths || IsReportPath(r.path)
    ensures Handle(r, respond).Completed?
    ensures forall k :: 0 <= k < |Handle(r, respond).logs| ==> !Handle(r, respond).logs[k].UnsafeRequest?
  {
  }

  /** A write request to any of the report forms passes without warning. */
  lemma ReportFormPostsNotWarned(r: Request, i: int)
    requires 0 <= i < |ReportSegments| && Contains(r.path, ReportSegments[i])
    ensures !IsUnsafe(r)
  {
  }

  /** An exception passed to `process_exception`. */
  datatype Raised = PermissionDenied(message: string) | OtherException

  /** `process_exception`: logs a refused write with its message, the user
      and the request; returns `None` so Django's own handling goes on. */
  function ProcessException(r: Request, e: Raised): (o: Outcome<Option<string>>)
    ensures o.Completed? ==> o.result == None
    ensures o.AttributeError? <==> e.PermissionDenied? && r.user.NoUser?
    ensures o.Completed? && e.PermissionDenied? ==>
      |o.logs| == 1 && o.logs[0].WriteBlocked? && o.logs[0].reason == e.message && o.logs[0].path == r.path
      && o.logs[0].verb == r.verb && Some(o.logs[0].who) == UsernameOrAnonymous(r.user)
    ensures e.OtherException? ==> o == Completed([], None)
  {
    match e
    case OtherException => Completed([], None)
    case PermissionDenied(msg) =>
      match UsernameOrAnonymous(r.user)
      case None => AttributeError([])
      case Some(who) => Completed([WriteBlocked(msg, who, r.path, r.verb)], None)
  }

  /** A write the router refuses is logged with a message naming the table. */
  lemma RefusedWriteIsLoggedWithTable(r: Request, m: Router.ModelMeta)
    requires m.appLabel == Router.AppLabel && !r.user.NoUser?
    ensures var route := Router.DbForWrite(m);
      && route.WriteDenied?
      && var o := ProcessException(r, PermissionDenied(route.message));
      && o.Completed? && |o.logs| == 1
      && o.logs[0].WriteBlocked? && Contains(o.logs[0].reason, m.dbTable)
  {
    var route := Router.DbForWrite(m);
    assert OccursAt(route.message, m.dbTable, |Router.DeniedPrefix|);
  }
}
