# Toll report: a Dafny model

This project models the core of a toll-plaza reporting web application. The application is built on Django and reads a toll
database it must never write. Collectors' lanes record one TRANSACTION row per
vehicle, with:

- a lane;
- a capture time;
- a transaction type (`LOGIN`/`LOGOUT` mark shift events, not tolls);
- a vehicle class (`"0"` is a violation);
- a fare in cents;
- a pay type (`CSH` cash, `VCH` exempt).

The application builds reports and listings over those rows. It guards the tables against writes in three places: the
model manager, the rows' `save`/`delete`, and a database router. It logs user activity in a middleware, and it
authenticates users against its own USERS table.

The model is functional. The table is a `seq<Transaction>`. A Django query
is a first-order predicate tree (`Records.Pred`), and `Records.Select` is the filter that evaluates one,
keeping each satisfying row as often as the table holds it. Every report is a pure function of the rows. Modules follow
the program's structure:

| file | module | models |
|---|---|---|
| basics.dfy | `Basics` | `Option` (a possibly-absent database value) |
| text.dfy | `Text` | ASCII case mapping, substring search, code-point string order, decimal digits |
| records.dfy | `Records` | the TRANSACTION row, the query predicates, `Select`/`Count`/`FareSum` |
| ordering.dfy | `Ordering` | `order_by('lane')`, `order_by('vehicle_class')`, `.distinct()`, `order_by('-capturedate')` |
| labels.dfy | `Labels` | the views' class and lane label tables |
| crosstab.dfy | `CrossTab` | the lane × class cross-tabulation shared by the two summary reports |
| reports.dfy | `Reports` | the cash summary, the exempt summary, the lane-wise cash grouping, the count helpers |
| paging.dfy | `Paging` | the paginator and the views' fall-backs for bad page numbers |
| listings.dfy | `Listings` | the full, daily and lane-shift listings, the image lookup |
| templatetags.dfy | `TemplateTags` | `sequential_number`, the exempt count filters, `get_item` |
| models.dfy | `Models` | read-only manager and rows, the display properties, `TollUser`'s permission and password methods |
| auth.dfy | `Auth` | the login backend |
| router.dfy | `Router` | the read-only database router |
| middleware.dfy | `Middleware` | the audit middleware |

Conventions:

- Times are integers. A row without a capture time fails every range test.
- Fares are integer cents. A SQL `SUM` skips absent fares. The views' `or 0` turns an empty sum into 0; the
  lane-wise grouping has no `or 0`, so its sum is an `Option`.
- Python's equality on possibly-absent values is kept. `lane=None` matches exactly the rows without a lane, and the class
  exclusion list `['0', '', None]` is taken as written.
- Log lines are modelled as the records a call returns, one field per value the message prints.
- The login and logout requests, the clock and the network are left out.

Where the code and the surrounding documentation differ, the model follows the code:

- The views do not validate the date range. A period whose start lies after its end simply selects nothing.
- The lane-wise summary is cash only. It has no exempt counts or averages.
- Two tables map E101 differently: `views.get_lane_display` gives "Emergency Lane" and the model's `get_lane_display`
  gives "ECR 1". Both are kept (`Models.LaneLabelsAgreeExceptE101`).
- The manager's `PermissionDenied` messages name the Transaction table even when the EXEMT_LIST table's manager raises
  them.
- `has_perm` ignores letter case. `has_module_perms` and `authenticate` compare the role exactly, so a user whose role is
  "Admin" holds every permission but is refused the module and the login (`Models.MixedCaseAdminHasPermsOnly`).
- The views' `get_exempt_by_lane_count` excludes only violations, so it also counts exempt rows with an empty or absent
  class. The template filter of the same name excludes them (`Reports.ExemptByLaneCountSplit`,
  `TemplateTags.LaneTagIsLaneCount`).

## Model

| member | source | states |
|---|---|---|
| Records.Select | transactions/views.py:114-121 | a query selects exactly the rows of the table it holds for, never more rows than the table has |
| Records.SelectMultiset | transactions/views.py:114-121 | a selection holds each satisfying row exactly as often as the table does, and no other row, so `.count()` counts duplicate rows |
| Records.ExclusionsHold | transactions/views.py:117-120 | the two exclusions drop exactly the LOGIN/LOGOUT rows and the class-"0" rows; the summaries' exclusion drops class "0", "" and absent |
| Records.FareSumSkipsNull | transactions/views.py:134 | summing fares over a query equals summing over its rows that have a fare: absent fares add nothing |
| Records.NullFaresSumZero | transactions/views.py:378 | when no selected row has a fare the sum is 0, as `or 0` makes it |
| Records.SelectSplit | transactions/views.py:375-390 | two queries no row satisfies together split their union: counts and fare sums add up |
| Records.SelectSelect | transactions/views.py:376 | narrowing a selection with `.filter` is the same as narrowing the query |
| Text.StrLtTotal | transactions/views.py:323 | code-point string order tells any two different codes apart |
| Text.StrLtTransitive | transactions/views.py:334 | code-point string order is transitive, so the sorted dimensions are well defined |
| Text.TenSortsBeforeTwo | transactions/views.py:414 | class "10" sorts before class "2": the order is on strings, not numbers |
| Text.Contains | transactions/middleware.py:31-34 | `needle in hay` holds exactly when the needle occurs at some offset |
| Text.UpperMatchesIffLowerMatches | transactions/models.py:216-219 | for a lower-case word, comparing upper-cased strings agrees with comparing the lower-cased role with the word |
| Ordering.LanesPresent | transactions/views.py:315-323 | the lane dimension holds each lane of the selected rows once, in ascending order with the absent lane first |
| Ordering.ClassesPresent | transactions/views.py:326-334 | the class dimension holds each present class of the selected rows once, in ascending string order |
| Ordering.DistinctAscending | transactions/views.py:323 | `.distinct().order_by(...)` keeps every value, once each, ascending |
| Ordering.PresentAscending | transactions/views.py:414 | the present values of an ascending key list are still ascending |
| Ordering.KeyLtTotal | transactions/views.py:323 | any two different lanes, absent or not, are ordered one way or the other |
| Ordering.InsertKeepsNewestFirst | transactions/views.py:121 | inserting a row by capture time keeps a listing newest first |
| Ordering.NewestFirstOrder | transactions/views.py:121 | `order_by('-capturedate')` gives a permutation of the rows, newest first with missing times last, with the same fare total |
| Labels.VehicleClassDisplay | transactions/views.py:266-281 | a code of the fixed table gets its label; any other code, or none, gets "Class " followed by the code |
| Labels.VehicleClassDisplayInjective | transactions/views.py:266-281 | two different class codes never share a label, so no class column is hidden |
| Labels.FixedLabelNotFallback | transactions/views.py:268-280 | no fixed label looks like a fall-back "Class …" label |
| Labels.LaneDisplay | transactions/views.py:283-300 | a lane of the views' table gets its name; an absent or empty lane gets "Unknown Lane"; any other lane is shown as its code |
| CrossTab.BuildRow | transactions/views.py:353-390 | a lane's row has that lane, its label, and one cell for every class of the dimension and no other |
| CrossTab.Accumulate | transactions/views.py:392-396 | adding a row into the grand totals adds each class cell to the grand cell of that class |
| CrossTab.TabulateRows | transactions/views.py:362-390 | every kept row's cell is the count and fare sum of its lane and class, and its totals are those of its lane's classified rows |
| CrossTab.TabulateRowSums | transactions/views.py:388-390 | each kept row's vehicle and amount totals are the sums of its cells |
| CrossTab.TabulateGrand | transactions/views.py:392-400 | each grand class entry is the column sum of the kept rows and the count of the class; the grand totals are the sum of the row totals and the count and fare sum of all classified selected rows |
| CrossTab.TabulateRowLanes | transactions/views.py:402-404 | the kept rows are exactly the lanes with vehicles, in lane order; lanes dropped as zero change no total |
| CrossTab.AllLanesGrid | transactions/views.py:315-334 | every classified selected row falls in exactly one (lane, class) cell of the dimensions |
| CrossTab.RowIsLaneCount | transactions/views.py:362-390 | a lane's totals equal the count and fare sum of that lane's classified selected rows |
| Reports.SummaryQueryHolds | transactions/views.py:315-323 | the summary filter: inside the inclusive period, the report's pay type, not a shift event, a class other than "0", "" or absent |
| Reports.ClassDisplays | transactions/views.py:406-409 | the class label map has a key exactly for every class of the dimension, each mapped to the views' label of that class |
| Reports.SummaryDimensions | transactions/views.py:315-334 | the lane and class dimensions are the distinct values of the filtered rows, sorted, with no "0" or "" class |
| Reports.SummaryGrandIsFilteredCount | transactions/views.py:336-400 | the grand vehicle total is the number of filtered rows and the grand amount their fare sum, and so for each class |
| Reports.SummaryRows | transactions/views.py:353-404 | rows are the lanes with filtered rows, in lane order, each with its lane's count and fare sum |
| Reports.DisplaysDistinct | transactions/views.py:406-415 | two class columns of the cash summary never carry the same label |
| Reports.Counts | transactions/views.py:494-498 | the exempt row keeps one count for every class cell |
| Reports.CountRows | transactions/views.py:473-509 | the exempt rows are the cross-tab rows with amounts dropped, in the same order |
| Reports.ExemptReconciles | transactions/views.py:462-521 | in the exempt summary each row total is the sum of its class counts, each grand class count the column sum, and the grand total the row sum and the number of filtered exempt rows |
| Reports.ExemptRowLanes | transactions/views.py:507-509 | the exempt rows are exactly the lanes with exempt rows, in lane order |
| Reports.ExemptRowCounts | transactions/views.py:481-499 | an exempt row's counts are the numbers of that lane's filtered rows, per class and in total |
| Reports.SumOrNull | transactions/views.py:249 | SQL's `SUM` of fares: absent when it would be 0 from no fare, otherwise the fare sum |
| Reports.SumOrNullAbsent | transactions/views.py:249 | the sum is absent exactly when no selected row has a fare |
| Reports.LaneTotals | transactions/views.py:247-250 | one total per lane, in the order of the lanes |
| Reports.LaneTotalsSum | transactions/views.py:247-250 | over distinct lanes, the lane counts add up to the classified rows of those lanes and the lane fares to their fare sum |
| Reports.LaneWiseLanes | transactions/views.py:239-250 | the lane-wise groups are the distinct lanes of the cash rows in the period, in lane order |
| Reports.LaneWiseTotals | transactions/views.py:239-250 | the lane-wise counts add up to all classified cash rows of the period and the fares to their fare sum |
| Reports.LaneFareAbsent | transactions/views.py:247-249 | a group's fare total is absent exactly when none of its rows has a fare |
| Reports.HelperIsCell | transactions/views.py:556-603 | for a proper class code, a count helper's count is the matching summary cell |
| Reports.ClassTypeCountIsCell | transactions/views.py:556-570 | `get_class_type_count` of a class of the cash summary is that summary's cell |
| Reports.ExemptByClassCountIsCell | transactions/views.py:589-603 | `get_exempt_by_class_count` of a class of the exempt summary is that summary's cell |
| Reports.ExemptByLaneCountSplit | transactions/views.py:573-586 | the views' lane helper counts the lane's exempt summary rows plus its exempt rows with an empty or absent class |
| Paging.NumPages | transactions/views.py:123 | the page count is the fewest pages that hold every row, and at least one |
| Paging.PageNumber | transactions/views.py:124-129 | a page value reads as a number exactly when it is a non-empty decimal integer, optionally negative, and then as that integer's value |
| Paging.PageNumberRoundTrip | transactions/views.py:124-127 | a page number written in decimal reads back as itself |
| Paging.ResolvePage | transactions/views.py:126-131 | a missing or non-integer page shows page 1; a number outside 1..pages shows the last page; any other number is shown as asked |
| Paging.PageItems | transactions/views.py:127 | page k holds at most a page size of rows, the ones at positions (k-1)·size onwards |
| Paging.PageOf | transactions/views.py:123-131 | the page shown is within range, holds that page's rows, and is empty only for an empty listing |
| Paging.PagesCover | transactions/views.py:123-131 | the pages, read in order, give back the whole listing |
| Listings.ListQueryHolds | transactions/views.py:29-33 | the full listing keeps exactly the rows that are neither shift events nor violations |
| Listings.TransactionListing | transactions/views.py:27-43 | the full listing's pages hold exactly those rows, each as often as in the table, newest first |
| Listings.DailyQueryHolds | transactions/views.py:114-121 | the daily filter: inside the inclusive period, not a shift event, not a violation |
| Listings.PickPage | transactions/views.py:124 | the page value is the form's when it is given and non-empty, otherwise the query string's |
| Listings.DailyPageRows | transactions/views.py:114-131 | a daily page holds at most 30 rows, newest first, each a filtered row of the table |
| Listings.PageKeepsOrder | transactions/views.py:121-127 | a page of a newest-first listing is newest first |
| Listings.DailyRowsListed | transactions/views.py:114-121 | every listed daily row lies in the period and is neither a shift event nor a violation |
| Listings.DailyRevenue | transactions/views.py:133-134 | the revenue is the fare total of every filtered row, whatever page is shown, and the pages cover the listing |
| Listings.VehicleCode | transactions/views.py:168-169 | the form's "Violation" becomes class "0"; any other vehicle type is used as given |
| Listings.PayCode | transactions/views.py:171-175 | the form's "Cash" becomes `CSH` and "Exempt" `VCH`; any other payment type is used as given |
| Listings.UnlessHolds | transactions/views.py:190-195 | a form value of "All" drops its filter; any other value adds it |
| Listings.ShiftQueryHolds | transactions/views.py:182-195 | the lane-shift filter: inside the period, not a shift event, and the lane, class and pay type each as chosen unless "All" |
| Listings.LaneShiftListing | transactions/views.py:182-207 | the lane-shift pages hold exactly the matching rows, each as often as in the table, newest first |
| Listings.ShiftEventsNeverCounted | transactions/views.py:117-118 | a LOGIN or LOGOUT row satisfies none of the listings' or reports' filters |
| Listings.CandidateHolds | transactions/views.py:538-541 | the image candidates are the rows with that sequence and a picture |
| Listings.GetImageFound | transactions/views.py:538-547 | a returned image is the non-empty picture of a row with that sequence, and no such row is newer |
| Listings.GetImageNotFound | transactions/views.py:543-550 | "Image not found" exactly when no row with that sequence has a picture or the newest picture is empty |
| TemplateTags.SequentialNumber | transactions/templatetags/transactions_extras.py:11-17 | without a page the counter is returned unchanged |
| TemplateTags.SequentialNumberIsPosition | transactions/templatetags/transactions_extras.py:11-17 | on a page, the number is the row's 1-based position in the whole listing |
| TemplateTags.SequentialNumberUnique | transactions/templatetags/transactions_extras.py:12-16 | two (page, counter) pairs within the page size get the same number exactly when they are the same pair |
| TemplateTags.SequentialNumberContiguous | transactions/templatetags/transactions_extras.py:12-16 | numbering starts at 1 and each page continues where the previous one ended |
| TemplateTags.LaneTagHolds | transactions/templatetags/transactions_extras.py:20-31 | the lane filter holds exactly for the exempt summary's rows of that lane |
| TemplateTags.ClassTagHolds | transactions/templatetags/transactions_extras.py:36-48 | the lane and class filter holds exactly for the exempt summary's rows of that lane and class |
| TemplateTags.LaneTagIsLaneCount | transactions/templatetags/transactions_extras.py:20-33 | the lane count is the number of the exempt summary's rows of that lane |
| TemplateTags.LaneTagMatchesReport | transactions/templatetags/transactions_extras.py:20-33 | the lane count equals the exempt report's row total for that lane, and 0 for a lane without a row |
| TemplateTags.HiddenLaneIsEmpty | transactions/templatetags/transactions_extras.py:20-33 | a lane that has no exempt row has no filtered exempt transactions |
| TemplateTags.ClassTagIsCell | transactions/templatetags/transactions_extras.py:36-50 | the class count is the exempt summary's cell; it is 0 for class "0", "" or absent |
| TemplateTags.ClassTagSumIsCellSum | transactions/templatetags/transactions_extras.py:36-50 | summing the class counts over classes gives the sum of the row's cells |
| TemplateTags.LaneTagIsClassSum | transactions/templatetags/transactions_extras.py:20-50 | a lane's count equals the sum of its class counts over the report's classes |
| TemplateTags.GetItem | transactions/templatetags/transactions_extras.py:53-55 | the mapped value when the key is present, nothing otherwise |
| TemplateTags.ExemptLookupsFound | transactions/templatetags/transactions_extras.py:53-55 | every lookup the exempt page makes finds its label, cell count or column total |
| Models.Attempt | transactions/models.py:12-25 | every write raises `PermissionDenied` and leaves the tables as they were; the manager's messages name the Transaction table |
| Models.RunChangesNothing | transactions/models.py:59-63 | any sequence of manager writes and row `save`/`delete` calls, on either table, leaves the database unchanged, and each is refused |
| Models.QueriesSurviveWrites | transactions/models.py:161-165 | after refused writes every query selects the same rows and fare sum as before |
| Models.PaymentDisplay | transactions/models.py:68-77 | `CSH` shows as Cash, `VCH` as Exempt, `TnG` as T&G; any other code, `ETC` included, is shown as it is |
| Models.PaymentDisplayMatchesFilter | transactions/models.py:71-77 | the lane-shift form's payment names are the labels of the codes they select |
| Models.PaymentDisplayNotInjective | transactions/models.py:71-77 | a stored "Cash" and a stored `CSH` are shown alike |
| Models.VehicleTypeDisplay | transactions/models.py:79-95 | a row's class label is the fixed label, or "Class " followed by the class |
| Models.VehicleTypeDisplaySeparatesClasses | transactions/models.py:82-95 | two rows of different classes never share a class label |
| Models.RowLaneDisplay | transactions/models.py:97-115 | a lane of the model's table gets its name; an absent or empty lane gets "Unknown Lane"; any other lane is shown as its code |
| Models.LaneLabelsAgreeExceptE101 | transactions/models.py:100-115 | the model's and the views' lane labels agree on every lane but E101 ("ECR 1" against "Emergency Lane") |
| Models.FormatFare | transactions/models.py:117-122 | the fare with two decimals, a minus sign exactly for a negative fare, and "0.00" for an absent or zero fare |
| Models.FormatFareRoundTrip | transactions/models.py:117-122 | reading the formatted fare back gives the fare in cents, 0 for an absent fare |
| Models.AdminTestIsCaseInsensitive | transactions/models.py:216 | the upper-case test for ADMIN agrees with the lower-case test for admin |
| Models.OperatorTestIsCaseInsensitive | transactions/models.py:219 | the upper-case test for OPERATOR is the lower-case test for operator |
| Models.HasPermIffPermittedRole | transactions/models.py:213-221 | a user holds a permission exactly when the lower-cased role is admin, webadmin, webuser or operator |
| Models.HasPerms | transactions/models.py:223-225 | an empty list of permissions is always held; otherwise the list is held when the role holds any permission |
| Models.ModulePermsImplyPerms | transactions/models.py:227-230 | a user with the module permission holds every permission |
| Models.MixedCaseAdminHasPermsOnly | transactions/models.py:213-230 | the role "Admin" passes `has_perm` and fails `has_module_perms` |
| Models.SetPassword | transactions/models.py:238-242 | only the password changes, to the given text |
| Models.SetThenCheck | transactions/models.py:232-242 | after setting a password, a check succeeds exactly for that password |
| Auth.UsersNamed | transactions/auth_backends.py:18 | the lookup by username returns exactly the users with that name |
| Auth.Get | transactions/auth_backends.py:18 | `get` finds a user exactly for a single match, nothing for no match, and errors otherwise |
| Auth.Authenticate | transactions/auth_backends.py:12-44 | a missing credential refuses; a returned user is in the table, has that name, is active, has an admitted role and that password |
| Auth.AuthenticateIff | transactions/auth_backends.py:12-44 | a login succeeds exactly when one user has the name and is active, admitted and holds the password, and errors exactly when several users have the name |
| Auth.UniqueUsernamesNeverError | transactions/auth_backends.py:16-18 | with unique usernames a login never errors |
| Auth.AdmittedUserLogsIn | transactions/auth_backends.py:12-37 | with unique usernames, a user that `user_can_authenticate` admits logs in with its own name and password |
| Auth.GetUser | transactions/auth_backends.py:46-51 | a session's user is reloaded exactly when one user has that key and that user is active, whatever its role (a user whose role is withdrawn stays logged in); the lookup errors exactly when several users have the key |
| Auth.LoggedInUserReloads | transactions/auth_backends.py:46-51 | with unique keys, a user who logged in is found again by its key |
| Auth.UserCanAuthenticate | transactions/auth_backends.py:53-64 | a user is admitted exactly when it is active, a missing flag counting as active, and its role is in the exact allow-list |
| Auth.LoggedInUserIsAdmitted | transactions/auth_backends.py:53-64 | every user `authenticate` returns passes `user_can_authenticate`, and holds the module permission and every permission |
| Router.DbForRead | transactions/db_router.py:10-12 | every read goes to the default database |
| Router.DbForWrite | transactions/db_router.py:14-21 | a write is refused exactly for the application's models, with a message naming the table; others write to the default database |
| Router.AllowMigrate | transactions/db_router.py:23-27 | the application is never migrated; other applications only on the default database |
| Router.AllowRelation | transactions/db_router.py:29-31 | every relation is allowed |
| Router.AppTablesAreReadOnly | transactions/db_router.py:10-27 | the three tables are read from the default database, refuse writes naming themselves, and are never migrated |
| Router.WritesThatPassGoWhereReadsGo | transactions/db_router.py:10-21 | a write that is routed goes where reads go |
| Middleware.UsernameOrAnonymous | transactions/middleware.py:39 | the username, "anonymous" for a user without one, and nothing when the request has no user |
| Middleware.AccessLog | transactions/middleware.py:19-23 | an access record is logged exactly for an authenticated user, carrying its name and role, the request's method and path, and the remote address or "unknown" without one |
| Middleware.Handle | transactions/middleware.py:17-43 | whenever the call completes its response is the next handler's; a warning carries the request's method, path and user name; it raises `AttributeError` exactly for an unsafe request without a user; a warning is logged exactly for a completed write request outside the login, logout and report paths; the access record exactly for an authenticated user |
| Middleware.WarningNamesLoggedUser | transactions/middleware.py:19-40 | an unsafe request by a logged-in user is logged twice, first as an access and then as a warning, and both records name the same user |
| Middleware.ExpectedRequestsNotWarned | transactions/middleware.py:26-35 | reads, login and logout, and report paths never raise a warning |
| Middleware.ReportFormPostsNotWarned | transactions/middleware.py:31-35 | a write to any report path is not treated as unsafe |
| Middleware.ProcessException | transactions/middleware.py:45-54 | only `PermissionDenied` is logged, with its message, the user's name, the path and the method; it raises `AttributeError` exactly for a refusal on a request without a user; no response is ever substituted |
| Middleware.RefusedWriteIsLoggedWithTable | transactions/middleware.py:45-53 | a write the router refuses is logged with a message naming the table |

## Left out

- The ORM and SQL themselves. Queries are predicates over a sequence. NULL follows Python's equality, and the class
  exclusion list is taken as written.
- Parsing dates and times and joining them into strings. Times are ordered integers.
- The internals of Django's `Paginator`. `int()` accepts surrounding blanks, a leading `+` and `_` separators in a page
  value; the model reads only plain decimal integers and reads everything else as "not an integer".
- The flat `class_{code}_count` and `class_{code}_amount` keys that the summary views also write into each row and into
  the grand totals (transactions/views.py:346-347, 381-382, 393-394). They copy the cells of the nested `classes` map,
  which is what the model keeps.
- HTML rendering, the forms' GET branches, `home_view` and `transaction_pdf`: reportlab PDF output over the first
  100 rows, with no filtering to model.
- Logging as I/O. Log records are returned values that carry the message's fields, not its text.
- The UTC date filters (time-zone library), `image_filters` (float formatting and base64), the SSL and server scripts,
  the management commands, `urls.py`, `admin.py` and the migration.
- The ties among rows with equal capture times. The model orders them by an insertion sort, and the database's order for
  them is unspecified.
- The 500 response of `get_image_view` for a database error: the model has no failing database.
- Text.StrLt: the model orders and compares codes by code point. On SQL Server, `order_by`, `.distinct()` and
  `filter(lane=...)` follow the column's collation, which commonly ignores letter case and trailing blanks. Codes that
  differ only in case or trailing blanks are separate lanes or classes in the model, but form one group on the server.
- Text: case mapping is ASCII only. Python's `lower()`/`upper()` also map other scripts' letters.
- Models.Attempt: the `PermissionDenied` messages are Bengali text. The model names only which table the message
  speaks of and which write it refuses.
- Models.FormatFare: fares are integer cents. The Decimal formatting of values with more than two decimals is not
  modelled.
- Models.HasPerms: `has_perm` ignores the permission name and the object, so the contract speaks of the first
  permission only.
- `__str__` of the models: datetime formatting.
- Auth.Authenticate: the dummy `set_password` call on an unknown name (a timing measure with no effect on the result),
  and `lastLogin`, which the code deliberately does not update.
