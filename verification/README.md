# Digital-wallet settlement and reporting, modelled in Dafny

This project models the core of a small digital-wallet system made of four Flask services.

- **User service.** Holds the `users` table: a unique, normalised e-mail address and a balance per user. Users register, log in and are edited. Top-ups and debits change the balance. An internal endpoint, guarded by a service token, lets the other services credit or debit a user.
- **Transaction service.** Takes a transaction in (intake), checks that the user exists and stores the row as `pending`. Settlement then asks the user service to credit or debit, and the row is meant to become `success` or `failed`, with a notification sent whatever the outcome. As written, settlement runs on a bare thread without the application context: the balance change goes through, the notification and the final commit fail, and the row stays `pending` (see Findings).
- **Notification service.** Stores notifications. A send marks one `sent` or `failed`. A resend is allowed only from `failed`.
- **Report service.** Files one report per transaction, with no duplicates. It keeps a per-user summary recomputed from that user's reports, and it can rebuild both tables from snapshots fetched from the other two services.

Each table is a `map` from id to row, or a `seq` in insertion order, held in a class whose methods change it step by step. The methods return the service's `(result, error, status)` triple as `Reply<T> = Ok(value, code) | Err(message, code)`.

Every call to another service is an input to the method, never made by the model:

- `Call` is the HTTP status an answer came back with, or the text of the exception raised.
- `Fetch<T>` is the client's `(data, err)` pair.
- `Delivery` is the outcome of the SMTP exchange.

Amounts are integers and dates are integers supplied by the caller. A payload value `float()` cannot read is `Amount.Garbage` when it is a string (`float` raises ValueError) and `Amount.WrongType` when it is a JSON null, list or object (`float` raises TypeError).

Files:

| file | module | contents |
|---|---|---|
| `common.dfy` | `Wrappers` | `Option`, `Reply`, `Call`, `Fetch`, `Amount` |
| `text.dfy` | `Text` | Python's `str.strip()` and `str.lower()`, UTF-8 length, the stored form of an e-mail address |
| `ordering.dfy` | `Ordering` | `ORDER BY … DESC` and Flask-SQLAlchemy's `paginate(..., error_out=False)` |
| `user_ledger.dfy` | `UserLedger` | user controllers: password guards, `UserStore` |
| `user_routes.dfy` | `UserRoutes` | user route handlers over a `UserStore` |
| `transactions.dfy` | `TransactionLedger` | intake, settlement, status update, delete, per-user listing |
| `notifications.dfy` | `NotificationService` | notification controllers: creation and the status effect of a send |
| `notification_routes.dfy` | `NotificationRoutes` | notification route handlers |
| `report_aggregates.dfy` | `ReportAggregates` | summary aggregates and what a rebuild produces, as functions |
| `reports.dfy` | `Reports` | `ReportStore`: report creation, summary update, rebuild, the two reads |
| `scenarios.dfy` | `Scenarios` | settlement against the user service; two rebuilds in a row |

## Model

| member | source | states |
|---|---|---|
| Text.TrimStartSpec | user_service/app/controllers.py:104 | the leading part `strip()` removes is all whitespace, and what remains is a suffix not starting with whitespace |
| Text.TrimEndSpec | user_service/app/controllers.py:104 | the trailing part `strip()` removes is all whitespace, and what remains is a prefix not ending with whitespace |
| Text.LowerSpec | user_service/app/controllers.py:104 | `lower()` maps every character and keeps the length |
| Text.StripLowerCommute | user_service/app/routes.py:31-37 | `email.lower().strip()` (the duplicate lookup) equals `email.strip().lower()` (the stored form) |
| Text.StripIdempotent | user_service/app/controllers.py:104 | stripping twice is stripping once |
| Text.LowerIdempotent | user_service/app/controllers.py:104 | lowering twice is lowering once |
| Text.NormalizeIdempotent | user_service/app/controllers.py:132 | normalising a stored address again gives the same address, so a login lookup finds it |
| Text.NormalizeShape | user_service/app/controllers.py:104-112 | every stored address has no capital letter and no surrounding whitespace |
| Text.NormalShapeFixed | user_service/app/controllers.py:155-158 | an address of that shape is its own normal form |
| Text.StripEmpty | user_service/app/controllers.py:22-23 | `len(p.strip()) == 0` exactly when the password is empty or only whitespace |
| Text.AsciiUtf8Length | user_service/app/controllers.py:24 | an ASCII password takes one byte per character |
| Text.Utf8LengthAppend | user_service/app/controllers.py:24 | the byte length of a concatenation is the sum of the byte lengths |
| Ordering.SortDesc | transaction_service/app/controllers.py:143-147 | the listing is a permutation of the rows, sorted by key, newest first |
| Ordering.EffectivePage | report_service/app/controllers.py:73 | a page below 1 is read as page 1; other pages are kept |
| Ordering.EffectivePerPage | report_service/app/controllers.py:73 | a page size below 1 is replaced by a positive default; other sizes are kept |
| Ordering.PageCount | report_service/app/controllers.py:73-80 | `pages` is 0 exactly when there are no rows, and otherwise the least count of pages that holds them all |
| Ordering.PageItems | report_service/app/controllers.py:73-76 | a page holds the rows from offset `(page-1)*per_page`, at most `per_page` of them |
| Ordering.PageOfSorted | report_service/app/controllers.py:61-76 | a page of a sorted listing holds only rows of the listing, still sorted |
| Ordering.PageHolds | report_service/app/controllers.py:73-80 | row `k` is item `k % per_page` of page `k / per_page + 1`, which is within `pages` |
| UserLedger.PreparePassword | user_service/app/controllers.py:20-25 | as written: a blank password is refused; one over 72 bytes is cut to its first 72 characters; otherwise it is passed on whole |
| UserLedger.PasswordCutMissesByteLimit | user_service/app/controllers.py:24-25 | a password of 37 to 72 two-byte characters is passed on whole, still over 72 bytes |
| UserLedger.CutToBytes | user_service/app/controllers.py:24-25 | the longest prefix that fits in the byte limit |
| UserLedger.CutToBytesAscii | user_service/app/controllers.py:24-25 | on ASCII text the byte cut equals the character cut |
| UserLedger.PreparePasswordCorrected | user_service/app/controllers.py:20-25 | corrected: a blank password is refused; what is passed on is a prefix of at most 72 bytes; a short password is kept whole |
| UserLedger.PrepareAgreesOnAscii | user_service/app/controllers.py:24-25 | the correction changes nothing for ASCII passwords |
| UserLedger.VerifyPassword | user_service/app/controllers.py:29-36 | an empty password or hash is rejected without asking the library; otherwise the library decides |
| UserLedger.ReplaceKeepsTable | user_service/app/models.py:9 | writing a row whose address is normal and not used by another user keeps addresses unique |
| UserLedger.SameEmailKeepsTable | user_service/app/models.py:9 | a row rewritten with its own address keeps the table invariant |
| UserLedger.InsertKeepsTable | user_service/app/models.py:7-9 | inserting under the next id a normal address nobody has keeps keys and addresses unique |
| UserLedger.RemoveKeepsTable | user_service/app/models.py:7-9 | removing a row keeps the invariant |
| UserLedger.RawEmailCheckMisses | user_service/app/controllers.py:61 | the raw-address duplicate check, compared exactly, never finds an address that is not in normal form |
| UserLedger.RawEmailCheckMissesExample | user_service/app/controllers.py:61-67 | " a" passes the check while its stored form "a" is taken |
| UserLedger.UserStore.Add | user_service/app/controllers.py:116-117 | the new row is stored under a fresh id and nothing else changes |
| UserLedger.UserStore.Put | user_service/app/controllers.py:174 | row `id` is replaced and nothing else changes |
| UserLedger.UserStore.Remove | user_service/app/controllers.py:85-86 | exactly row `id` is removed |
| UserLedger.UserStore.GetBalance | user_service/app/controllers.py:186-191 | unknown id gives 404, otherwise the balance with 200 |
| UserLedger.UserStore.Topup | user_service/app/controllers.py:194-211 | unknown user 404, an amount `float` rejects (ValueError or TypeError) 400, amount ≤ 0 400, each with nothing changed; otherwise exactly that balance grows by the amount |
| UserLedger.UserStore.Debit | user_service/app/controllers.py:217-237 | as Topup, plus balance < amount gives 402 with no change; otherwise the balance drops by the amount; a non-negative balance stays non-negative |
| UserLedger.UserStore.UpdateUser | user_service/app/controllers.py:143-175 | unknown 404; an address used by another user gives 400 "Email already used"; a blank password escapes as 500; a balance without `allow_balance` gives 403; a string balance `float` cannot read gives 400, a null or list balance escapes as 500; a negative balance gives 400; otherwise exactly the given fields change, the password hashed after the corrected byte cut; errors change nothing |
| UserLedger.UserStore.RegisterUser | user_service/app/controllers.py:97-121 | a missing key gives 400; a taken normal address gives 400; a blank password gives 400; otherwise one new user with the normal address, the hash of the corrected byte cut of the password, balance 0 and role "user" |
| UserLedger.UserStore.CreateUser | user_service/app/controllers.py:53-75 | as written: never adds a user; 400 exactly for a missing key or a raw address already stored; 500 otherwise |
| UserLedger.UserStore.CreateUserCorrected | user_service/app/controllers.py:53-75 | corrected: a duplicate is found by normal form; otherwise one new user with the given balance |
| UserLedger.UserStore.DeleteUser | user_service/app/controllers.py:78-87 | unknown id 404 with no change; otherwise exactly that user is removed |
| UserLedger.UserStore.AuthenticateUser | user_service/app/controllers.py:127-136 | both fields are required (400); success returns a user whose stored address is the normal form of the one given; otherwise 401 |
| UserRoutes.AmountOrZero | user_service/app/routes.py:208 | a missing amount reads as 0 |
| UserRoutes.InternalBalance | user_service/app/routes.py:291-298 | credit always applies, a negative amount included; debit applies exactly when the balance covers it, else 400 "Insufficient balance"; any other action 400 "Invalid action" |
| UserRoutes.InternalDebitKeepsNonNegative | user_service/app/routes.py:293-296 | an internal debit never takes a non-negative balance below zero |
| UserRoutes.RouteDebit | user_service/app/routes.py:248-251 | debit_route's balance rule: 400 exactly when the balance is below the amount, otherwise the balance minus the amount |
| UserRoutes.RegisterRoute | user_service/app/routes.py:22-43 | a missing or empty field gives 400; a taken normal address gives 400 "Email already registered"; otherwise one new user, role as given or "user", balance 0 |
| UserRoutes.LoginRoute | user_service/app/routes.py:49-63 | missing address or password 400; unknown address or mismatching hash 401; success exactly when a user with that normal address has a matching hash |
| UserRoutes.UpdateUserRoute | user_service/app/routes.py:126-160 | a caller with no row 403; a non-admin editing another user 403; unknown target 404; an address used by another user 400; success exactly when the caller may edit, the address is free and any balance the caller may set is a number; role and balance change only for an admin; errors change nothing |
| UserRoutes.DeleteUserRoute | user_service/app/routes.py:166-179 | non-admin or missing caller 403; unknown target 404; otherwise exactly that row goes |
| UserRoutes.TopupRoute | user_service/app/routes.py:197-224 | a caller with no row 403; a string amount `float` cannot read 400; a null, list or object amount escapes as 500; amount ≤ 0 400; unknown target 404; otherwise that balance grows by the amount |
| UserRoutes.DebitRoute | user_service/app/routes.py:227-257 | as TopupRoute, plus balance < amount 400 with no change; otherwise the balance drops by the amount |
| UserRoutes.InternalUpdateBalance | user_service/app/routes.py:274-301 | a token unequal to the configured one gives 403 before anything else; a string amount `float` cannot read 400; a null, list or object amount escapes as 500; unknown user 404; otherwise as InternalBalance |
| TransactionLedger.SettleAction | transaction_service/app/controllers.py:50 | "credit" exactly for a credit, "debit" for anything else |
| TransactionLedger.SettleStatus | transaction_service/app/controllers.py:59-65 | "success" exactly when the balance call answered 200, otherwise "failed" |
| TransactionLedger.GroupedDigits | transaction_service/app/controllers.py:71 | the thousands-grouped amount reads, without its commas, as the amount's decimal digits |
| TransactionLedger.NotifyMessage | transaction_service/app/controllers.py:70-71 | "Top-up"/"Debit" by type, then " sebesar Rp ", the grouped amount, and always " berhasil dilakukan." |
| TransactionLedger.TxLedger.CreateTransaction | transaction_service/app/controllers.py:19-43 | an unreadable amount 500; a falsy user or amount ≤ 0 gives 400; an unreachable user service 503; a non-200 lookup 404; each stores nothing; otherwise exactly one new "pending" row, type defaulting to "debit", with 201 |
| TransactionLedger.TxLedger.Settle | transaction_service/app/controllers.py:46-81 | action from the type; status from the balance call alone; a notification is attempted whatever happened and changes nothing; the status reaches the table only when the commit succeeds |
| TransactionLedger.TxLedger.UpdateStatus | transaction_service/app/controllers.py:121-128 | unknown id 404; otherwise any status is written, with no transition guard |
| TransactionLedger.TxLedger.Delete | transaction_service/app/controllers.py:131-138 | unknown id 404; otherwise exactly that row goes |
| TransactionLedger.TxLedger.ByUser | transaction_service/app/controllers.py:141-147 | exactly that user's rows, each exactly once, newest first |
| NotificationService.SendStatus | notification_service/app/controllers.py:29-55 | "sent" exactly when the lookup answered 200 and the mail went out; "failed" otherwise |
| NotificationService.SendAnswer | notification_service/app/controllers.py:29-55 | a non-200 lookup gives (False, "User not found"); an exception gives (False, its text); otherwise (True, None) |
| NotificationService.NotificationStore.CreateNotification | notification_service/app/controllers.py:7-11 | exactly one new row, status "pending" unless given, returned with 201 |
| NotificationService.NotificationStore.SendEmail | notification_service/app/controllers.py:19-55 | every path writes the status ("sent" or "failed") of that row and nothing else |
| NotificationRoutes.CreateNotif | notification_service/app/routes.py:13-19 | a missing `user_id` or `message` gives 400 and creates nothing |
| NotificationRoutes.UpdateNotif | notification_service/app/routes.py:39-50 | unknown id 404; otherwise message and status are replaced when present and kept when absent |
| NotificationRoutes.DeleteNotif | notification_service/app/routes.py:54-61 | unknown id 404; otherwise exactly that row goes |
| NotificationRoutes.SendReply | notification_service/app/routes.py:70-73 | a failed send gives 500 with its reason; a successful one 200 with the new status |
| NotificationRoutes.SendNotif | notification_service/app/routes.py:65-73 | unknown id 404; otherwise a send runs whatever the status |
| NotificationRoutes.ResendNotif | notification_service/app/routes.py:77-89 | unknown id 404; a status other than "failed" gives 400 with no send and no change; otherwise a send runs |
| ReportAggregates.OwnedBy | report_service/app/controllers.py:103 | the reports of that user and no others |
| ReportAggregates.OwnedByCount | report_service/app/controllers.py:103 | each of the user's reports is kept as often as it is stored, and no other report at all |
| ReportAggregates.LastDate | report_service/app/controllers.py:107 | None exactly for no reports; otherwise a date of one of them and no earlier than any |
| ReportAggregates.OwnedByAppend | report_service/app/controllers.py:103 | filtering by user distributes over concatenation |
| ReportAggregates.TypeTotalAppend | report_service/app/controllers.py:105-106 | a per-type sum distributes over concatenation |
| ReportAggregates.LastDateAppend | report_service/app/controllers.py:107 | one more report moves the last date to its date when it is later |
| ReportAggregates.CreditPlusDebit | report_service/app/controllers.py:105-106 | when every report is a credit or a debit, the two sums add up to all the money moved |
| ReportAggregates.SummaryStep | report_service/app/controllers.py:103-117 | recomputing after one more report equals the previous summary plus that report's contribution |
| ReportAggregates.OtherUserUnaffected | report_service/app/controllers.py:103 | another user's report leaves this user's reports as they were |
| ReportAggregates.UserMap | report_service/app/controllers.py:154 | every fetched user's id is a key; each key maps to a fetched user with that id |
| ReportAggregates.UserIds | report_service/app/controllers.py:154 | the map's keys without repeats |
| ReportAggregates.DistinctCard | report_service/app/controllers.py:183 | a list without repeats is as long as its set of elements |
| ReportAggregates.UserCount | report_service/app/controllers.py:183 | `synced_users` equals the number of distinct user ids |
| ReportAggregates.SyncedReports | report_service/app/controllers.py:157-175 | every rebuilt report belongs to a fetched user |
| ReportAggregates.SyncedReportsCover | report_service/app/controllers.py:157-175 | one report for each transaction whose user was fetched, and none from anything else |
| ReportAggregates.SyncedReportsCount | report_service/app/controllers.py:157-175 | the number of rebuilt reports is the number of transactions whose user was fetched |
| ReportAggregates.NoTransactionsNoReports | report_service/app/controllers.py:157-175 | a user with no transactions gets no report |
| ReportAggregates.Rebuilt | report_service/app/controllers.py:180-181 | a summary exists exactly for the listed users whose lookup succeeds, each a fresh summary of their reports |
| ReportAggregates.FindByTx | report_service/app/controllers.py:18 | finds a report for that transaction exactly when one exists |
| ReportAggregates.AppendNewTx | report_service/app/models.py:15 | a report for an unreported transaction keeps transaction ids unique and leaves exactly one report for it |
| Reports.Newest | report_service/app/controllers.py:61 | the user's reports, each as often as it is stored (same multiset), newest first |
| Reports.Resummarized | report_service/app/controllers.py:95-131 | no change on a failed lookup; otherwise one summary for the user with the count of their reports, the credit and debit sums, the latest report date (none when there are no reports) and the balance the user service reported; name and address kept when a summary existed; other users untouched |
| Reports.ReportOnItsPage | report_service/app/controllers.py:73-80 | every report of the user is reachable on a page within `total_pages` |
| Reports.CollectReports | report_service/app/controllers.py:157-175 | the loop builds exactly the rebuilt reports, and `count` is their number |
| Reports.ReportStore.UpdateSummary | report_service/app/controllers.py:95-133 | reports unchanged; summaries as Resummarized says |
| Reports.ReportStore.CreateReport | report_service/app/controllers.py:9-51 | falsy ids 400; an existing report returned with 200; failed transaction lookup 404; failed user lookup 404; in each case nothing changes; otherwise one report appended (201), exactly one per transaction id, summary recomputed |
| Reports.ReportStore.RebuildSummaries | report_service/app/controllers.py:180-181 | on an empty summary table, leaves exactly the rebuilt summaries |
| Reports.ReportStore.SyncAll | report_service/app/controllers.py:137-187 | a fetch error gives 500 with both tables empty; a duplicate transaction id gives 500 with both tables empty; otherwise exactly the rebuilt reports and summaries, with the two counts |
| Reports.ReportStore.ReportsByUser | report_service/app/controllers.py:60-81 | only that user's reports, newest first; total counts all of them; none gives no data and 0 pages |
| Reports.ReportStore.SummaryByUser | report_service/app/controllers.py:85-91 | the stored summary with 200, or 404 "Summary not found" |
| Scenarios.SettleWithoutAppContext | transaction_service/app/controllers.py:46-83 | as it runs without an application context: the user service applies the change, no notification is created, and the row stays "pending" |
| Scenarios.SettledExactlyWhenApplied | transaction_service/app/controllers.py:50-62 | a transaction settles "success" exactly when the user service applied it; an uncovered debit settles "failed" |
| Scenarios.SyncedUserWithoutTransactions | report_service/app/controllers.py:180-181 | a fetched user with no transactions still gets a summary of zeros with no last date |
| Scenarios.SyncTwice | report_service/app/controllers.py:137-183 | rebuilding twice from the same answers gives the same answer and tables as once |

## Left out

- HTTP, JSON, JWT, bcrypt and werkzeug hashing, SMTP and the database session are not modelled.
  - Every answer from another service is a parameter.
  - Hash matching is a function parameter.
  - The identity carried by a token is a plain caller id.
- The settlement thread is left out. Settlement is a separate method run after intake on the row intake stored; concurrent requests are not modelled.
- Float arithmetic and `round(..., 2)` are left out; amounts are integers.
- ISO date parsing and `datetime.utcnow()` defaults are left out; dates are integers given by the caller.
- The ids, `created_at` and `updated_at` of report and summary rows are not modelled. Reports are kept in insertion order.
- An exception nobody catches is modelled as a 500 with one fixed text. The text actually sent depends on each service's 500 handler and on debug mode.
- Database commit failures are modelled only where the schema makes them certain:
  - the NOT NULL `password_hash` in `create_user`;
  - the unique `transaction_id` in a rebuild.
  Elsewhere a commit is taken to succeed.
- Extra payload keys passed to `Notification(**payload)` are not modelled; only `user_id`, `message` and `status` are.
- UserLedger.UserStore.RegisterUser: stores the hash of the corrected cut (at most 72 bytes, Finding 1), where `register_user` hashes `hash_password`'s cut to 72 characters; the two agree on every ASCII password (UserLedger.PrepareAgreesOnAscii).
- UserLedger.UserStore.UpdateUser: a new password is hashed after the corrected cut, as in RegisterUser, not after `hash_password`'s 72-character cut.
- UserLedger.RawEmailCheckMisses: compares addresses as exact strings, where MySQL compares `users.email` under its collation. The default collations ignore case and accents, and the older ones also ignore trailing spaces, so MySQL finds "a" for "A" where this lemma says nothing is found.
- UserLedger.RawEmailCheckMissesExample: holds under any collation, because leading spaces count under all of them; a witness differing only in case would not.
- UserLedger.UserStore.CreateUser: its 400 condition is exact equality on the raw address, where MySQL's lookup applies the collation, so MySQL also refuses addresses that differ from a stored one only in case, accents or trailing spaces.
- UserLedger.EmailTaken: every address lookup and the uniqueness invariant compare exact strings, not MySQL's collation.
- TransactionLedger.TxLedger.Settle: states the intended settlement. How the thread actually runs is captured only through its `commitOk` and `notify` inputs, as Scenarios.SettleWithoutAppContext shows.
- Text.Lower: lowers only ASCII letters, where Python's `str.lower()` covers all of Unicode.
- Reports.ReportStore.ReportsByUser: reports with equal dates are listed in insertion order; the database promises no order for them.
- Reports.ReportStore.SyncAll: one `now` stands for every missing transaction date, where the source reads the clock once per transaction.
- Reports.ReportStore.SyncAll: a summary lookup whose empty error text Python would treat as success is modelled as a failure. The same holds for the lookups in CreateReport.
- Reports.ReportStore.UpdateSummary: an exception inside `_update_summary` is printed and swallowed, which can leave pending changes in the session. The model treats a failed lookup as a clean no-op.
- The report service's route layer, which checks that both keys are present before the controller runs, is not modelled; the controller's own check covers the same cases.

## Findings

| source | as written | input that shows it | evidently intended | confidence | as-written member | corrected member |
|---|---|---|---|---|---|---|
| user_service/app/controllers.py:24-25 | the guard counts UTF-8 bytes but the cut keeps 72 characters | 40 × 'é' (80 bytes) passes the guard and is hashed whole, still over the 72 bytes bcrypt reads | cut to at most 72 bytes | high, not executed | UserLedger.PasswordCutMissesByteLimit | UserLedger.PreparePasswordCorrected |
| user_service/app/controllers.py:65-71 | `create_user` builds a `User` without `password_hash`, a NOT NULL column (user_service/app/models.py:10) | any complete payload with a new address: the commit fails and the caller gets 500 | a user created without a password, as the docstring says | high, not executed | UserLedger.UserStore.CreateUser | UserLedger.UserStore.CreateUserCorrected |
| user_service/app/controllers.py:61 | the duplicate check compares the address as given, not the stripped, lower-cased form stored at line 67 | " a" while "a" is registered: no 400 "Email already exists", under any collation | check the stored form, as `register_user` does at lines 104-105 | high, not executed | UserLedger.RawEmailCheckMissesExample | UserLedger.UserStore.CreateUserCorrected |
| transaction_service/app/controllers.py:46-83 | `background_process` runs on a bare `threading.Thread`, outside the application context the app factory sets up (transaction_service/app/__init__.py:7-13); `current_app.config` at line 95 raises, and so do `db.session.commit()` at line 78 and the `rollback()` in its handler | any accepted transaction: the balance PUT at line 52 goes through, no notification is created, and the row stays `pending` | the row ends `success` or `failed` and a notification is created | high, not executed | Scenarios.SettleWithoutAppContext | TransactionLedger.TxLedger.Settle |

Other behaviour the model keeps as written, since nothing shows it is unintended:

- `register_route` accepts a caller-chosen role.
- An admin may set a negative balance through `update_user_route`.
- When callers edit themselves, the role they set in the same request decides the later balance check.
- The internal balance endpoint accepts a negative amount.
- Any logged-in user may top up or debit any user.
- The internal token check compares the header with the configured token and nothing else; the configuration always supplies a token, so a request without the header is refused.
- `update_notif` may set any status.
- `create_report` files the report under the payload's `user_id`.
