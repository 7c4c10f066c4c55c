# bckoffice request gates and workflow guards, in Dafny

This project models the decision core of the bckoffice Go backend. The backend is a back-office API for leads, contracts, receivables, commissions and an audit trail. The model covers eight parts:

- **Auth gate.** The `Authorization: Bearer` check (RFC 6750, section 2.1) and the non-empty secret check. The `sub` and `role` claims (RFC 7519, sections 4.1.2 and 4.1.4) are passed into the request context. `RequireRole` applies an allow-list.
- **Lead pipeline.** Leads move lead → qualified → proposal → contract, and contract is terminal. The leads table is a class holding a `map` from id to row. Each repository method is proved equal to a step function over the table value. Lemmas over arbitrary runs of calls show that a lead only moves forward. Through the PUT route, every run gives it at most three status changes. The repository alone also lets a lead without a successor take the empty status any number of times; only the route's vocabulary check stops that.
- **Lead HTTP handlers.** Role wiring, the status vocabulary, the initial status, and the mapping from repository errors to status codes.
- **Finance guards.** `MarkAsPaid` (open → paid) and `ApproveCommission` (unapproved → approved) are conditional writes followed by a re-read. Lemmas over runs show that a receivable is paid at most once and that an approval keeps its first approver. The finance handlers map the errors to 404, 400 or 500.
- **Audit recorder.** The method gate, the body replay, and the status recorder (the last `WriteHeader` wins). It also derives the action, entity, client IP and diff, and writes at most one log per request.
- **Contract handlers.** The order-preserving status filter of `list` (a loop proved against a recursive specification). The validation of `create` and `update`, including an exact model of Go's `time.Parse("2006-01-02", …)` with round-trip lemmas. The default status, and the error mapping.
- **Audit-log query.** NULL filters, the default window and limit, the inclusive `BETWEEN`, newest-first order and `LIMIT`. These are specified by a sort and a prefix, with completeness and top-k lemmas.

Repositories and handlers are separate modules.

- A handler takes its repository as a function parameter. It consults the repository only after validation passes.
- Route lemmas such as `LeadHandler.StatusRouteOutcomes` and `FinanceHandler.PayRouteOutcomes` plug the step functions in. This gives the end-to-end behaviour of a route on a table.
- Instants are integers (seconds). `Clock.ZeroTime` is Go's zero `time.Time` and `Clock.UnixEpoch` is `time.Unix(0, 0)`.
- ULIDs and the clock are parameters (`freshId`, `now`).

Some behaviours of the code are easy to misread; the model follows the code:

- The audit entity is read from the *request's* `X-Entity` header and stored as is. The handlers set `X-Entity` on the *response*, so their values never reach the log.
- The status recorder keeps the *last* `WriteHeader` code, not the first. net/http sends the client the first code, so a handler that writes 500 and then 200 is logged as a success (`AuditMiddleware.LastWriteDecidesLog`).
- `JWT_SECRET` is read on every request, not once at start-up.
- The audit middleware is mounted outside `AuthMiddleware` (backend/cmd/server/main.go:63-72). As mounted there, its user id is therefore the empty string. The model takes the context as a parameter.
- `validate:"required"` on a float refuses 0. A contract's `value_total` must therefore be strictly positive, not just non-negative.
- The finance conditional writes and their re-reads never look at `deleted_at`. A soft-deleted open receivable can still be paid (`FinanceRepository.DeletedReceivablePayable`).

## Model

| member | source | states |
|---|---|---|
| Auth.BearerToken | backend/internal/auth/middleware.go:22-27 | A token is extracted iff the header starts with exactly "Bearer ", and the header is that prefix followed by the token |
| Auth.BearerTokenRoundTrip | backend/internal/auth/middleware.go:23-27 | Whatever follows "Bearer " is exactly the token handed on |
| Auth.Authenticate | backend/internal/auth/middleware.go:20-47 | Any rejection is 401; the request is forwarded iff the header is Bearer, the secret is non-empty and the token parses and is valid; the forwarded context carries the sub claim as user id and the role claim as role ("" when not a string) |
| Auth.EmptySecretRejects | backend/internal/auth/middleware.go:28-32 | With an empty JWT_SECRET every request is 401, whatever the token |
| Auth.AllowSet | backend/internal/auth/middleware.go:51-54 | The allow-set built from the role arguments contains exactly the listed roles |
| Auth.RequireRole | backend/internal/auth/middleware.go:50-65 | next runs with the context unchanged iff the context role is in the list; otherwise 403 |
| Auth.MissingRoleForbidden | backend/internal/auth/middleware.go:57-61 | With no role in the context the request passes only if "" is listed |
| Auth.StackedRoleGates | backend/internal/auth/middleware.go:50-65 | Two stacked RequireRole gates admit exactly the roles in both lists, and reject with 403 |
| Auth.AuthenticatedRoleGate | backend/internal/auth/middleware.go:20-65 | Auth then role gate: 401 iff authentication fails; 403 iff it succeeds but the role claim is not listed; forwarded iff both pass |
| LeadRepository.Successor | backend/internal/lead/postgres_repository.go:48-52 | Each pipeline status maps to the next one; contract and every unknown status map to "" |
| LeadRepository.SuccessorUsesOneStep | backend/internal/lead/postgres_repository.go:48-52 | A successor exists iff transitions remain; each transition uses up exactly one; at most three remain |
| LeadRepository.CreateStep | backend/internal/lead/postgres_repository.go:40-46 | The row is stored under the fresh id, live, with the caller's status; a duplicate id fails and changes nothing |
| LeadRepository.UpdateStatusStep | backend/internal/lead/postgres_repository.go:55-75 | ErrNoRows iff the lead is missing or deleted; "invalid status transition" iff live and the target is not the successor; success iff it is; on success only that lead's status and updated_at change; on failure nothing changes |
| LeadRepository.EmptyTargetPassesRepositoryGuard | backend/internal/lead/postgres_repository.go:48-66 | The repository alone lets a contract lead "move" to "" again and again, so the handler's vocabulary check is what blocks it |
| LeadRepository.UpdateStep | backend/internal/lead/postgres_repository.go:78-89 | Succeeds iff the lead is live; the new table is the old one with that row's promoter_id, service_id and notes taken from the request and updated_at set to now, so id, customer, status, created_at and deleted_at are kept; otherwise ErrNoRows and nothing changes |
| LeadRepository.SoftDeleteStep | backend/internal/lead/postgres_repository.go:92-101 | A live lead gets its deletion time and stops being live; a missing or deleted one gives ErrNoRows |
| LeadRepository.SecondSoftDeleteFails | backend/internal/lead/postgres_repository.go:92-101 | A second delete of the same lead gives ErrNoRows and changes nothing |
| LeadRepository.ListLeads | backend/internal/lead/postgres_repository.go:23-37 | Exactly the live leads, and with a non-empty filter exactly those with that status |
| LeadRepository.ListFilterNarrows | backend/internal/lead/postgres_repository.go:23-37 | A filtered listing is the unfiltered listing narrowed to the status |
| LeadRepository.LeadRepo.constructor | backend/internal/lead/postgres_repository.go:23-101 | The repository starts over the given keyed table |
| LeadRepository.LeadRepo.Create | backend/internal/lead/postgres_repository.go:40-46 | The caller's id is replaced by the fresh id; the table afterwards and the error equal CreateStep |
| LeadRepository.LeadRepo.UpdateStatus | backend/internal/lead/postgres_repository.go:55-75 | Read, then check, then write; the table afterwards and the error equal UpdateStatusStep |
| LeadRepository.LeadRepo.Update | backend/internal/lead/postgres_repository.go:78-89 | The table afterwards and the error equal UpdateStep |
| LeadRepository.LeadRepo.SoftDelete | backend/internal/lead/postgres_repository.go:92-101 | The table afterwards and the error equal SoftDeleteStep |
| LeadRepository.ApplySpendsBudget | backend/internal/lead/postgres_repository.go:48-75 | No call raises a lead's remaining transitions; a successful transition to a non-empty status spends exactly one; no call removes a row |
| LeadRepository.TransitionsBounded | backend/internal/lead/postgres_repository.go:48-75 | Over any run of calls, a lead's successful transitions to a non-empty status never exceed what its status left open, and never exceed three (transitions to "" are not counted) |
| LeadRepository.StatusNeverMovesBack | backend/internal/lead/postgres_repository.go:48-75 | Over any run of calls a lead keeps existing and its remaining transitions never grow |
| LeadHandler.Admit | backend/internal/lead/handler.go:19-31 | GET /leads admits admin and promoter; PUT /leads/{id}/status admits finance and admin (403 otherwise); create, update and delete add no role check |
| LeadHandler.HandleList | backend/internal/lead/handler.go:60-69 | 200 with the repository's rows iff it succeeds, else 500 |
| LeadHandler.HandleCreate | backend/internal/lead/handler.go:76-110 | 400 on a malformed or incomplete body; otherwise 201 iff the repository succeeds, with status "lead" whatever was sent, and Location "/leads/<id>" and X-Entity "leads:<id>" naming the repository's id; any repository error is 500 with no body |
| LeadHandler.CreateStoresFreshLead | backend/internal/lead/handler.go:90-108 | Through the repository, a create is 201 at "/leads/<freshId>", and the row stored there is live with status "lead" |
| LeadHandler.HandleUpdateStatus | backend/internal/lead/handler.go:117-146 | 400 before the repository unless the target is qualified, proposal or contract; then 204 with X-Entity iff success, 404 iff ErrNoRows, 400 iff the message is "invalid status transition", 500 otherwise |
| LeadHandler.StatusRouteOutcomes | backend/internal/lead/handler.go:117-146 | On a table: 204 iff the target is the live lead's successor, 404 iff missing or deleted, else 400, never 500; only a 204 changes the table, and it spends one remaining transition |
| LeadHandler.SkippingAheadRejected | backend/internal/lead/handler_test.go:120-138 | From "lead", asking for contract or proposal is 400 with the table unchanged; qualified is 204 |
| LeadHandler.StatusRouteKeepsVocabulary | backend/internal/lead/handler.go:51-53 | Through the route, every lead's status stays in the pipeline vocabulary |
| LeadHandler.StatusRouteSpendsBudget | backend/internal/lead/handler.go:117-146 | One status request: a 204 for a lead spends exactly one of its remaining transitions; no answer raises any lead's budget |
| LeadHandler.RouteTransitionsBounded | backend/internal/lead/handler.go:117-146 | Over any run of PUT /leads/{id}/status requests, the 204s for a lead never exceed the transitions its status left open, and never exceed three, the empty target included |
| LeadHandler.HandleUpdate | backend/internal/lead/handler.go:153-187 | 400 on a bad body or missing service_id; then 204 with X-Entity iff success, 404 iff ErrNoRows, else 500 |
| LeadHandler.UpdateKeepsStatus | backend/internal/lead/handler.go:168-176 | Editing a live lead through the repository keeps its status and customer |
| LeadHandler.HandleRemove | backend/internal/lead/handler.go:194-206 | 204 with X-Entity iff the delete succeeds, 404 iff ErrNoRows, else 500 |
| FinanceRepository.MarkAsPaidStep | backend/internal/finance/postgres_repository.go:38-60 | Success iff the receivable exists and is open, and it then becomes paid with paid_at; ErrNoRows iff unknown; ErrAlreadyPaid iff any other status; on errors nothing changes |
| FinanceRepository.PaidOnlyOnce | backend/internal/finance/postgres_repository.go:39-59 | After a successful payment the next call is ErrAlreadyPaid, never NotFound, and changes nothing |
| FinanceRepository.DeletedReceivablePayable | backend/internal/finance/postgres_repository.go:39-52 | deleted_at is not consulted: an open, soft-deleted receivable is still paid |
| FinanceRepository.ApproveCommissionStep | backend/internal/finance/postgres_repository.go:76-98 | Success iff the commission exists unapproved, and it then gets approved, approver and time together; ErrAlreadyApproved iff already approved (row unchanged); ErrNoRows iff unknown |
| FinanceRepository.ListReceivables | backend/internal/finance/postgres_repository.go:21-35 | Exactly the rows not deleted, and with a non-empty status exactly those with it |
| FinanceRepository.ListCommissions | backend/internal/finance/postgres_repository.go:63-73 | Exactly the rows not deleted, and with onlyPending exactly the unapproved ones |
| FinanceRepository.FinanceRepo.constructor | backend/internal/finance/postgres_repository.go:21-98 | The repository starts over the given keyed tables |
| FinanceRepository.FinanceRepo.MarkAsPaid | backend/internal/finance/postgres_repository.go:38-60 | Conditional write, then re-read; the receivables afterwards and the error equal MarkAsPaidStep; commissions untouched |
| FinanceRepository.FinanceRepo.ApproveCommission | backend/internal/finance/postgres_repository.go:76-98 | Conditional write, then re-read; the commissions afterwards and the error equal ApproveCommissionStep; receivables untouched |
| FinanceRepository.PaidAtMostOnce | backend/internal/finance/postgres_repository.go:39-59 | Over any run of calls a receivable is paid at most once, and not at all once it has left "open"; it never comes back to "open" |
| FinanceRepository.ApprovalIsFinal | backend/internal/finance/postgres_repository.go:77-97 | Over any run of calls an approved commission keeps its row, including the first approver and time |
| FinanceHandler.Admit | backend/internal/finance/handler.go:15-27 | Both route groups admit the finance role only, 403 otherwise |
| FinanceHandler.PendingFlag | backend/internal/finance/handler.go:80 | Pending rows only iff the query value is exactly "true" |
| FinanceHandler.PendingNeedsExactTrue | backend/internal/finance/handler.go:80-81 | "1" and "TRUE" list the same as no query; "true" lists only unapproved commissions |
| FinanceHandler.HandleList | backend/internal/finance/handler.go:38-47 | 200 with the rows iff the repository succeeds, else 500 |
| FinanceHandler.HandleMarkAsPaid | backend/internal/finance/handler.go:54-71 | 204 with X-Entity "receivables:<id>" iff success; 404 iff ErrNoRows; 400 iff ErrAlreadyPaid; 500 otherwise |
| FinanceHandler.PayRouteOutcomes | backend/internal/finance/handler.go:54-71 | On a table: 204 iff open, 404 iff unknown, 400 iff any other status; paying twice gives 204 then 400 |
| FinanceHandler.HandleApprove | backend/internal/finance/handler.go:94-112 | The approver passed on is the context's user id; 204 with X-Entity "commissions:<id>" iff success; 404 iff ErrNoRows; 400 iff ErrAlreadyApproved; 500 otherwise |
| FinanceHandler.ApproveRecordsCaller | backend/internal/finance/handler.go:94-112 | Approving through the route records the caller as approver at that time; a second approval by anyone is 400 and keeps the first |
| AuditMiddleware.ActionOf | backend/internal/audit/middleware.go:48-53 | The action is non-empty iff the method is POST, PUT or DELETE, and MethodOf recovers the method from it |
| AuditMiddleware.PrefixBefore | backend/internal/audit/middleware.go:57-59 | The first field of a split: a prefix of the input with no separator, ending at the end or just before a separator |
| AuditMiddleware.EntityName | backend/internal/audit/middleware.go:54-61 | The request's X-Entity header when non-empty; otherwise the longest slash-free prefix of the path after one leading "/" is trimmed, i.e. its first segment |
| AuditMiddleware.EntityIsFirstSegment | backend/internal/audit/middleware.go:54-61 | Without the header, "/seg/…", "/seg" and "seg/…" are all logged under "seg" |
| AuditMiddleware.ClientIP | backend/internal/audit/middleware.go:64-67 | X-Forwarded-For when non-empty; otherwise the longest colon-free prefix of RemoteAddr, i.e. everything before its first ':' |
| AuditMiddleware.ClientIPIsHost | backend/internal/audit/middleware.go:64-67 | "host:port" gives the host; an IPv6 "[::1]:8080" gives "[" |
| AuditMiddleware.Diff | backend/internal/audit/middleware.go:71-74 | The raw body iff the action is update and the body is non-empty; otherwise no diff |
| AuditMiddleware.AuditEntry | backend/internal/audit/middleware.go:44-86 | A log iff the method is audited and the status is 2xx; it carries the method's action, the EntityName of the request, the route id, the context user id, the ClientIP and the geo lookup of it, the request's User-Agent, the given id and time, and exactly Diff of its action and body: the body for a non-empty PUT, no diff otherwise |
| AuditMiddleware.Body.ReadAll | backend/internal/audit/middleware.go:39 | Returns all unread bytes and leaves the reader exhausted |
| AuditMiddleware.Wire.WriteHeader | backend/internal/audit/middleware.go:26 | The underlying writer receives every code, in order |
| AuditMiddleware.StatusRecorder.constructor | backend/internal/audit/middleware.go:42 | The recorder starts at 200, over the given writer |
| AuditMiddleware.StatusRecorder.WriteHeader | backend/internal/audit/middleware.go:24-27 | The recorded status becomes the new code, which is also passed on to the writer |
| AuditMiddleware.AuditSink.Create | backend/internal/audit/middleware.go:87 | Appends the log when the database accepts it, and otherwise leaves the logs unchanged |
| AuditMiddleware.ServeAudit | backend/internal/audit/middleware.go:30-90 | The next handler reads exactly the original body bytes; the client's writer gets exactly the handler's codes, whether or not the log is stored; the sink gains at most one log, the AuditEntry for the last code written |
| AuditMiddleware.LastWriteDecidesLog | backend/internal/audit/middleware.go:24-27 | Codes 500 then 200 reach the client as 500 but are logged; 200 then 500 are not logged |
| AuditMiddleware.OnlyWritesLogged | backend/internal/audit/middleware.go:33-46 | Other methods are never logged; an audited request whose handler writes no code is logged as 200 |
| Dates.DaysIn | backend/internal/contract/handler.go:94 | 28 to 31 days, with 29 exactly for February of a leap year |
| Dates.ParseDate | backend/internal/contract/handler.go:94 | Only ten-character "dddd-dd-dd" text can parse, and every parsed date exists in the calendar |
| Dates.FormatDate | backend/internal/contract/handler.go:94 | A valid date formats to ten-character "dddd-dd-dd" text |
| Dates.ParseFormat | backend/internal/contract/handler.go:94 | Every valid date parses back from its own text |
| Dates.FormatParse | backend/internal/contract/handler.go:94 | Every accepted text is the formatting of the date it denotes |
| Dates.AfterIsStrictTotalOrder | backend/internal/contract/handler.go:106 | After is irreflexive, asymmetric, total and transitive |
| ContractHandler.WithStatusMembers | backend/internal/contract/handler.go:60-70 | The status filter keeps exactly the contracts with that status, and never more than its input |
| ContractHandler.WithStatusConcat | backend/internal/contract/handler.go:60-70 | The filter distributes over concatenation, so it keeps the original order |
| ContractHandler.FilterByStatus | backend/internal/contract/handler.go:63-69 | The append loop computes exactly the order-preserving status filter |
| ContractHandler.List | backend/internal/contract/handler.go:52-73 | 500 iff the repository fails; an empty query returns every contract; a non-empty one returns exactly those of that status, in order |
| ContractHandler.ParseWindow | backend/internal/contract/handler.go:94-112 | Accepted iff the start parses and a non-empty end parses and is not before it; an empty end means no end date |
| ContractHandler.WindowOrder | backend/internal/contract/handler.go:100-112 | For dates in the layout, the window is accepted iff the end is not before the start; equal dates and an empty end are accepted |
| ContractHandler.InitialStatus | backend/internal/contract/handler.go:125-129 | "active" when none is given, otherwise the given status verbatim; so never empty |
| ContractHandler.HandleCreate | backend/internal/contract/handler.go:80-145 | 400 on any validation or date failure; then 201 with Location "/contracts/<id>" iff the repository succeeds, 400 iff ErrNoRows, else 500; a created contract has the requested status, or "active" when none was given, and an ordered window |
| ContractHandler.ZeroAmountRejected | backend/internal/contract/handler.go:33 | A value_total of zero or below is 400 before the repository |
| ContractHandler.HandleUpdate | backend/internal/contract/handler.go:152-207 | 400 on a status outside active, suspended, closed or cancelled, a non-positive amount, a missing start or a bad window; then 204 iff success, 404 iff ErrNoRows, else 500 |
| ContractHandler.AnyStatusMayFollowAnother | backend/internal/contract/handler.go:188-197 | Update never consults the stored status: every vocabulary status is accepted when the repository finds the contract |
| ContractHandler.HandleRemove | backend/internal/contract/handler.go:214-225 | 204 iff the delete succeeds, 404 iff ErrNoRows, else 500 |
| AuditQuery.ToNull | backend/internal/auditquery/postgres_repository.go:21-26 | NULL iff the filter is empty, otherwise the filter itself |
| AuditQuery.ToNullMatching | backend/internal/auditquery/postgres_repository.go:21-34 | An empty filter matches every column value; a non-empty one matches exactly equal values |
| AuditQuery.Bind | backend/internal/auditquery/postgres_repository.go:38-51 | The three filters are bound through ToNull ("" becomes NULL); zero start becomes the epoch, zero end becomes now, limit 0 becomes 100; other start, end and limit values pass unchanged |
| AuditQuery.Where | backend/internal/auditquery/postgres_repository.go:31-35 | Exactly the rows that match every bound filter and lie in the inclusive window, drawn from the table |
| AuditQuery.Insert | backend/internal/auditquery/postgres_repository.go:36 | Inserting into a newest-first sequence keeps it newest-first and adds exactly that row |
| AuditQuery.SortNewestFirst | backend/internal/auditquery/postgres_repository.go:36 | A newest-first permutation of its input |
| AuditQuery.Query | backend/internal/auditquery/postgres_repository.go:29-55 | Fails iff the limit is negative; otherwise at most limit rows, newest first, drawn from the table, each matching the filter |
| AuditQuery.RowsMatchFilter | backend/internal/auditquery/postgres_repository.go:32-48 | Every returned row equals each non-empty filter and lies between the start (or epoch) and the end (or now), inclusive; a zero limit returns at most 100 |
| AuditQuery.QueryComplete | backend/internal/auditquery/postgres_repository.go:35-37 | A short answer holds every matching row; a matching row left out is no newer than any row returned |

## Left out

- JWT parsing and signature checking belong to golang-jwt. They are an oracle from token and secret to "parse error" or "parsed, valid or not, with claims".
- `auth.UserIDFromContext` is not part of this model. It is taken to return the context's `userID` value, or "" when there is none.
- Geo lookup is network I/O. It is a function parameter from IP to `GeoInfo`, and the zero value stands for a failed lookup. The JSON marshalling of the geo record is not modelled, and the log holds the `GeoInfo` value.
- Login, password hashing and token issuing are not modelled.
- SQL execution, sqlx scanning, ULID generation and `time.Now` are not modelled.
  - Tables are maps keyed by id, with a deletion time where the table has `deleted_at`.
  - Ids and clock readings are parameters.
  - A database failure other than a duplicate key is not produced by the step functions. The handlers still map any such error to 500.
- Concurrency is not modelled, and calls are sequential. Lead `UpdateStatus` reads and writes in two statements, so between them a concurrent delete would turn its write into ErrNoRows. The sequential model never reaches that branch.
- LeadRepository.ListLeads, FinanceRepository.ListReceivables and FinanceRepository.ListCommissions: the SQL has no ORDER BY, so they return sets and say nothing about order.
- FinanceRepository.ListReceivables and FinanceRepository.ListCommissions return the rows the query selects, not what the Go program returns. Both issue `SELECT *` against tables that have a `deleted_at` column (backend/internal/finance/postgres_repository.go:23,65). The Go structs have no field for that column (backend/internal/finance/model.go:6-28). The database is opened with a plain `sqlx.Open` (backend/cmd/server/main.go:38), whose default scan refuses a column without a destination. As written, both listings would therefore presumably answer 500; the model does not capture this scanning failure.
- Http.Header is an exact-key map lookup. Header maps are taken to hold canonical keys (`X-Entity`, `X-Forwarded-For`, `User-Agent`). The model does not capture Go's `Header.Get` canonicalisation, which also reads `x-entity` as `X-Entity`.
- AuditQuery.SortNewestFirst: rows with equal `created_at` have no defined order in Postgres. The model fixes one order: `SortNewestFirst` emits rows with equal `created_at` in reverse table order.
- AuditMiddleware.ServeAudit:
  - The next handler is modelled as reading its whole body and then issuing its `WriteHeader` calls.
  - Response bodies, and the implicit 200 of a handler that only writes a body, are not modelled.
  - The log's `id` and `created_at` are parameters.
- The CRUD modules (customer, service, promoter), the contract repository, the audit-query HTTP handler (query-string parsing) and the main.go wiring are not modelled. Their repositories appear only as function parameters of the handlers.
- Amounts (`amount`, `value_total`) are `real` values that are carried and compared with zero, never computed with. JSON decoding is modelled only as "malformed or decoded", and the error bodies of 400 responses are not modelled.
- Content-Type headers and JSON response bodies are not modelled, apart from the created row returned by the create handlers.
- The frontend is not modelled.
