/**
 * The HTTP handlers of backend/internal/finance/handler.go: both route groups sit behind
 * RequireRole("finance"), and the two write routes map the repository's error to a status code.
 */
module FinanceHandler {
  import opened Wrappers
  import opened Store
  import opened Http
  import Auth
  import opened FinanceRepository

  /** The role list both /receivables and /commissions are mounted with. */
  const FinanceRoles: seq<string> := ["finance"]

  /** Both route groups admit the finance role and no other. */
  function Admit(ctx: Auth.AuthContext): (g: Auth.Gate)
    ensures g.Forward? <==> Auth.RoleOf(ctx) == "finance"
    ensures g.Forward? ==> g.ctx == ctx
    ensures g.Reject? ==> g.code == Forbidden
  {
    Auth.RequireRole(FinanceRoles, ctx)
  }

  // ---------------------------------------------------------------------------
  // Listings
  // ---------------------------------------------------------------------------

  /** listCommissions' `pending` query: only the exact text "true" asks for pending rows. */
  function PendingFlag(query: string): (onlyPending: bool)
    ensures onlyPending <==> query == "true"
  {
    query == "true"
  }

  /** `pending=1`, `pending=TRUE` or an absent query all list every commission. */
  lemma PendingNeedsExactTrue(t: CommissionTable)
    requires forall k :: k in t ==> t[k].id == k
    ensures ListCommissions(t, PendingFlag("1")) == ListCommissions(t, PendingFlag(""))
    ensures ListCommissions(t, PendingFlag("TRUE")) == ListCommissions(t, PendingFlag(""))
    ensures forall c :: c in ListCommissions(t, PendingFlag("true")) ==> !c.approved
  {
    assert "1" != "true";
    assert "TRUE" != "true";
  }

  datatype ListReply<T> = ListReply(response: Response, body: set<T>)

  /** listReceivables and listCommissions: a repository error is 500, otherwise 200 with the rows. */
  function HandleList<T>(rows: Result<set<T>, RepoError>): (r: ListReply<T>)
    ensures r.response.code == OK <==> rows.Success?
    ensures rows.Success? ==> r.body == rows.value
    ensures rows.Failure? ==> r == ListReply(Plain(InternalServerError), {})
  {
    match rows
    case Failure(_) => ListReply(Plain(InternalServerError), {})
    case Success(xs) => ListReply(Plain(OK), xs)
  }

  // ---------------------------------------------------------------------------
  // markAsPaid
  // ---------------------------------------------------------------------------

  /**
   * markAsPaid: ErrNoRows is 404, ErrAlreadyPaid is 400, any other error 500; success is 204
   * with X-Entity "receivables:<id>".
   */
  function HandleMarkAsPaid(id: string, markAsPaid: string -> Outcome): (r: Response)
    ensures r.code == NoContent <==> markAsPaid(id).Ok?
    ensures r.code == NotFound <==> markAsPaid(id) == Err(ErrNoRows)
    ensures r.code == BadRequest <==> markAsPaid(id) == Err(ErrAlreadyPaid)
    ensures r.code == InternalServerError <==>
      markAsPaid(id).Err? && markAsPaid(id).error !in {ErrNoRows, ErrAlreadyPaid}
    ensures r.code == NoContent ==> r.headers == map[EntityHeader := "receivables:" + id]
  {
    match markAsPaid(id)
    case Ok => Response(NoContent, map[EntityHeader := "receivables:" + id])
    case Err(e) =>
      if e == ErrNoRows then Plain(NotFound)
      else if e == ErrAlreadyPaid then Plain(BadRequest)
      else Plain(InternalServerError)
  }

  /** The pay route against the receivables table: the response and the table afterwards. */
  function PayRoute(t: ReceivableTable, id: string, now: int): (Response, ReceivableTable) {
    var s := MarkAsPaidStep(t, id, now);
    (HandleMarkAsPaid(id, i => MarkAsPaidStep(t, i, now).outcome), s.table)
  }

  /**
   * The pay route end to end: 204 for an open receivable, 404 for an unknown id, 400 for any
   * other status, never 500; paying twice gives 204 then 400.
   */
  lemma PayRouteOutcomes(t: ReceivableTable, id: string, now1: int, now2: int)
    ensures var (resp, t1) := PayRoute(t, id, now1);
      && (resp.code == NoContent <==> id in t && t[id].status == Open)
      && (resp.code == NotFound <==> id !in t)
      && (resp.code == BadRequest <==> id in t && t[id].status != Open)
      && (resp.code == NoContent ==> PayRoute(t1, id, now2).0 == Plain(BadRequest))
  {
    var (resp, t1) := PayRoute(t, id, now1);
    if resp.code == NoContent {
      PaidOnlyOnce(t, id, now1, now2);
    }
  }

  // ---------------------------------------------------------------------------
  // approveCommission
  // ---------------------------------------------------------------------------

  /**
   * approveCommission: the approver is the user id in the request context ("" without one);
   * ErrNoRows is 404, ErrAlreadyApproved is 400, any other error 500; success is 204 with
   * X-Entity "commissions:<id>".
   */
  function HandleApprove(id: string, ctx: Auth.AuthContext,
                         approve: (string, string) -> Outcome): (r: Response)
    ensures var out := approve(id, Auth.UserIdOf(ctx));
      && (r.code == NoContent <==> out.Ok?)
      && (r.code == NotFound <==> out == Err(ErrNoRows))
      && (r.code == BadRequest <==> out == Err(ErrAlreadyApproved))
      && (r.code == InternalServerError <==> out.Err? && out.error !in {ErrNoRows, ErrAlreadyApproved})
      && (r.code == NoContent ==> r.headers == map[EntityHeader := "commissions:" + id])
  {
    var userId := Auth.UserIdOf(ctx);
    match approve(id, userId)
    case Ok => Response(NoContent, map[EntityHeader := "commissions:" + id])
    case Err(e) =>
      if e == ErrNoRows then Plain(NotFound)
      else if e == ErrAlreadyApproved then Plain(BadRequest)
      else Plain(InternalServerError)
  }

  /** The approve route against the commissions table: the response and the table afterwards. */
  function ApproveRoute(t: CommissionTable, id: string, ctx: Auth.AuthContext, now: int)
    : (Response, CommissionTable)
  {
    var s := ApproveCommissionStep(t, id, Auth.UserIdOf(ctx), now);
    (HandleApprove(id, ctx, (i, u) => ApproveCommissionStep(t, i, u, now).outcome), s.table)
  }

  /**
   * The approve route end to end: a 204 records the caller's user id as approver; a second
   * approval by anyone is 400 and keeps the first approver and time.
   */
  lemma ApproveRecordsCaller(t: CommissionTable, id: string, ctx: Auth.AuthContext,
                             other: Auth.AuthContext, now1: int, now2: int)
    requires id in t && !t[id].approved
    ensures var (resp, t1) := ApproveRoute(t, id, ctx, now1);
      && resp.code == NoContent
      && t1[id].approved && t1[id].approvedBy == Auth.UserIdOf(ctx) && t1[id].approvedAt == Some(now1)
      && ApproveRoute(t1, id, other, now2) == (Plain(BadRequest), t1)
  {
  }
}
