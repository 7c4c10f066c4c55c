/**
 * The accounts_receivable and commissions tables and their repository
 * (backend/internal/finance/postgres_repository.go). MarkAsPaid and ApproveCommission are
 * conditional updates: when no row is affected they re-read the row only to tell a missing id
 * apart from one already paid or approved. Neither the conditional update nor the re-read looks
 * at deleted_at, so a soft-deleted row still counts as existing; only the listings hide it.
 */
module FinanceRepository {
  import opened Wrappers
  import opened Store

  /** An account receivable; the amount is carried, never computed with. */
  datatype Receivable = Receivable(
    id: string,
    contractId: string,
    dueDate: int,
    amount: real,
    status: string,
    paidAt: Option<int>,
    createdAt: int,
    updatedAt: int,
    deletedAt: Option<int>)

  /** A promoter's commission on a contract. */
  datatype Commission = Commission(
    id: string,
    contractId: string,
    promoterId: string,
    amount: real,
    approved: bool,
    approvedBy: string,
    approvedAt: Option<int>,
    createdAt: int,
    updatedAt: int,
    deletedAt: Option<int>)

  type ReceivableTable = map<string, Receivable>
  type CommissionTable = map<string, Commission>

  /** Every row is stored under its own id. */
  ghost predicate Keyed(r: ReceivableTable, c: CommissionTable) {
    && (forall k :: k in r ==> r[k].id == k)
    && (forall k :: k in c ==> c[k].id == k)
  }

  const Open := "open"
  const Paid := "paid"

  // ---------------------------------------------------------------------------
  // One call: step functions
  // ---------------------------------------------------------------------------

  datatype PayStep = PayStep(outcome: Outcome, table: ReceivableTable)

  /**
   * MarkAsPaid: an open receivable becomes paid, with paid_at, in the one conditional write;
   * otherwise the re-read answers ErrNoRows for an unknown id and ErrAlreadyPaid for any other
   * status, and nothing changes.
   */
  function MarkAsPaidStep(t: ReceivableTable, id: string, now: int): (s: PayStep)
    ensures s.outcome.Ok? <==> id in t && t[id].status == Open
    ensures s.outcome == Err(ErrNoRows) <==> id !in t
    ensures s.outcome == Err(ErrAlreadyPaid) <==> id in t && t[id].status != Open
    ensures s.outcome.Ok? ==> s.table == t[id := t[id].(status := Paid, paidAt := Some(now))]
    ensures !s.outcome.Ok? ==> s.table == t
  {
    if id in t && t[id].status == Open then
      PayStep(Ok, t[id := t[id].(status := Paid, paidAt := Some(now))])
    else if id !in t then PayStep(Err(ErrNoRows), t)
    else PayStep(Err(ErrAlreadyPaid), t)
  }

  /** A receivable paid once answers ErrAlreadyPaid to the next call, never NotFound. */
  lemma PaidOnlyOnce(t: ReceivableTable, id: string, now1: int, now2: int)
    requires MarkAsPaidStep(t, id, now1).outcome.Ok?
    ensures var t1 := MarkAsPaidStep(t, id, now1).table;
      MarkAsPaidStep(t1, id, now2) == PayStep(Err(ErrAlreadyPaid), t1)
  {
  }

  /** Soft deletion does not protect a receivable: an open deleted row is still paid. */
  lemma DeletedReceivablePayable(t: ReceivableTable, id: string, now: int)
    requires id in t && t[id].status == Open && t[id].deletedAt.Some?
    ensures MarkAsPaidStep(t, id, now).outcome.Ok?
  {
  }

  datatype ApproveStep = ApproveStep(outcome: Outcome, table: CommissionTable)

  /**
   * ApproveCommission: an unapproved commission gets approved, approved_by and approved_at in
   * one write; an approved one answers ErrAlreadyApproved and keeps its original approver and
   * time; an unknown id answers ErrNoRows.
   */
  function ApproveCommissionStep(t: CommissionTable, id: string, approverId: string, now: int)
    : (s: ApproveStep)
    ensures s.outcome.Ok? <==> id in t && !t[id].approved
    ensures s.outcome == Err(ErrNoRows) <==> id !in t
    ensures s.outcome == Err(ErrAlreadyApproved) <==> id in t && t[id].approved
    ensures s.outcome.Ok? ==>
      s.table == t[id := t[id].(approved := true, approvedBy := approverId, approvedAt := Some(now))]
    ensures !s.outcome.Ok? ==> s.table == t
  {
    if id in t && !t[id].approved then
      ApproveStep(Ok, t[id := t[id].(approved := true, approvedBy := approverId, approvedAt := Some(now))])
    else if id !in t then ApproveStep(Err(ErrNoRows), t)
    else ApproveStep(Err(ErrAlreadyApproved), t)
  }

  // ---------------------------------------------------------------------------
  // Listings
  // ---------------------------------------------------------------------------

  /** ListReceivables: the rows not deleted, and with a non-empty status only those with it. */
  function ListReceivables(t: ReceivableTable, status: string): (r: set<Receivable>)
    requires forall k :: k in t ==> t[k].id == k
    ensures forall x :: x in r ==> x.id in t && t[x.id] == x && x.deletedAt.None?
    ensures forall x :: x in r && status != "" ==> x.status == status
    ensures forall id :: id in t && t[id].deletedAt.None? && (status == "" || t[id].status == status)
                         ==> t[id] in r
  {
    set id | id in t && t[id].deletedAt.None? && (status == "" || t[id].status == status)
      :: t[id]
  }

  /** ListCommissions: the rows not deleted, and with onlyPending only the unapproved ones. */
  function ListCommissions(t: CommissionTable, onlyPending: bool): (r: set<Commission>)
    requires forall k :: k in t ==> t[k].id == k
    ensures forall x :: x in r ==> x.id in t && t[x.id] == x && x.deletedAt.None?
    ensures forall x :: x in r && onlyPending ==> !x.approved
    ensures forall id :: id in t && t[id].deletedAt.None? && (!onlyPending || !t[id].approved) ==> t[id] in r
  {
    set id | id in t && t[id].deletedAt.None? && (!onlyPending || !t[id].approved) :: t[id]
  }

  // ---------------------------------------------------------------------------
  // The repository object
  // ---------------------------------------------------------------------------

  class FinanceRepo {
    var receivables: ReceivableTable
    var commissions: CommissionTable

    ghost predicate Valid()
      reads this
    {
      Keyed(receivables, commissions)
    }

    constructor (r: ReceivableTable, c: CommissionTable)
      requires Keyed(r, c)
      ensures Valid() && receivables == r && commissions == c
    {
      receivables := r;
      commissions := c;
    }

    /** The conditional UPDATE, then, when it touched no row, the re-read of the status. */
    method MarkAsPaid(id: string, now: int) returns (r: Outcome)
      requires Valid()
      modifies this
      ensures Valid() && commissions == old(commissions)
      ensures PayStep(r, receivables) == MarkAsPaidStep(old(receivables), id, now)
    {
      // The conditional write: only an open receivable becomes paid.
      var affected := 0;
      if id in receivables && receivables[id].status == Open {
        receivables := receivables[id := receivables[id].(status := Paid, paidAt := Some(now))];
        affected := 1;
      }
      if affected == 1 {
        return Ok;
      }
      // No row was affected: re-read the status to tell a missing receivable from a paid one.
      if id !in receivables {
        return Err(ErrNoRows);
      }
      r := Err(ErrAlreadyPaid);
    }

    /** The conditional UPDATE, then, when it touched no row, the re-read of `approved`. */
    method ApproveCommission(id: string, approverId: string, now: int) returns (r: Outcome)
      requires Valid()
      modifies this
      ensures Valid() && receivables == old(receivables)
      ensures ApproveStep(r, commissions) == ApproveCommissionStep(old(commissions), id, approverId, now)
    {
      // The conditional write: only an unapproved commission is approved.
      var affected := 0;
      if id in commissions && !commissions[id].approved {
        commissions := commissions[id := commissions[id].(approved := true, approvedBy := approverId,
                                                          approvedAt := Some(now))];
        affected := 1;
      }
      if affected == 1 {
        return Ok;
      }
      // No row was affected: re-read the approval flag to tell a missing commission from an approved one.
      if id !in commissions {
        return Err(ErrNoRows);
      }
      r := Err(ErrAlreadyApproved);
    }
  }

  // ---------------------------------------------------------------------------
  // Many calls
  // ---------------------------------------------------------------------------

  datatype Call =
    | PayCall(id: string, now: int)
    | ApproveCall(id: string, approverId: string, now: int)

  datatype Tables = Tables(receivables: ReceivableTable, commissions: CommissionTable)

  /** One call and whether it succeeded. */
  function Apply(db: Tables, c: Call): (Tables, Outcome) {
    match c
    case PayCall(id, now) =>
      var s := MarkAsPaidStep(db.receivables, id, now);
      (db.(receivables := s.table), s.outcome)
    case ApproveCall(id, approver, now) =>
      var s := ApproveCommissionStep(db.commissions, id, approver, now);
      (db.(commissions := s.table), s.outcome)
  }

  /** The tables after a run of calls, in order. */
  function Run(db: Tables, calls: seq<Call>): Tables
    decreases |calls|
  {
    if calls == [] then db else Run(Apply(db, calls[0]).0, calls[1..])
  }

  /** How many calls of the run successfully paid receivable `id`. */
  function PaymentsOf(db: Tables, calls: seq<Call>, id: string): nat
    decreases |calls|
  {
    if calls == [] then 0
    else
      var (db', out) := Apply(db, calls[0]);
      (if calls[0].PayCall? && calls[0].id == id && out.Ok? then 1 else 0)
      + PaymentsOf(db', calls[1..], id)
  }

  /** Receivable `id` can still be paid: it is not known yet, or it is open. */
  predicate Payable(r: ReceivableTable, id: string) {
    id !in r || r[id].status == Open
  }

  /**
   * A receivable is paid at most once across any run of calls, and not at all once it has left
   * "open"; no call brings it back to "open" (no call ever adds or reopens a row).
   */
  lemma {:induction false} PaidAtMostOnce(db: Tables, calls: seq<Call>, id: string)
    ensures PaymentsOf(db, calls, id) <= (if Payable(db.receivables, id) then 1 else 0)
    ensures !Payable(db.receivables, id) ==> !Payable(Run(db, calls).receivables, id)
    ensures PaymentsOf(db, calls, id) == 1 ==> !Payable(Run(db, calls).receivables, id)
    decreases |calls|
  {
    if calls != [] {
      var (db', out) := Apply(db, calls[0]);
      PaidAtMostOnce(db', calls[1..], id);
      if calls[0].PayCall? && calls[0].id == id && out.Ok? {
        assert db'.receivables[id].status == Paid;
      }
    }
  }

  /**
   * Approval is permanent: once commission `id` is approved, every later run keeps it approved
   * with the same approver and approval time.
   */
  lemma {:induction false} ApprovalIsFinal(db: Tables, calls: seq<Call>, id: string)
    requires id in db.commissions && db.commissions[id].approved
    ensures id in Run(db, calls).commissions
    ensures Run(db, calls).commissions[id] == db.commissions[id]
    decreases |calls|
  {
    if calls != [] {
      var db' := Apply(db, calls[0]).0;
      assert db'.commissions[id] == db.commissions[id];
      ApprovalIsFinal(db', calls[1..], id);
    }
  }
}
