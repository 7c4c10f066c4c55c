/**
 * The leads table and its repository (backend/internal/lead/postgres_repository.go).
 * The table is a map from id to row; a soft-deleted row keeps its place with a deletion time.
 * Each repository method is proved equal to a step function over the table value, and the
 * multi-call properties of the pipeline are lemmas over runs of those step functions.
 */
module LeadRepository {
  import opened Wrappers
  import opened Store

  datatype Lead = Lead(
    id: string,
    customerId: string,
    promoterId: Option<string>,
    serviceId: string,
    status: string,
    notes: string,
    createdAt: int,
    updatedAt: int,
    deletedAt: Option<int>)

  type LeadTable = map<string, Lead>

  /** Every row is stored under its own id. */
  ghost predicate Keyed(t: LeadTable) {
    forall k :: k in t ==> t[k].id == k
  }

  /** `WHERE id=$1 AND deleted_at IS NULL` finds the row. */
  predicate IsLive(t: LeadTable, id: string) {
    id in t && t[id].deletedAt.None?
  }

  // ---------------------------------------------------------------------------
  // The pipeline
  // ---------------------------------------------------------------------------

  /** The sales pipeline, in order. */
  const Pipeline: seq<string> := ["lead", "qualified", "proposal", "contract"]

  /** `allowedTransitions[current]`: the Go map's zero value "" when there is no entry. */
  function Successor(status: string): (next: string)
    ensures forall i :: 0 <= i < |Pipeline| - 1 && Pipeline[i] == status ==> next == Pipeline[i + 1]
    ensures status !in Pipeline[..|Pipeline| - 1] ==> next == ""
  {
    assert Pipeline[..|Pipeline| - 1] == ["lead", "qualified", "proposal"];
    if status == "lead" then "qualified"
    else if status == "qualified" then "proposal"
    else if status == "proposal" then "contract"
    else ""
  }

  /** How many transitions a lead in this status can still make: 0 for contract and for unknown statuses. */
  function Remaining(status: string): nat {
    if status in Pipeline then
      |Pipeline| - 1 - (if status == "lead" then 0 else if status == "qualified" then 1
                        else if status == "proposal" then 2 else 3)
    else 0
  }

  /** A successor exists exactly while transitions remain, and each one uses one of them up. */
  lemma SuccessorUsesOneStep(status: string)
    ensures Successor(status) == "" <==> Remaining(status) == 0
    ensures Successor(status) != "" ==> Remaining(Successor(status)) == Remaining(status) - 1
    ensures Remaining(status) <= |Pipeline| - 1
  {
  }

  // ---------------------------------------------------------------------------
  // One call: step functions
  // ---------------------------------------------------------------------------

  datatype Step = Step(outcome: Outcome, table: LeadTable)

  /** The row INSERT writes: the caller's columns, the fresh id, and the column defaults. */
  function Inserted(l: Lead, id: string, now: int): Lead {
    l.(id := id, createdAt := now, updatedAt := now, deletedAt := None)
  }

  /**
   * Create: the caller's id is replaced by a fresh one and the row is inserted; a repeated id
   * is refused by the primary key and changes nothing.
   */
  function CreateStep(t: LeadTable, l: Lead, freshId: string, now: int): (s: Step)
    ensures s.outcome.Ok? <==> freshId !in t
    ensures s.outcome.Ok? ==> s.table == t[freshId := Inserted(l, freshId, now)]
    ensures s.outcome.Ok? ==> s.table[freshId].status == l.status && IsLive(s.table, freshId)
    ensures !s.outcome.Ok? ==> s.table == t
  {
    if freshId in t then Step(Err(DbFailure(DuplicateKey)), t)
    else Step(Ok, t[freshId := Inserted(l, freshId, now)])
  }

  /**
   * UpdateStatus: read the live row's status (lines 56-62), compare the request with its
   * successor (63-65), then write the status and updated_at (66-74).
   */
  function UpdateStatusStep(t: LeadTable, id: string, newStatus: string, now: int): (s: Step)
    ensures s.outcome == Err(ErrNoRows) <==> !IsLive(t, id)
    ensures s.outcome == Err(ErrInvalidTransition) <==> IsLive(t, id) && Successor(t[id].status) != newStatus
    ensures s.outcome.Ok? <==> IsLive(t, id) && Successor(t[id].status) == newStatus
    ensures s.outcome.Ok? ==> s.table.Keys == t.Keys && s.table[id].status == newStatus
    ensures s.outcome.Ok? ==> s.table[id] == t[id].(status := newStatus, updatedAt := now)
    ensures forall k :: k in t && k != id ==> k in s.table && s.table[k] == t[k]
    ensures !s.outcome.Ok? ==> s.table == t
  {
    if !IsLive(t, id) then Step(Err(ErrNoRows), t)
    else
      var current := t[id].status;
      if Successor(current) != newStatus then Step(Err(ErrInvalidTransition), t)
      else Step(Ok, t[id := t[id].(status := newStatus, updatedAt := now)])
  }

  /**
   * The repository on its own accepts an empty target wherever the stored status has no
   * successor: a contract lead "moves" to "" and can do so again and again.
   */
  lemma EmptyTargetPassesRepositoryGuard(t: LeadTable, id: string, now1: int, now2: int)
    requires IsLive(t, id) && t[id].status == "contract"
    ensures UpdateStatusStep(t, id, "", now1).outcome.Ok?
    ensures UpdateStatusStep(t, id, "", now1).table[id].status == ""
    ensures UpdateStatusStep(UpdateStatusStep(t, id, "", now1).table, id, "", now2).outcome.Ok?
  {
  }

  /** Update: only promoter_id, service_id and notes (and updated_at) of a live lead change. */
  function UpdateStep(t: LeadTable, l: Lead, now: int): (s: Step)
    ensures s.outcome.Ok? <==> IsLive(t, l.id)
    ensures !s.outcome.Ok? ==> s.outcome == Err(ErrNoRows) && s.table == t
    ensures s.outcome.Ok? ==>
      s.table == t[l.id := t[l.id].(promoterId := l.promoterId, serviceId := l.serviceId,
                                    notes := l.notes, updatedAt := now)]
    ensures s.outcome.Ok? ==>
      && s.table.Keys == t.Keys
      && s.table[l.id].id == t[l.id].id
      && s.table[l.id].status == t[l.id].status
      && s.table[l.id].customerId == t[l.id].customerId
      && s.table[l.id].createdAt == t[l.id].createdAt
      && s.table[l.id].deletedAt == t[l.id].deletedAt
    ensures forall k :: k in t && k != l.id ==> k in s.table && s.table[k] == t[k]
  {
    if !IsLive(t, l.id) then Step(Err(ErrNoRows), t)
    else
      Step(Ok, t[l.id := t[l.id].(promoterId := l.promoterId, serviceId := l.serviceId,
                                  notes := l.notes, updatedAt := now)])
  }

  /** SoftDelete: a live lead gets its deletion time; a missing or deleted one is ErrNoRows. */
  function SoftDeleteStep(t: LeadTable, id: string, now: int): (s: Step)
    ensures s.outcome.Ok? <==> IsLive(t, id)
    ensures !s.outcome.Ok? ==> s.outcome == Err(ErrNoRows) && s.table == t
    ensures s.outcome.Ok? ==> s.table == t[id := t[id].(deletedAt := Some(now))] && !IsLive(s.table, id)
  {
    if !IsLive(t, id) then Step(Err(ErrNoRows), t)
    else Step(Ok, t[id := t[id].(deletedAt := Some(now))])
  }

  /** Deleting twice: the second call finds nothing. */
  lemma SecondSoftDeleteFails(t: LeadTable, id: string, now1: int, now2: int)
    requires SoftDeleteStep(t, id, now1).outcome.Ok?
    ensures SoftDeleteStep(SoftDeleteStep(t, id, now1).table, id, now2) ==
            Step(Err(ErrNoRows), SoftDeleteStep(t, id, now1).table)
  {
  }

  /**
   * List: the live leads, and with a non-empty filter only those whose status equals it.
   * The SQL has no ORDER BY, so the result is a set.
   */
  function ListLeads(t: LeadTable, status: string): (r: set<Lead>)
    requires Keyed(t)
    ensures forall l :: l in r ==> l.id in t && t[l.id] == l && l.deletedAt.None?
    ensures forall l :: l in r && status != "" ==> l.status == status
    ensures forall id :: IsLive(t, id) && (status == "" || t[id].status == status) ==> t[id] in r
  {
    set id | id in t && t[id].deletedAt.None? && (status == "" || t[id].status == status) :: t[id]
  }

  /** A filtered listing is the unfiltered listing narrowed to the status. */
  lemma ListFilterNarrows(t: LeadTable, status: string)
    requires Keyed(t) && status != ""
    ensures ListLeads(t, status) == set l | l in ListLeads(t, "") && l.status == status
  {
  }

  // ---------------------------------------------------------------------------
  // The repository object
  // ---------------------------------------------------------------------------

  class LeadRepo {
    var leads: LeadTable

    ghost predicate Valid()
      reads this
    {
      Keyed(leads)
    }

    constructor (initial: LeadTable)
      requires Keyed(initial)
      ensures Valid() && leads == initial
    {
      leads := initial;
    }

    /** Create overwrites the caller's ID with the fresh one, then inserts. */
    method Create(l: Lead, freshId: string, now: int) returns (withId: Lead, r: Outcome)
      requires Valid()
      modifies this
      ensures Valid()
      ensures withId == l.(id := freshId)
      ensures Step(r, leads) == CreateStep(old(leads), l, freshId, now)
    {
      withId := l.(id := freshId);
      if freshId in leads {
        r := Err(DbFailure(DuplicateKey));
        return;
      }
      leads := leads[freshId := Inserted(withId, freshId, now)];
      r := Ok;
    }

    method UpdateStatus(id: string, newStatus: string, now: int) returns (r: Outcome)
      requires Valid()
      modifies this
      ensures Valid()
      ensures Step(r, leads) == UpdateStatusStep(old(leads), id, newStatus, now)
    {
      // Read the status of the live row.
      if id !in leads || leads[id].deletedAt.Some? {
        return Err(ErrNoRows);
      }
      var current := leads[id].status;
      if Successor(current) != newStatus {
        return Err(ErrInvalidTransition);
      }
      // Write the new status and the update time, again only on the live row.
      leads := leads[id := leads[id].(status := newStatus, updatedAt := now)];
      r := Ok;
    }

    method Update(l: Lead, now: int) returns (r: Outcome)
      requires Valid()
      modifies this
      ensures Valid()
      ensures Step(r, leads) == UpdateStep(old(leads), l, now)
    {
      if l.id !in leads || leads[l.id].deletedAt.Some? {
        return Err(ErrNoRows);
      }
      var row := leads[l.id];
      leads := leads[l.id := row.(promoterId := l.promoterId, serviceId := l.serviceId,
                                  notes := l.notes, updatedAt := now)];
      r := Ok;
    }

    method SoftDelete(id: string, now: int) returns (r: Outcome)
      requires Valid()
      modifies this
      ensures Valid()
      ensures Step(r, leads) == SoftDeleteStep(old(leads), id, now)
    {
      if id !in leads || leads[id].deletedAt.Some? {
        return Err(ErrNoRows);
      }
      leads := leads[id := leads[id].(deletedAt := Some(now))];
      r := Ok;
    }
  }

  // ---------------------------------------------------------------------------
  // Many calls
  // ---------------------------------------------------------------------------

  /** One repository call, with the fresh id and the clock reading it is given. */
  datatype Call =
    | CreateCall(lead: Lead, freshId: string, now: int)
    | StatusCall(id: string, newStatus: string, now: int)
    | UpdateCall(lead: Lead, now: int)
    | DeleteCall(id: string, now: int)

  function Apply(t: LeadTable, c: Call): Step {
    match c
    case CreateCall(l, freshId, now) => CreateStep(t, l, freshId, now)
    case StatusCall(id, s, now) => UpdateStatusStep(t, id, s, now)
    case UpdateCall(l, now) => UpdateStep(t, l, now)
    case DeleteCall(id, now) => SoftDeleteStep(t, id, now)
  }

  /** The table after a run of calls, in order. */
  function Run(t: LeadTable, calls: seq<Call>): LeadTable
    decreases |calls|
  {
    if calls == [] then t else Run(Apply(t, calls[0]).table, calls[1..])
  }

  /** A call that moves lead `id` to a non-empty status and succeeds. */
  predicate Advances(c: Call, id: string, s: Step) {
    c.StatusCall? && c.id == id && c.newStatus != "" && s.outcome.Ok?
  }

  /** How many calls of the run moved lead `id` to a non-empty status. */
  function TransitionsOf(t: LeadTable, calls: seq<Call>, id: string): nat
    decreases |calls|
  {
    if calls == [] then 0
    else
      var s := Apply(t, calls[0]);
      (if Advances(calls[0], id, s) then 1 else 0)
      + TransitionsOf(s.table, calls[1..], id)
  }

  /** Transitions still open to lead `id`: a lead not yet created can make all three. */
  function Budget(t: LeadTable, id: string): nat {
    if id in t then Remaining(t[id].status) else |Pipeline| - 1
  }

  /** One call never raises the budget, and a successful transition of `id` spends exactly one. */
  lemma {:induction false} ApplySpendsBudget(t: LeadTable, c: Call, id: string)
    ensures var s := Apply(t, c);
      Budget(s.table, id) + (if Advances(c, id, s) then 1 else 0)
        <= Budget(t, id)
    ensures id in t ==> id in Apply(t, c).table
  {
    var s := Apply(t, c);
    match c
    case CreateCall(l, freshId, now) =>
      if s.outcome.Ok? && freshId == id {
        assert id !in t;
        SuccessorUsesOneStep(l.status);
      }
    case StatusCall(i, ns, now) =>
      if s.outcome.Ok? && i == id {
        SuccessorUsesOneStep(t[id].status);
      }
    case UpdateCall(l, now) =>
    case DeleteCall(i, now) =>
  }

  /**
   * Across any sequence of calls a lead only moves forward: its successful transitions to a
   * non-empty status never exceed what its status left open, so there are at most three of
   * them. Transitions to "" are not counted; the repository lets a lead without a successor
   * make any number of them (EmptyTargetPassesRepositoryGuard).
   */
  lemma {:induction false} TransitionsBounded(t: LeadTable, calls: seq<Call>, id: string)
    ensures TransitionsOf(t, calls, id) + Budget(Run(t, calls), id) <= Budget(t, id)
    ensures TransitionsOf(t, calls, id) <= |Pipeline| - 1
    decreases |calls|
  {
    if calls != [] {
      ApplySpendsBudget(t, calls[0], id);
      TransitionsBounded(Apply(t, calls[0]).table, calls[1..], id);
    }
    if id in t {
      SuccessorUsesOneStep(t[id].status);
    }
  }

  /** A lead that exists keeps existing and its remaining budget never grows. */
  lemma {:induction false} StatusNeverMovesBack(t: LeadTable, calls: seq<Call>, id: string)
    requires id in t
    ensures id in Run(t, calls)
    ensures Remaining(Run(t, calls)[id].status) <= Remaining(t[id].status)
    decreases |calls|
  {
    if calls != [] {
      ApplySpendsBudget(t, calls[0], id);
      StatusNeverMovesBack(Apply(t, calls[0]).table, calls[1..], id);
    }
  }
}
