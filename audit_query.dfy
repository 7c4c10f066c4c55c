/**
 * The audit-log query of backend/internal/auditquery/postgres_repository.go. The filter's
 * empty strings become SQL NULL and match every row; a zero start or end becomes the Unix
 * epoch or the current time; a zero limit becomes 100. The query keeps the rows inside the
 * inclusive window that match every bound filter, newest first, at most `limit` of them.
 */
module AuditQuery {
  import opened Wrappers
  import opened Store
  import Clock
  import opened AuditMiddleware

  /** AuditFilter; instants are seconds, Clock.ZeroTime being Go's zero time. */
  datatype AuditFilter = AuditFilter(
    entityName: string, userId: string, action: string,
    startDate: int, endDate: int, limit: int)

  /** `toNull`: the empty string is sent as NULL, anything else as itself. */
  function ToNull(s: string): (param: Option<string>)
    ensures param.None? <==> s == ""
    ensures param.Some? ==> param.value == s
  {
    if s == "" then None else Some(s)
  }

  /** `column=$n OR $n IS NULL`. */
  predicate MatchesParam(column: string, param: Option<string>) {
    param.None? || column == param.value
  }

  /** A filter given as "" excludes nothing; a non-empty one keeps exactly the equal column values. */
  lemma ToNullMatching(column: string, filter: string)
    ensures MatchesParam(column, ToNull(""))
    ensures filter != "" ==> (MatchesParam(column, ToNull(filter)) <==> column == filter)
  {
  }

  /** The six statement parameters. */
  datatype Params = Params(
    entity: Option<string>, user: Option<string>, action: Option<string>,
    start: int, end: int, limit: int)

  /** Lines 38-51: the parameters bound for a filter, with the defaults filled in. */
  function Bind(f: AuditFilter, now: int): (p: Params)
    ensures p.entity == ToNull(f.entityName) && p.user == ToNull(f.userId) && p.action == ToNull(f.action)
    ensures p.start != Clock.ZeroTime && p.limit != 0
    ensures now != Clock.ZeroTime ==> p.end != Clock.ZeroTime
    ensures f.startDate != Clock.ZeroTime ==> p.start == f.startDate
    ensures f.startDate == Clock.ZeroTime ==> p.start == Clock.UnixEpoch
    ensures f.endDate != Clock.ZeroTime ==> p.end == f.endDate
    ensures f.endDate == Clock.ZeroTime ==> p.end == now
    ensures f.limit != 0 ==> p.limit == f.limit
    ensures f.limit == 0 ==> p.limit == 100
  {
    var start := if f.startDate == Clock.ZeroTime then Clock.UnixEpoch else f.startDate;
    var end := if f.endDate == Clock.ZeroTime then now else f.endDate;
    var limit := if f.limit == 0 then 100 else f.limit;
    Params(ToNull(f.entityName), ToNull(f.userId), ToNull(f.action), start, end, limit)
  }

  /** The WHERE clause: the three column filters and `created_at BETWEEN start AND end`. */
  predicate Selected(l: AuditLog, p: Params) {
    && MatchesParam(l.entityName, p.entity)
    && MatchesParam(l.userId, p.user)
    && MatchesParam(l.action, p.action)
    && p.start <= l.createdAt <= p.end
  }

  /** The rows the WHERE clause keeps, in table order. */
  function Where(logs: seq<AuditLog>, p: Params): (kept: seq<AuditLog>)
    ensures forall l :: l in kept <==> l in logs && Selected(l, p)
    ensures multiset(kept) <= multiset(logs)
    decreases |logs|
  {
    if logs == [] then []
    else
      var rest := Where(logs[1..], p);
      assert logs == [logs[0]] + logs[1..];
      if Selected(logs[0], p) then [logs[0]] + rest else rest
  }

  /** Newest first. */
  predicate Descending(s: seq<AuditLog>) {
    forall i, j :: 0 <= i < j < |s| ==> s[i].createdAt >= s[j].createdAt
  }

  /** Places `x` into a newest-first sequence, after the rows at least as new. */
  function Insert(x: AuditLog, s: seq<AuditLog>): (r: seq<AuditLog>)
    requires Descending(s)
    ensures Descending(r)
    ensures multiset(r) == multiset(s) + multiset{x}
    decreases |s|
  {
    if s == [] then [x]
    else if s[0].createdAt >= x.createdAt then
      var tail := Insert(x, s[1..]);
      assert s == [s[0]] + s[1..];
      forall y | y in tail
        ensures y.createdAt <= s[0].createdAt
      {
        assert y in multiset(tail);
        if y != x {
          var k :| 0 <= k < |s[1..]| && s[1..][k] == y;
          assert s[k + 1] == y;
        }
      }
      var r := [s[0]] + tail;
      assert forall j :: 0 < j < |r| ==> r[j] in tail;
      r
    else [x] + s
  }

  /** `ORDER BY created_at DESC`: the same rows, newest first. */
  function SortNewestFirst(s: seq<AuditLog>): (r: seq<AuditLog>)
    ensures Descending(r)
    ensures multiset(r) == multiset(s)
    decreases |s|
  {
    if s == [] then []
    else
      assert s == [s[0]] + s[1..];
      Insert(s[0], SortNewestFirst(s[1..]))
  }

  /**
   * `List`: Postgres refuses a negative LIMIT; otherwise the selected rows, newest first, cut
   * to the limit.
   */
  function Query(logs: seq<AuditLog>, f: AuditFilter, now: int): (r: Result<seq<AuditLog>, RepoError>)
    ensures r.Failure? <==> f.limit < 0
    ensures r.Success? ==>
      var p := Bind(f, now);
      && |r.value| <= p.limit
      && Descending(r.value)
      && multiset(r.value) <= multiset(logs)
      && (forall l :: l in r.value ==> Selected(l, p))
  {
    var p := Bind(f, now);
    if p.limit < 0 then Failure(DbFailure("pq: LIMIT must not be negative"))
    else
      var sorted := SortNewestFirst(Where(logs, p));
      var n := if |sorted| < p.limit then |sorted| else p.limit;
      NewestPrefix(Where(logs, p), sorted, n);
      Success(sorted[..n])
  }

  /** A prefix of the sorted selection is sorted, and holds selected rows of the table only. */
  lemma NewestPrefix(kept: seq<AuditLog>, sorted: seq<AuditLog>, n: nat)
    requires Descending(sorted) && multiset(sorted) == multiset(kept) && n <= |sorted|
    ensures Descending(sorted[..n])
    ensures multiset(sorted[..n]) <= multiset(kept)
    ensures forall l :: l in sorted[..n] ==> l in kept
  {
    assert sorted == sorted[..n] + sorted[n..];
    forall l | l in sorted[..n]
      ensures l in kept
    {
      assert l in multiset(sorted[..n]);
      assert l in multiset(kept);
    }
  }

  /**
   * Every returned row equals each non-empty filter, and lies inside the window: from the
   * start (or the epoch) up to the end (or now), both ends included.
   */
  lemma {:induction false} RowsMatchFilter(logs: seq<AuditLog>, f: AuditFilter, now: int)
    requires Query(logs, f, now).Success?
    ensures forall l :: l in Query(logs, f, now).value ==>
      && (f.entityName != "" ==> l.entityName == f.entityName)
      && (f.userId != "" ==> l.userId == f.userId)
      && (f.action != "" ==> l.action == f.action)
      && (if f.startDate == Clock.ZeroTime then Clock.UnixEpoch else f.startDate) <= l.createdAt
      && l.createdAt <= (if f.endDate == Clock.ZeroTime then now else f.endDate)
    ensures f.limit == 0 ==> |Query(logs, f, now).value| <= 100
  {
  }

  /**
   * Nothing that qualifies is dropped except for the limit: a short answer holds every
   * selected row, and a row left out is no newer than any row returned.
   */
  lemma QueryComplete(logs: seq<AuditLog>, f: AuditFilter, now: int)
    requires f.limit >= 0
    ensures var r := Query(logs, f, now).value;
      var p := Bind(f, now);
      && (|r| < p.limit ==> forall l :: l in logs && Selected(l, p) ==> l in r)
      && (forall l, x :: l in logs && Selected(l, p) && l !in r && x in r ==> x.createdAt >= l.createdAt)
  {
    var p := Bind(f, now);
    var sorted := SortNewestFirst(Where(logs, p));
    var n := if |sorted| < p.limit then |sorted| else p.limit;
    var r := Query(logs, f, now).value;
    assert r == sorted[..n];
    forall l | l in logs && Selected(l, p)
      ensures l in sorted
    {
      assert l in Where(logs, p);
      assert l in multiset(Where(logs, p));
    }
    forall l, x | l in logs && Selected(l, p) && l !in r && x in r
      ensures x.createdAt >= l.createdAt
    {
      var j :| 0 <= j < |sorted| && sorted[j] == l;
      var i :| 0 <= i < n && r[i] == x;
      assert j >= n;
    }
  }
}
