/**
 * The audit recorder of backend/internal/audit/middleware.go. For POST, PUT and DELETE it
 * copies the request body, replays it to the next handler, records the status the handler
 * writes, and, when that status is a success, appends one audit log derived from the request.
 *
 * The derivations (action, entity, client IP, diff) are functions; the recorder, the request
 * body reader, the underlying response writer and the log repository are objects.
 */
module AuditMiddleware {
  import opened Wrappers
  import opened Http
  import Auth

  newtype Byte = b: int | 0 <= b < 256

  /** What the geo service reports for an IP (the zero value when the lookup fails). */
  datatype GeoInfo = GeoInfo(country: string, city: string, lat: real, lon: real)

  /** One row of audit_logs. `diff` is None where the Go code leaves the raw message nil. */
  datatype AuditLog = AuditLog(
    id: string,
    userId: string,
    entityName: string,
    entityId: string,
    action: string,
    diff: Option<seq<Byte>>,
    ipAddress: string,
    userAgent: string,
    geoInfo: GeoInfo,
    createdAt: int)

  /** A request body as a reader: the bytes not yet read. */
  class Body {
    var unread: seq<Byte>

    constructor (data: seq<Byte>)
      ensures unread == data
    {
      unread := data;
    }

    /** `io.ReadAll`: everything left, after which the reader is exhausted. */
    method ReadAll() returns (data: seq<Byte>)
      modifies this
      ensures data == old(unread) && unread == []
    {
      data := unread;
      unread := [];
    }
  }

  /**
   * The parts of `*http.Request` the recorder looks at. `routeId` is what `chi.URLParam(r, "id")`
   * returns ("" on a route without an id parameter); `ctx` is the request context.
   */
  datatype Request = Request(
    verb: string,
    path: string,
    headers: map<string, string>,
    remoteAddr: string,
    routeId: string,
    ctx: Auth.AuthContext,
    body: Option<Body>)

  // ---------------------------------------------------------------------------
  // Derivations
  // ---------------------------------------------------------------------------

  predicate Audited(verb: string) {
    verb == "POST" || verb == "PUT" || verb == "DELETE"
  }

  /** The HTTP method an action is logged for; the inverse of ActionOf. */
  function MethodOf(action: string): string {
    if action == "insert" then "POST"
    else if action == "update" then "PUT"
    else if action == "delete" then "DELETE"
    else ""
  }

  /** `actionMap[r.Method]`: POST insert, PUT update, DELETE delete, "" for any other method. */
  function ActionOf(verb: string): (action: string)
    ensures action != "" <==> Audited(verb)
    ensures Audited(verb) ==> MethodOf(action) == verb
    ensures action in {"", "insert", "update", "delete"}
  {
    if verb == "POST" then "insert"
    else if verb == "PUT" then "update"
    else if verb == "DELETE" then "delete"
    else ""
  }

  /**
   * `strings.Split(s, sep)[0]`: the longest prefix of `s` without `sep`. It ends where `s` ends
   * or just before the first `sep`.
   */
  function PrefixBefore(s: string, sep: char): (p: string)
    ensures |p| <= |s| && p == s[..|p|]
    ensures sep !in p
    ensures |p| < |s| ==> s[|p|] == sep
  {
    if s == [] || s[0] == sep then [] else [s[0]] + PrefixBefore(s[1..], sep)
  }

  /** Whatever precedes the first separator is the first field. */
  lemma {:induction false} PrefixBeforeField(field: string, sep: char, rest: string)
    requires sep !in field
    ensures PrefixBefore(field, sep) == field
    ensures PrefixBefore(field + [sep] + rest, sep) == field
  {
    if field != [] {
      assert (field + [sep] + rest)[1..] == field[1..] + [sep] + rest;
      PrefixBeforeField(field[1..], sep, rest);
    }
  }

  /** `strings.TrimPrefix(path, "/")`: at most one leading slash goes. */
  function TrimSlash(path: string): (p: string)
    ensures |path| > 0 && path[0] == '/' ==> p == path[1..]
    ensures !(|path| > 0 && path[0] == '/') ==> p == path
  {
    if |path| > 0 && path[0] == '/' then path[1..] else path
  }

  /**
   * The entity name: the request's X-Entity header when it is not empty, otherwise the first
   * "/"-separated segment of the path.
   */
  function EntityName(headers: map<string, string>, path: string): (entity: string)
    ensures Header(headers, EntityHeader) != "" ==> entity == Header(headers, EntityHeader)
    ensures Header(headers, EntityHeader) == "" ==> '/' !in entity && |entity| <= |TrimSlash(path)| && entity == TrimSlash(path)[..|entity|]
    ensures Header(headers, EntityHeader) == "" && |entity| < |TrimSlash(path)| ==> TrimSlash(path)[|entity|] == '/'
  {
    var entity := Header(headers, EntityHeader);
    if entity != "" then entity else PrefixBefore(TrimSlash(path), '/')
  }

  /** Without an X-Entity header, "/leads/42", "/leads" and "leads/42" are logged under "leads". */
  lemma EntityIsFirstSegment(headers: map<string, string>, segment: string, rest: string)
    requires Header(headers, EntityHeader) == "" && '/' !in segment
    ensures EntityName(headers, "/" + segment + "/" + rest) == segment
    ensures EntityName(headers, "/" + segment) == segment
    ensures segment != "" ==> EntityName(headers, segment + "/" + rest) == segment
  {
    assert TrimSlash("/" + segment + "/" + rest) == segment + "/" + rest;
    assert TrimSlash("/" + segment) == segment;
    PrefixBeforeField(segment, '/', rest);
    assert segment + "/" + rest == segment + ['/'] + rest;
    if segment != "" {
      assert segment[0] in segment;
      assert TrimSlash(segment + "/" + rest) == segment + "/" + rest;
    }
  }

  /** The client IP: X-Forwarded-For when set, otherwise RemoteAddr up to its first ':'. */
  function ClientIP(headers: map<string, string>, remoteAddr: string): (ip: string)
    ensures Header(headers, "X-Forwarded-For") != "" ==> ip == Header(headers, "X-Forwarded-For")
    ensures Header(headers, "X-Forwarded-For") == "" ==> ':' !in ip && |ip| <= |remoteAddr| && ip == remoteAddr[..|ip|]
    ensures Header(headers, "X-Forwarded-For") == "" && |ip| < |remoteAddr| ==> remoteAddr[|ip|] == ':'
  {
    var forwarded := Header(headers, "X-Forwarded-For");
    if forwarded != "" then forwarded else PrefixBefore(remoteAddr, ':')
  }

  /**
   * "host:port" gives the host. An IPv6 address such as "[::1]:8080" is cut at its first ':',
   * leaving "[".
   */
  lemma ClientIPIsHost(headers: map<string, string>, host: string, port: string)
    requires Header(headers, "X-Forwarded-For") == "" && ':' !in host
    ensures ClientIP(headers, host + ":" + port) == host
    ensures ClientIP(headers, "[::1]:8080") == "["
  {
    PrefixBeforeField(host, ':', port);
    assert host + ":" + port == host + [':'] + port;
    PrefixBeforeField("[", ':', ":1]:8080");
    assert "[::1]:8080" == "[" + [':'] + ":1]:8080";
  }

  /** The diff: the raw body for an update with a non-empty body, otherwise nothing. */
  function Diff(action: string, body: seq<Byte>): (d: Option<seq<Byte>>)
    ensures d.Some? <==> action == "update" && |body| > 0
    ensures d.Some? ==> d.value == body
  {
    if action == "update" && |body| > 0 then Some(body) else None
  }

  /** The status the recorder holds after a run of WriteHeader calls: 200, or the last code. */
  function LastStatus(codes: seq<int>): int {
    if codes == [] then OK else codes[|codes| - 1]
  }

  /**
   * The log the recorder writes for a request whose body was `body` and whose handler left
   * `status` in the recorder; None when nothing is logged.
   */
  function AuditEntry(req: Request, body: seq<Byte>, status: int, lookup: string -> GeoInfo,
                      logId: string, now: int): (e: Option<AuditLog>)
    ensures e.Some? <==> Audited(req.verb) && IsSuccess(status)
    ensures e.Some? ==>
      && MethodOf(e.value.action) == req.verb
      && e.value.entityId == req.routeId
      && e.value.userId == Auth.UserIdOf(req.ctx)
      && e.value.entityName == EntityName(req.headers, req.path)
      && e.value.ipAddress == ClientIP(req.headers, req.remoteAddr)
      && e.value.userAgent == Header(req.headers, "User-Agent")
      && e.value.geoInfo == lookup(e.value.ipAddress)
      && e.value.id == logId && e.value.createdAt == now
      && (e.value.diff.Some? ==> req.verb == "PUT" && e.value.diff.value == body)
      && (req.verb == "PUT" && |body| > 0 ==> e.value.diff == Some(body))
      && e.value.diff == Diff(e.value.action, body)
  {
    if !Audited(req.verb) || !IsSuccess(status) then None
    else
      var action := ActionOf(req.verb);
      var ip := ClientIP(req.headers, req.remoteAddr);
      Some(AuditLog(
        logId,
        Auth.UserIdOf(req.ctx),
        EntityName(req.headers, req.path),
        req.routeId,
        action,
        Diff(action, body),
        ip,
        Header(req.headers, "User-Agent"),
        lookup(ip),
        now))
  }

  // ---------------------------------------------------------------------------
  // The recorder and its collaborators
  // ---------------------------------------------------------------------------

  /** The connection's response writer: every WriteHeader call that reaches it, in order. */
  class Wire {
    var written: seq<int>

    constructor ()
      ensures written == []
    {
      written := [];
    }

    method WriteHeader(code: int)
      modifies this
      ensures written == old(written) + [code]
    {
      written := written + [code];
    }
  }

  /**
   * The status net/http sends for a run of WriteHeader calls: the first one wins and later
   * calls are ignored as superfluous; 200 when the handler never called it.
   */
  function ClientStatus(written: seq<int>): int {
    if written == [] then OK else written[0]
  }

  /** statusRecorder: remembers the code of every WriteHeader call and passes it on. */
  class StatusRecorder {
    const wire: Wire
    var status: int

    constructor (w: Wire)
      ensures wire == w && status == OK
    {
      wire := w;
      status := OK;
    }

    method WriteHeader(code: int)
      modifies this, wire
      ensures status == code
      ensures wire.written == old(wire.written) + [code]
    {
      status := code;
      wire.WriteHeader(code);
    }
  }

  /** The audit_logs repository: the logs it has stored. */
  class AuditSink {
    var logs: seq<AuditLog>

    constructor ()
      ensures logs == []
    {
      logs := [];
    }

    /** `repo.Create`: stores the log when the database accepts it, and reports whether it did. */
    method Create(log: AuditLog, accepts: bool) returns (stored: bool)
      modifies this
      ensures stored == accepts
      ensures logs == old(logs) + (if accepts then [log] else [])
    {
      if accepts {
        logs := logs + [log];
      }
      stored := accepts;
    }
  }

  /** The log a sink gains from one request. */
  function Appended(e: Option<AuditLog>, accepts: bool): seq<AuditLog> {
    if e.Some? && accepts then [e.value] else []
  }

  /**
   * One request through the recorder. The next handler is modelled by the WriteHeader codes it
   * issues, as a function of the body bytes it reads; the geo service by a lookup function. It
   * returns the bytes the next handler read.
   */
  method ServeAudit(req: Request, next: seq<Byte> -> seq<int>, lookup: string -> GeoInfo,
                    logId: string, now: int, sinkAccepts: bool, wire: Wire, sink: AuditSink)
    returns (seen: seq<Byte>)
    modifies wire, sink, if req.body.Some? then {req.body.value} else {}
    ensures seen == (if req.body.Some? then old(req.body.value.unread) else [])
    ensures wire.written == old(wire.written) + next(seen)
    ensures sink.logs == old(sink.logs) +
      Appended(AuditEntry(req, seen, LastStatus(next(seen)), lookup, logId, now), sinkAccepts)
  {
    if !Audited(req.verb) {
      // next.ServeHTTP(w, r): the handler reads the original body and writes to w itself
      seen := [];
      if req.body.Some? {
        seen := req.body.value.ReadAll();
      }
      var codes := next(seen);
      var i := 0;
      while i < |codes|
        invariant 0 <= i <= |codes|
        invariant wire.written == old(wire.written) + codes[..i]
        invariant sink.logs == old(sink.logs)
      {
        wire.WriteHeader(codes[i]);
        i := i + 1;
      }
      return;
    }
    var bodyCopy: seq<Byte> := [];
    var forwarded := req;
    if req.body.Some? {
      bodyCopy := req.body.value.ReadAll();
      var replay := new Body(bodyCopy);
      forwarded := req.(body := Some(replay));
    }
    var sr := new StatusRecorder(wire);
    // next.ServeHTTP(sr, r) on the replayed body
    seen := [];
    if forwarded.body.Some? {
      seen := forwarded.body.value.ReadAll();
    }
    assert seen == bodyCopy;
    var codes := next(seen);
    var i := 0;
    while i < |codes|
      invariant 0 <= i <= |codes|
      invariant sr.wire == wire
      invariant wire.written == old(wire.written) + codes[..i]
      invariant sr.status == LastStatus(codes[..i])
      invariant sink.logs == old(sink.logs)
    {
      sr.WriteHeader(codes[i]);
      i := i + 1;
    }
    assert codes[..i] == codes;
    if sr.status < 200 || sr.status >= 300 {
      return;
    }
    var action := ActionOf(req.verb);
    var ip := ClientIP(req.headers, req.remoteAddr);
    var log := AuditLog(
      logId,
      Auth.UserIdOf(req.ctx),
      EntityName(req.headers, req.path),
      req.routeId,
      action,
      Diff(action, bodyCopy),
      ip,
      Header(req.headers, "User-Agent"),
      lookup(ip),
      now);
    var _ := sink.Create(log, sinkAccepts);
  }

  /**
   * The recorder decides on the last code written while the client gets the first: a handler
   * that writes 500 and then 200 answers 500 yet is logged as a success.
   */
  lemma LastWriteDecidesLog(req: Request, body: seq<Byte>, lookup: string -> GeoInfo, logId: string, now: int)
    requires Audited(req.verb)
    ensures ClientStatus([InternalServerError, OK]) == InternalServerError
    ensures AuditEntry(req, body, LastStatus([InternalServerError, OK]), lookup, logId, now).Some?
    ensures AuditEntry(req, body, LastStatus([OK, InternalServerError]), lookup, logId, now).None?
  {
  }

  /** Reads are never logged, whatever they answer; a handler that writes no code is logged. */
  lemma OnlyWritesLogged(req: Request, body: seq<Byte>, codes: seq<int>, lookup: string -> GeoInfo,
                         logId: string, now: int)
    ensures !Audited(req.verb) ==> AuditEntry(req, body, LastStatus(codes), lookup, logId, now).None?
    ensures Audited(req.verb) && codes == [] ==> AuditEntry(req, body, LastStatus(codes), lookup, logId, now).Some?
  {
  }
}
