/**
 * The HTTP handlers of backend/internal/lead/handler.go. Each handler is a straight-line
 * decision from the decoded input and the repository's answer to a response; the repository is
 * a function parameter, consulted only once the input has passed validation.
 */
module LeadHandler {
  import opened Wrappers
  import opened Store
  import opened Http
  import Auth
  import Clock
  import opened LeadRepository

  // ---------------------------------------------------------------------------
  // Routes and their role gates (RegisterRoutes)
  // ---------------------------------------------------------------------------

  datatype Route = GetLeads | PostLead | PutLeadStatus | PutLead | DeleteLead

  /** The RequireRole arguments mounted on a route; None when the route adds no role check. */
  function RouteRoles(route: Route): Option<seq<string>> {
    match route
    case GetLeads => Some(["admin", "promoter"])
    case PutLeadStatus => Some(["finance", "admin"])
    case PostLead => None
    case PutLead => None
    case DeleteLead => None
  }

  /**
   * Whether an (already authenticated) request reaches a lead handler: listing needs admin or
   * promoter, changing the status needs finance or admin, the other routes take any role.
   */
  function Admit(route: Route, ctx: Auth.AuthContext): (g: Auth.Gate)
    ensures g.Forward? ==> g.ctx == ctx
    ensures g.Reject? ==> g.code == Forbidden
    ensures route == GetLeads ==>
      (g.Forward? <==> Auth.RoleOf(ctx) == "admin" || Auth.RoleOf(ctx) == "promoter")
    ensures route == PutLeadStatus ==>
      (g.Forward? <==> Auth.RoleOf(ctx) == "finance" || Auth.RoleOf(ctx) == "admin")
    ensures route in {PostLead, PutLead, DeleteLead} ==> g == Auth.Forward(ctx)
  {
    match RouteRoles(route)
    case None => Auth.Forward(ctx)
    case Some(roles) => Auth.RequireRole(roles, ctx)
  }

  // ---------------------------------------------------------------------------
  // list
  // ---------------------------------------------------------------------------

  datatype ListReply = ListReply(response: Response, body: set<Lead>)

  /** list: the `status` query goes to the repository unchanged; a repository error is 500. */
  function HandleList(status: string, list: string -> Result<set<Lead>, RepoError>): (r: ListReply)
    ensures r.response.code == OK <==> list(status).Success?
    ensures r.response.code != OK ==> r.response == Plain(InternalServerError) && r.body == {}
    ensures list(status).Success? ==> r.body == list(status).value
  {
    match list(status)
    case Failure(_) => ListReply(Plain(InternalServerError), {})
    case Success(leads) => ListReply(Plain(OK), leads)
  }

  // ---------------------------------------------------------------------------
  // create
  // ---------------------------------------------------------------------------

  /** createLeadInput: customer_id and service_id are required. */
  datatype CreateLeadInput = CreateLeadInput(
    customerId: string, serviceId: string, promoterId: Option<string>, notes: string)

  predicate CreateInputValid(input: CreateLeadInput) {
    input.customerId != "" && input.serviceId != ""
  }

  /** The lead the handler builds: its own fresh id, and always the status "lead". */
  function NewLead(input: CreateLeadInput, handlerId: string, now: int): Lead {
    Lead(handlerId, input.customerId, input.promoterId, input.serviceId, "lead", input.notes, now, now, None)
  }

  /** What `repo.Create(ctx, &l)` leaves behind: the lead's ID afterwards, and the error. */
  datatype Assigned = Assigned(id: string, outcome: Outcome)

  datatype CreateReply = CreateReply(response: Response, body: Option<Lead>)

  /**
   * create: 400 on a malformed or incomplete body; otherwise the new lead, whose status is
   * "lead" whatever was sent, is handed to the repository; 500 on its error, else 201 with
   * Location "/leads/<id>" and X-Entity "leads:<id>" naming the id the repository assigned.
   */
  function HandleCreate(body: Decoded<CreateLeadInput>, handlerId: string, now: int,
                        create: Lead -> Assigned): (r: CreateReply)
    ensures !(body.Decoded? && CreateInputValid(body.value)) ==>
      r == CreateReply(Plain(BadRequest), None)
    ensures r.response.code == Created ==>
      && body.Decoded? && CreateInputValid(body.value)
      && var sent := NewLead(body.value, handlerId, now);
      && create(sent).outcome.Ok?
      && r.body == Some(sent.(id := create(sent).id))
      && r.body.value.status == "lead"
      && r.body.value.customerId == body.value.customerId
      && r.body.value.serviceId == body.value.serviceId
      && Header(r.response.headers, LocationHeader) == "/leads/" + create(sent).id
      && Header(r.response.headers, EntityHeader) == "leads:" + create(sent).id
    ensures body.Decoded? && CreateInputValid(body.value) ==>
      (r.response.code == Created <==> create(NewLead(body.value, handlerId, now)).outcome.Ok?)
    ensures body.Decoded? && CreateInputValid(body.value) && create(NewLead(body.value, handlerId, now)).outcome.Err? ==>
      r == CreateReply(Plain(InternalServerError), None)
    ensures r.response.code in {Created, BadRequest, InternalServerError}
  {
    if body.Malformed? || !CreateInputValid(body.value) then CreateReply(Plain(BadRequest), None)
    else
      var l := NewLead(body.value, handlerId, now);
      var result := create(l);
      if result.outcome.Err? then CreateReply(Plain(InternalServerError), None)
      else
        var stored := l.(id := result.id);
        CreateReply(Response(Created, map[LocationHeader := "/leads/" + stored.id,
                                          EntityHeader := "leads:" + stored.id]), Some(stored))
  }

  /** The repository that answers a create call on table `t`: the fresh id replaces the handler's. */
  function CreateOn(t: LeadTable, freshId: string, now: int): Lead -> Assigned {
    l => Assigned(freshId, CreateStep(t, l, freshId, now).outcome)
  }

  /**
   * Create through the repository: a 201 names the repository's fresh id, and the row stored
   * under it is live with status "lead".
   */
  lemma CreateStoresFreshLead(t: LeadTable, body: Decoded<CreateLeadInput>, handlerId: string,
                              freshId: string, now: int)
    requires body.Decoded? && CreateInputValid(body.value) && freshId !in t
    ensures var r := HandleCreate(body, handlerId, now, CreateOn(t, freshId, now));
      && r.response.code == Created
      && Header(r.response.headers, LocationHeader) == "/leads/" + freshId
      && var s := CreateStep(t, NewLead(body.value, handlerId, now), freshId, now);
      && s.outcome.Ok? && IsLive(s.table, freshId) && s.table[freshId].status == "lead"
  {
  }

  // ---------------------------------------------------------------------------
  // updateStatus
  // ---------------------------------------------------------------------------

  datatype StatusInput = StatusInput(status: string)

  /** statusInput's validation: `required,oneof=qualified proposal contract`. */
  predicate InStatusVocabulary(status: string) {
    status == "qualified" || status == "proposal" || status == "contract"
  }

  /** Whether updateStatus gets as far as calling the repository. */
  predicate StatusRequestValid(body: Decoded<StatusInput>) {
    body.Decoded? && InStatusVocabulary(body.value.status)
  }

  /**
   * updateStatus: 400 before the repository on a malformed body or a target outside the
   * vocabulary; then ErrNoRows is 404, an error reading "invalid status transition" is 400,
   * any other error is 500, and success is 204 with X-Entity "leads:<id>".
   */
  function HandleUpdateStatus(id: string, body: Decoded<StatusInput>,
                              updateStatus: (string, string) -> Outcome): (r: Response)
    ensures !StatusRequestValid(body) ==> r == Plain(BadRequest)
    ensures StatusRequestValid(body) ==>
      var out := updateStatus(id, body.value.status);
      && (r.code == NoContent <==> out.Ok?)
      && (r.code == NotFound <==> out == Err(ErrNoRows))
      && (r.code == BadRequest <==>
            out.Err? && out.error != ErrNoRows && Message(out.error) == "invalid status transition")
      && (r.code == InternalServerError <==>
            out.Err? && out.error != ErrNoRows && Message(out.error) != "invalid status transition")
      && (out.Ok? ==> r.headers == map[EntityHeader := "leads:" + id])
  {
    if body.Malformed? || !InStatusVocabulary(body.value.status) then Plain(BadRequest)
    else
      match updateStatus(id, body.value.status)
      case Ok => Response(NoContent, map[EntityHeader := "leads:" + id])
      case Err(e) =>
        if e == ErrNoRows then Plain(NotFound)
        else if Message(e) == "invalid status transition" then Plain(BadRequest)
        else Plain(InternalServerError)
  }

  /** The status route run against table `t`: the response and the table afterwards. */
  function StatusRoute(t: LeadTable, id: string, body: Decoded<StatusInput>, now: int)
    : (r: (Response, LeadTable))
  {
    var response := HandleUpdateStatus(id, body, (i, s) => UpdateStatusStep(t, i, s, now).outcome);
    var table := if StatusRequestValid(body) then UpdateStatusStep(t, id, body.value.status, now).table else t;
    (response, table)
  }

  /**
   * The status route end to end: 204 exactly for the successor of a live lead's status, 404
   * for a missing or deleted lead, 400 otherwise, never 500; only a 204 changes the table, and
   * it uses up one of the lead's remaining transitions.
   */
  lemma StatusRouteOutcomes(t: LeadTable, id: string, body: Decoded<StatusInput>, now: int)
    ensures var (resp, t') := StatusRoute(t, id, body, now);
      && (resp.code == NoContent <==>
            StatusRequestValid(body) && IsLive(t, id) && Successor(t[id].status) == body.value.status)
      && (resp.code == NotFound <==> StatusRequestValid(body) && !IsLive(t, id))
      && resp.code in {NoContent, NotFound, BadRequest}
      && (resp.code != NoContent ==> t' == t)
      && (resp.code == NoContent ==>
            t'[id].status == body.value.status &&
            Remaining(t'[id].status) == Remaining(t[id].status) - 1)
  {
    var (resp, t') := StatusRoute(t, id, body, now);
    if resp.code == NoContent {
      SuccessorUsesOneStep(t[id].status);
    }
  }

  /** Asking for "contract" straight from "lead" is 400 and leaves the lead where it was. */
  lemma SkippingAheadRejected(t: LeadTable, id: string, now: int)
    requires IsLive(t, id) && t[id].status == "lead"
    ensures StatusRoute(t, id, Decoded(StatusInput("contract")), now) == (Plain(BadRequest), t)
    ensures StatusRoute(t, id, Decoded(StatusInput("proposal")), now) == (Plain(BadRequest), t)
    ensures StatusRoute(t, id, Decoded(StatusInput("qualified")), now).0.code == NoContent
  {
  }

  /** Through the route no lead ever leaves the pipeline's vocabulary: the empty target is stopped. */
  lemma StatusRouteKeepsVocabulary(t: LeadTable, id: string, body: Decoded<StatusInput>, now: int)
    requires forall k :: k in t ==> t[k].status in Pipeline
    ensures var t' := StatusRoute(t, id, body, now).1;
      forall k :: k in t' ==> t'[k].status in Pipeline
  {
  }

  /** One PUT /leads/{id}/status request, with the clock reading it is served at. */
  datatype StatusRequest = StatusRequest(id: string, body: Decoded<StatusInput>, now: int)

  /** The table after a run of status requests, in order. */
  function RouteRun(t: LeadTable, reqs: seq<StatusRequest>): LeadTable
    decreases |reqs|
  {
    if reqs == [] then t
    else RouteRun(StatusRoute(t, reqs[0].id, reqs[0].body, reqs[0].now).1, reqs[1..])
  }

  /** How many requests of the run about lead `id` were answered 204. */
  function NoContentCount(t: LeadTable, reqs: seq<StatusRequest>, id: string): nat
    decreases |reqs|
  {
    if reqs == [] then 0
    else
      var r := StatusRoute(t, reqs[0].id, reqs[0].body, reqs[0].now);
      (if reqs[0].id == id && r.0.code == NoContent then 1 else 0)
      + NoContentCount(r.1, reqs[1..], id)
  }

  /** One request: a 204 for `id` spends one of its transitions, and nothing raises its budget. */
  lemma StatusRouteSpendsBudget(t: LeadTable, req: StatusRequest, id: string)
    ensures var r := StatusRoute(t, req.id, req.body, req.now);
      Budget(r.1, id) + (if req.id == id && r.0.code == NoContent then 1 else 0) <= Budget(t, id)
  {
    var r := StatusRoute(t, req.id, req.body, req.now);
    StatusRouteOutcomes(t, req.id, req.body, req.now);
    if r.0.code == NoContent {
      var s := UpdateStatusStep(t, req.id, req.body.value.status, req.now);
      assert r.1 == s.table;
      if req.id != id {
        assert id in r.1 <==> id in t;
        assert id in t ==> r.1[id] == t[id];
      }
    }
  }

  /**
   * Through the PUT route a lead makes at most three status changes in any run of requests:
   * every 204 for it spends one of the transitions its status left open. Unlike the
   * repository alone, the route gives the empty target no way around the count.
   */
  lemma {:induction false} RouteTransitionsBounded(t: LeadTable, reqs: seq<StatusRequest>, id: string)
    ensures NoContentCount(t, reqs, id) + Budget(RouteRun(t, reqs), id) <= Budget(t, id)
    ensures NoContentCount(t, reqs, id) <= |Pipeline| - 1
    decreases |reqs|
  {
    if reqs != [] {
      var r := StatusRoute(t, reqs[0].id, reqs[0].body, reqs[0].now);
      StatusRouteSpendsBudget(t, reqs[0], id);
      RouteTransitionsBounded(r.1, reqs[1..], id);
    }
    if id in t {
      SuccessorUsesOneStep(t[id].status);
    }
  }

  // ---------------------------------------------------------------------------
  // update and remove
  // ---------------------------------------------------------------------------

  /** updateLeadInput: service_id is required. */
  datatype UpdateLeadInput = UpdateLeadInput(serviceId: string, promoterId: Option<string>, notes: string)

  /** The lead update hands to the repository: the URL id and the three editable fields. */
  function EditedLead(id: string, input: UpdateLeadInput, now: int): Lead {
    Lead(id, "", input.promoterId, input.serviceId, "", input.notes, Clock.ZeroTime, now, None)
  }

  /** update: 400 on a bad body, ErrNoRows is 404, other errors 500, success 204 with X-Entity. */
  function HandleUpdate(id: string, body: Decoded<UpdateLeadInput>, now: int,
                        update: Lead -> Outcome): (r: Response)
    ensures !(body.Decoded? && body.value.serviceId != "") ==> r == Plain(BadRequest)
    ensures body.Decoded? && body.value.serviceId != "" ==>
      var out := update(EditedLead(id, body.value, now));
      && (r.code == NoContent <==> out.Ok?)
      && (r.code == NotFound <==> out == Err(ErrNoRows))
      && (r.code == InternalServerError <==> out.Err? && out != Err(ErrNoRows))
      && (out.Ok? ==> r.headers == map[EntityHeader := "leads:" + id])
  {
    if body.Malformed? || body.value.serviceId == "" then Plain(BadRequest)
    else
      match update(EditedLead(id, body.value, now))
      case Ok => Response(NoContent, map[EntityHeader := "leads:" + id])
      case Err(e) => if e == ErrNoRows then Plain(NotFound) else Plain(InternalServerError)
  }

  /** Editing through the repository never touches the lead's status or customer. */
  lemma UpdateKeepsStatus(t: LeadTable, id: string, input: UpdateLeadInput, now: int)
    requires IsLive(t, id)
    ensures var s := UpdateStep(t, EditedLead(id, input, now), now);
      s.outcome.Ok? && s.table[id].status == t[id].status && s.table[id].customerId == t[id].customerId
  {
  }

  /** remove: ErrNoRows is 404, other errors 500, success 204 with X-Entity. */
  function HandleRemove(id: string, softDelete: string -> Outcome): (r: Response)
    ensures r.code == NoContent <==> softDelete(id).Ok?
    ensures r.code == NotFound <==> softDelete(id) == Err(ErrNoRows)
    ensures r.code == InternalServerError <==> softDelete(id).Err? && softDelete(id) != Err(ErrNoRows)
    ensures r.code == NoContent ==> r.headers == map[EntityHeader := "leads:" + id]
  {
    match softDelete(id)
    case Ok => Response(NoContent, map[EntityHeader := "leads:" + id])
    case Err(e) => if e == ErrNoRows then Plain(NotFound) else Plain(InternalServerError)
  }
}
