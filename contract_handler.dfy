/**
 * The HTTP handlers of backend/internal/contract/handler.go: the status filter of the listing,
 * the validation of create and update (required fields, the date window, the update status
 * vocabulary), the default status, and the mapping of repository errors to responses.
 * Contracts have no transition table: update never looks at the stored status.
 */
module ContractHandler {
  import opened Wrappers
  import opened Store
  import opened Http
  import opened Dates
  import Clock

  datatype Contract = Contract(
    id: string,
    customerId: string,
    serviceId: string,
    promoterId: Option<string>,
    valueTotal: real,
    startDate: Date,
    endDate: Option<Date>,
    status: string,
    createdAt: int,
    updatedAt: int,
    deletedAt: Option<int>)

  // ---------------------------------------------------------------------------
  // list
  // ---------------------------------------------------------------------------

  /** The contracts of `cs` whose status is `status`, in their original order. */
  function WithStatus(cs: seq<Contract>, status: string): seq<Contract>
    decreases |cs|
  {
    if cs == [] then []
    else
      var last := cs[|cs| - 1];
      WithStatus(cs[..|cs| - 1], status) + (if last.status == status then [last] else [])
  }

  /** The filter keeps exactly the contracts with that status. */
  lemma {:induction false} WithStatusMembers(cs: seq<Contract>, status: string)
    ensures forall c :: c in WithStatus(cs, status) <==> c in cs && c.status == status
    ensures |WithStatus(cs, status)| <= |cs|
    decreases |cs|
  {
    if cs != [] {
      WithStatusMembers(cs[..|cs| - 1], status);
      assert cs == cs[..|cs| - 1] + [cs[|cs| - 1]];
    }
  }

  /** The filter distributes over concatenation, so it keeps the relative order of what it keeps. */
  lemma {:induction false} WithStatusConcat(xs: seq<Contract>, ys: seq<Contract>, status: string)
    ensures WithStatus(xs + ys, status) == WithStatus(xs, status) + WithStatus(ys, status)
    decreases |ys|
  {
    if ys == [] {
      assert xs + ys == xs;
    } else {
      var ys' := ys[..|ys| - 1];
      assert (xs + ys)[..|xs + ys| - 1] == xs + ys';
      WithStatusConcat(xs, ys', status);
    }
  }

  /** The filtering loop of `list`: appends, in order, each contract whose status matches. */
  method FilterByStatus(cs: seq<Contract>, status: string) returns (filtered: seq<Contract>)
    ensures filtered == WithStatus(cs, status)
  {
    filtered := [];
    var i := 0;
    while i < |cs|
      invariant 0 <= i <= |cs|
      invariant filtered == WithStatus(cs[..i], status)
    {
      assert cs[..i + 1][..i] == cs[..i];
      if cs[i].status == status {
        filtered := filtered + [cs[i]];
      }
      i := i + 1;
    }
    assert cs[..i] == cs;
  }

  /**
   * list: a repository error is 500; otherwise 200 with every contract when the status query
   * is empty and with exactly those of that status, in order, when it is not.
   */
  method List(found: Result<seq<Contract>, RepoError>, status: string) returns (response: Response, body: seq<Contract>)
    ensures response.code == OK <==> found.Success?
    ensures found.Failure? ==> response == Plain(InternalServerError) && body == []
    ensures found.Success? && status == "" ==> body == found.value
    ensures found.Success? && status != "" ==>
      && body == WithStatus(found.value, status)
      && (forall c :: c in body <==> c in found.value && c.status == status)
  {
    if found.Failure? {
      return Plain(InternalServerError), [];
    }
    body := found.value;
    if status != "" {
      body := FilterByStatus(body, status);
      WithStatusMembers(found.value, status);
    }
    response := Plain(OK);
  }

  // ---------------------------------------------------------------------------
  // Validation shared by create and update
  // ---------------------------------------------------------------------------

  /**
   * The validator's `required,gte=0` on a float: `required` refuses the zero value, `gte=0`
   * refuses negatives, so only positive amounts pass.
   */
  predicate AmountAccepted(value: real) {
    value != 0.0 && value >= 0.0
  }

  /** The parsed start date and optional end date. */
  datatype Window = Window(start: Date, end: Option<Date>)

  /**
   * Lines 94-112 and 168-186: the start date must parse; an empty end date means none, a
   * non-empty one must parse and must not be before the start.
   */
  function ParseWindow(start: string, end: string): (w: Option<Window>)
    ensures w.Some? <==>
      && ParseDate(start).Some?
      && (end != "" ==> ParseDate(end).Some? && !After(ParseDate(start).value, ParseDate(end).value))
    ensures w.Some? ==> w.value.start == ParseDate(start).value && ValidDate(w.value.start)
    ensures w.Some? ==> (w.value.end.None? <==> end == "")
    ensures w.Some? && w.value.end.Some? ==>
      w.value.end == ParseDate(end) && !After(w.value.start, w.value.end.value)
  {
    match ParseDate(start)
    case None => None
    case Some(s) =>
      if end == "" then Some(Window(s, None))
      else
        match ParseDate(end)
        case None => None
        case Some(e) => if After(s, e) then None else Some(Window(s, Some(e)))
  }

  /**
   * For dates written in the layout the window is accepted exactly when the end is not before
   * the start: equal dates pass, an end one day earlier does not.
   */
  lemma WindowOrder(start: Date, end: Date)
    requires ValidDate(start) && ValidDate(end)
    ensures ParseWindow(FormatDate(start), FormatDate(end)).Some? <==> !After(start, end)
    ensures ParseWindow(FormatDate(start), "") == Some(Window(start, None))
    ensures ParseWindow(FormatDate(start), FormatDate(start)) == Some(Window(start, Some(start)))
  {
    ParseFormat(start);
    ParseFormat(end);
    AfterIsStrictTotalOrder(start, start, start);
    assert FormatDate(end) != "";
  }

  // ---------------------------------------------------------------------------
  // create
  // ---------------------------------------------------------------------------

  /** createContractInput; an absent JSON field decodes as the zero value. */
  datatype CreateContractInput = CreateContractInput(
    customerId: string, serviceId: string, promoterId: string,
    valueTotal: real, startDate: string, endDate: string, status: string)

  /** The struct tags: customer_id, service_id and start_date required; value_total required, gte=0. */
  predicate CreateFieldsValid(input: CreateContractInput) {
    input.customerId != "" && input.serviceId != "" && AmountAccepted(input.valueTotal) && input.startDate != ""
  }

  /** The status a new contract is stored with: "active" when none is given, else the given one verbatim. */
  function InitialStatus(requested: string): (status: string)
    ensures status != ""
    ensures requested != "" ==> status == requested
    ensures requested == "" ==> status == "active"
  {
    if requested != "" then requested else "active"
  }

  /** The contract create builds from a valid input and its window. */
  function NewContract(input: CreateContractInput, w: Window, freshId: string, now: int): Contract {
    Contract(freshId, input.customerId, input.serviceId,
             if input.promoterId != "" then Some(input.promoterId) else None,
             input.valueTotal, w.start, w.end, InitialStatus(input.status), now, now, None)
  }

  /** Whether create gets as far as the repository. */
  predicate CreateAccepted(body: Decoded<CreateContractInput>) {
    && body.Decoded?
    && CreateFieldsValid(body.value)
    && ParseWindow(body.value.startDate, body.value.endDate).Some?
  }

  datatype CreateReply = CreateReply(response: Response, body: Option<Contract>)

  /**
   * create: 400 on a malformed body, a failed validation, a bad date or an end before the start;
   * then the repository's ErrNoRows (unknown customer or service) is 400 too, any other error
   * 500, and success 201 with Location "/contracts/<id>".
   */
  function HandleCreate(body: Decoded<CreateContractInput>, freshId: string, now: int,
                        create: Contract -> Outcome): (r: CreateReply)
    ensures !CreateAccepted(body) ==> r == CreateReply(Plain(BadRequest), None)
    ensures CreateAccepted(body) ==>
      var c := NewContract(body.value, ParseWindow(body.value.startDate, body.value.endDate).value, freshId, now);
      && (r.response.code == Created <==> create(c).Ok?)
      && (r.response.code == BadRequest <==> create(c) == Err(ErrNoRows))
      && (r.response.code == InternalServerError <==> create(c).Err? && create(c) != Err(ErrNoRows))
      && (create(c).Ok? ==> r.body == Some(c) && Header(r.response.headers, LocationHeader) == "/contracts/" + freshId)
    ensures r.body.Some? ==>
      && r.body.value.status != ""
      && (body.value.status != "" ==> r.body.value.status == body.value.status)
      && (body.value.status == "" ==> r.body.value.status == "active")
      && (r.body.value.endDate.Some? ==> !After(r.body.value.startDate, r.body.value.endDate.value))
  {
    if !CreateAccepted(body) then CreateReply(Plain(BadRequest), None)
    else
      var input := body.value;
      var c := NewContract(input, ParseWindow(input.startDate, input.endDate).value, freshId, now);
      match create(c)
      case Ok => CreateReply(Response(Created, map[LocationHeader := "/contracts/" + c.id]), Some(c))
      case Err(e) =>
        if e == ErrNoRows then CreateReply(Plain(BadRequest), None)
        else CreateReply(Plain(InternalServerError), None)
  }

  /** A value of zero is refused as missing, exactly like a negative one. */
  lemma ZeroAmountRejected(input: CreateContractInput, freshId: string, now: int, create: Contract -> Outcome)
    requires input.valueTotal <= 0.0
    ensures HandleCreate(Decoded(input), freshId, now, create) == CreateReply(Plain(BadRequest), None)
  {
  }

  // ---------------------------------------------------------------------------
  // update
  // ---------------------------------------------------------------------------

  /** UpdateContractInput. */
  datatype UpdateContractInput = UpdateContractInput(
    valueTotal: real, startDate: string, endDate: string, status: string)

  /** `required,oneof=active suspended closed cancelled`. */
  predicate InContractVocabulary(status: string) {
    status == "active" || status == "suspended" || status == "closed" || status == "cancelled"
  }

  /** Whether update gets as far as the repository. */
  predicate UpdateAccepted(body: Decoded<UpdateContractInput>) {
    && body.Decoded?
    && AmountAccepted(body.value.valueTotal)
    && body.value.startDate != ""
    && InContractVocabulary(body.value.status)
    && ParseWindow(body.value.startDate, body.value.endDate).Some?
  }

  /** The contract update hands to the repository: the URL id and the four editable fields. */
  function EditedContract(id: string, input: UpdateContractInput, w: Window, now: int): Contract {
    Contract(id, "", "", None, input.valueTotal, w.start, w.end, input.status, Clock.ZeroTime, now, None)
  }

  /**
   * update: 400 on a malformed body, a failed validation (status outside the vocabulary,
   * amount not positive, start date missing) or a bad window; then ErrNoRows is 404, any other
   * error 500, and success 204.
   */
  function HandleUpdate(id: string, body: Decoded<UpdateContractInput>, now: int,
                        update: Contract -> Outcome): (r: Response)
    ensures !UpdateAccepted(body) ==> r == Plain(BadRequest)
    ensures UpdateAccepted(body) ==>
      var c := EditedContract(id, body.value, ParseWindow(body.value.startDate, body.value.endDate).value, now);
      && (r == Plain(NoContent) <==> update(c).Ok?)
      && (r == Plain(NotFound) <==> update(c) == Err(ErrNoRows))
      && (r == Plain(InternalServerError) <==> update(c).Err? && update(c) != Err(ErrNoRows))
  {
    if !UpdateAccepted(body) then Plain(BadRequest)
    else
      var input := body.value;
      var c := EditedContract(id, input, ParseWindow(input.startDate, input.endDate).value, now);
      match update(c)
      case Ok => Plain(NoContent)
      case Err(e) => if e == ErrNoRows then Plain(NotFound) else Plain(InternalServerError)
  }

  /**
   * Update never consults the stored status: with a repository that finds the contract, every
   * status of the vocabulary is accepted, whatever the contract held before, and the contract
   * handed over carries it.
   */
  lemma AnyStatusMayFollowAnother(id: string, input: UpdateContractInput, now: int, update: Contract -> Outcome)
    requires UpdateAccepted(Decoded(input))
    requires forall c :: update(c).Ok?
    ensures forall s :: InContractVocabulary(s) ==> HandleUpdate(id, Decoded(input.(status := s)), now, update) == Plain(NoContent)
    ensures !InContractVocabulary("lead") && !InContractVocabulary("")
  {
  }

  /** remove: ErrNoRows is 404, any other error 500, success 204. */
  function HandleRemove(id: string, softDelete: string -> Outcome): (r: Response)
    ensures r == Plain(NoContent) <==> softDelete(id).Ok?
    ensures r == Plain(NotFound) <==> softDelete(id) == Err(ErrNoRows)
    ensures r == Plain(InternalServerError) <==> softDelete(id).Err? && softDelete(id) != Err(ErrNoRows)
  {
    match softDelete(id)
    case Ok => Plain(NoContent)
    case Err(e) => if e == ErrNoRows then Plain(NotFound) else Plain(InternalServerError)
  }
}
