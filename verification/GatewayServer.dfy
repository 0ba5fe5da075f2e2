/**
 The gateway's HTTP boundary: what the server answers (src/gateway/server.rs), what the daemon's
 client accepts (src/gateway/client.rs), and the stages of a request handler between two points at
 which other handlers, the owner or a timeout may intervene.
 */
module GatewayServer {
  import opened Wrappers
  import S = GatewayStore
  import R = OwnerReader

  datatype FeedOutcome = NotDispatched | Pending | Confirmed | Ambiguous

  datatype FeedStatus = FeedStatus(requestId: Uuid, status: FeedOutcome, refusal: Option<S.Refusal>)

  datatype Body = StatusBody(status: FeedStatus) | ErrorBody

  datatype Response = Response(code: nat, body: Body)

  // --- The client ----------------------------------------------------------------

  /** `FeedRequestStatus::validate`. */
  predicate Validates(s: FeedStatus, expected: Uuid) {
    s.requestId == expected
    && match s.status
       case NotDispatched => s.refusal.Some? && 1 <= s.refusal.value.retryAfterSeconds <= S.MAX_RETRY_SECONDS
       case _ => s.refusal.None?
  }

  /** `read_feed_status`. */
  function ReadFeedStatus(response: Response, id: Uuid): Result<FeedStatus> {
    if response.code !in {200, 202, 409, 423, 429, 504} then Err
    else match response.body
      case ErrorBody => Err
      case StatusBody(s) =>
        if !Validates(s, id) then Err
        else if s.status == Confirmed && response.code != 200 then Err
        else if s.status == NotDispatched && response.code !in {200, 423, 429} then Err
        else Ok(s)
  }

  // --- The server ----------------------------------------------------------------

  function OutcomeResponse(code: nat, id: Uuid, status: FeedOutcome): Response {
    Response(code, StatusBody(FeedStatus(id, status, None)))
  }

  function RefusalResponse(id: Uuid, refusal: S.Refusal): Response {
    Response(if refusal.reason == S.Capacity then 429 else 423,
             StatusBody(FeedStatus(id, NotDispatched, Some(refusal))))
  }

  const INTERNAL_FAILURE: Response := Response(502, ErrorBody)
  const NOT_FOUND: Response := Response(404, ErrorBody)

  /** Where a handler stands. `submitting` distinguishes POST from GET. */
  datatype Task =
    | Lookup(id: Uuid, submitting: bool)
    | CheckSafety(id: Uuid)
    | Admit(id: Uuid, safetyRefusal: bool)
    | Dispatch(id: Uuid)
    | Recover(id: Uuid)
    | Await(id: Uuid)
    | Acknowledge(id: Uuid)

  datatype Progress = Continue(task: Task) | Reply(response: Response)

  /** The first store read of `submit_feed_request` and of `lookup_feed_request`. */
  function AfterLookup(stored: Option<S.StoredStatus>, id: Uuid, submitting: bool): Progress {
    match stored
    case Some(StoredAcknowledged) => Reply(OutcomeResponse(200, id, Confirmed))
    case Some(StoredPending) => Continue(Recover(id))
    case Some(StoredNotDispatched(refusal)) => Reply(RefusalResponse(id, refusal))
    case None => if submitting then Continue(CheckSafety(id)) else Reply(NOT_FOUND)
  }

  function AfterAdmission(outcome: Result<S.BeginOutcome>, id: Uuid): Progress {
    match outcome
    case Ok(New) => Continue(Dispatch(id))
    case Ok(NotDispatched(refusal)) => Reply(RefusalResponse(id, refusal))
    case Ok(AlreadyAcknowledged) => Reply(OutcomeResponse(200, id, Confirmed))
    case Ok(StillPending) => Continue(Recover(id))
    case Err => Reply(INTERNAL_FAILURE)
  }

  function AfterCommand(ok: bool, id: Uuid): Progress {
    if ok then Continue(Await(id)) else Reply(OutcomeResponse(409, id, Ambiguous))
  }

  /** `handle_existing_pending`: one owner read. */
  function AfterRecovery(outcome: Result<R.OwnerOutcome>, id: Uuid): Progress {
    match outcome
    case Ok(OutcomeComplete) => Continue(Acknowledge(id))
    case Ok(OutcomeAbsent) => Reply(OutcomeResponse(202, id, Pending))
    case Ok(OutcomePending) => Reply(OutcomeResponse(202, id, Pending))
    case Ok(OutcomeRejected) => Reply(OutcomeResponse(409, id, Ambiguous))
    case Ok(OutcomeAmbiguous) => Reply(OutcomeResponse(409, id, Ambiguous))
    case Err => Reply(INTERNAL_FAILURE)
  }

  /** One turn of the `wait_for_ack` loop before its deadline. */
  function AfterPoll(outcome: Result<R.OwnerOutcome>, id: Uuid): Progress {
    match outcome
    case Ok(OutcomeComplete) => Continue(Acknowledge(id))
    case Ok(OutcomeAbsent) => Continue(Await(id))
    case Ok(OutcomePending) => Continue(Await(id))
    case _ => Reply(OutcomeResponse(409, id, Ambiguous))
  }

  function AfterAcknowledgement(outcome: Result<()>, id: Uuid): Progress {
    match outcome
    case Ok(_) => Reply(OutcomeResponse(200, id, Confirmed))
    case Err => Reply(INTERNAL_FAILURE)
  }

  /** `wait_for_ack` over the readings it obtains before the deadline. */
  method WaitForAck(id: Uuid, readings: seq<Result<R.OwnerOutcome>>) returns (p: Progress)
    ensures p == Continue(Acknowledge(id)) <==>
              exists k | 0 <= k < |readings| ::
                && readings[k] == Ok(R.OutcomeComplete)
                && forall i | 0 <= i < k :: readings[i] in {Ok(R.OutcomeAbsent), Ok(R.OutcomePending)}
    ensures p == Reply(OutcomeResponse(504, id, Ambiguous)) <==>
              forall i | 0 <= i < |readings| :: readings[i] in {Ok(R.OutcomeAbsent), Ok(R.OutcomePending)}
    ensures p.Reply? ==> p.response.body == StatusBody(FeedStatus(id, Ambiguous, None))
  {
    for n := 0 to |readings|
      invariant forall i | 0 <= i < n :: readings[i] in {Ok(R.OutcomeAbsent), Ok(R.OutcomePending)}
    {
      p := AfterPoll(readings[n], id);
      if p != Continue(Await(id)) {
        return;
      }
    }
    p := Reply(OutcomeResponse(504, id, Ambiguous));
  }

  // --- Server and client agree ---------------------------------------------------

  /** A refusal the client accepts: a wait of one second to one day. */
  predicate Fits(refusal: S.Refusal) { 1 <= refusal.retryAfterSeconds <= S.MAX_RETRY_SECONDS }

  /** Every response a handler for `id` can end with. */
  ghost predicate Answer(response: Response, id: Uuid) {
    || response == INTERNAL_FAILURE
    || response == NOT_FOUND
    || response == OutcomeResponse(200, id, Confirmed)
    || response == OutcomeResponse(202, id, Pending)
    || response == OutcomeResponse(409, id, Ambiguous)
    || response == OutcomeResponse(504, id, Ambiguous)
    || exists refusal :: Fits(refusal) && response == RefusalResponse(id, refusal)
  }

  /** The client accepts an answer exactly when it carries a status for the identity it asked about. */
  lemma ClientReadsAnswer(response: Response, id: Uuid, asked: Uuid)
    requires Answer(response, id)
    ensures ReadFeedStatus(response, asked)
            == if response.body.StatusBody? && response.body.status.requestId == asked
               then Ok(response.body.status) else Err
  {
  }

  /** A handler for `id` goes on with it or ends with an answer about it. */
  ghost predicate Handles(p: Progress, id: Uuid) {
    match p
    case Continue(task) => task.id == id
    case Reply(response) => Answer(response, id)
  }

  lemma LookupHandles(stored: Option<S.StoredStatus>, id: Uuid, submitting: bool)
    requires stored.Some? && stored.value.StoredNotDispatched? ==> Fits(stored.value.refusal)
    ensures Handles(AfterLookup(stored, id, submitting), id)
  {
  }

  lemma AdmissionHandles(outcome: Result<S.BeginOutcome>, id: Uuid)
    requires outcome.Ok? && outcome.value.NotDispatched? ==> Fits(outcome.value.refusal)
    ensures Handles(AfterAdmission(outcome, id), id)
  {
  }
}
