/**
 What the gateway answers and stores, said of the rows, times and codes themselves: who is admitted, who
 is refused and for how long, which answer each stage gives, and which answers a client believes.
 */
module GatewayDecisions {
  import opened Wrappers
  import opened GatewayStore
  import G = GatewayServer
  import R = OwnerReader

  // --- Admission -----------------------------------------------------------------------

  /**
   How long a new request must wait: the interval after the last row, and, if the last `cap` rows were all
   touched within the hour, until the first of them is older than that.
   */
  function Wait(rows: seq<Request>, interval: int, cap: nat, now: int): int
    requires cap >= 1
  {
    var spacing := if rows == [] then 0 else rows[|rows| - 1].updatedAt + interval - now;
    var window := if |rows| >= cap && rows[|rows| - cap].updatedAt >= now - 3600
                  then rows[|rows| - cap].updatedAt + 3601 - now else 0;
    if spacing <= 0 && window <= 0 then 0 else if spacing >= window then spacing else window
  }

  lemma DelayIsWait(rows: seq<Request>, limits: Limits, now: int)
    requires Paced(rows, limits, now) && limits.maxPerHour >= 1
    ensures Delay(rows, limits, now) == Wait(rows, limits.minInterval, limits.maxPerHour, now)
  {
    var since := now - 3600;
    var k := |rows| - CountSince(rows, since);
    PacedIsSorted(rows, limits, now);
    LatestIsLast(rows);
    WindowSplits(rows, since);
    WindowWithinCap(rows, limits, now);
    EarliestIsFirst(rows, since, k);
  }

  predicate Listed(rows: seq<Request>, id: Uuid, status: RequestStatus) {
    exists i | 0 <= i < |rows| :: rows[i].id == id && rows[i].status == status
  }

  predicate Fresh(t: Tables, id: Uuid) {
    id !in t.refusals && forall i | 0 <= i < |t.requests| :: t.requests[i].id != id
  }

  /** A known identity is answered from its row or its tombstone, and nothing changes. */
  lemma KnownIsAnswered(t: Tables, limits: Limits, now: int, id: Uuid, unsafeState: bool)
    requires Identified(t) && 5 <= limits.minInterval <= I64_MAX && 1 <= limits.maxPerHour <= I64_MAX
    ensures var (u, outcome) := Begin(t, now, id, limits, unsafeState);
            && (Listed(t.requests, id, Pending) ==> (u, outcome) == (t, Ok(StillPending)))
            && (Listed(t.requests, id, Acknowledged) ==> (u, outcome) == (t, Ok(AlreadyAcknowledged)))
            && (id in t.refusals ==> (u, outcome) == (t, Ok(NotDispatched(t.refusals[id]))))
  {
  }

  /** Limits below five seconds or one request an hour, or beyond the storage range, admit nobody. */
  lemma BadLimitsFail(t: Tables, limits: Limits, now: int, id: Uuid, unsafeState: bool)
    requires limits.minInterval < 5 || limits.maxPerHour < 1
             || limits.minInterval > 0x7FFF_FFFF_FFFF_FFFF || limits.maxPerHour > 0x7FFF_FFFF_FFFF_FFFF
    ensures Begin(t, now, id, limits, unsafeState) == (t, Err)
  {
  }

  /**
   A new identity is refused for five seconds while the switches are unsafe or another request is open,
   then for what is left of its wait, at most a day, and otherwise gets its pending row. A refusal leaves
   its tombstone and nothing else.
   */
  lemma FreshIsDecided(t: Tables, limits: Limits, now: int, id: Uuid, unsafeState: bool)
    requires Paced(t.requests, limits, now) && Fresh(t, id)
    requires 5 <= limits.minInterval <= I64_MAX && 1 <= limits.maxPerHour <= I64_MAX
    ensures var (u, outcome) := Begin(t, now, id, limits, unsafeState);
            var open := exists i | 0 <= i < |t.requests| :: t.requests[i].status == Pending;
            var wait := Wait(t.requests, limits.minInterval, limits.maxPerHour, now);
            var refusal := if unsafeState then Refusal(Safety, 5)
                           else if open then Refusal(Unresolved, 5)
                           else Refusal(Capacity, if wait <= 0 then 0 else if wait <= 86_400 then wait else 86_400);
            if unsafeState || open || wait > 0 then
              outcome == Ok(NotDispatched(refusal)) && u == t.(refusals := t.refusals[id := refusal])
            else
              && outcome == Ok(New)
              && u == t.(requests := t.requests + [Request(id, Pending, now, now)],
                         events := t.events + [Event(id, ReservedEvent, now)])
  {
    DelayIsWait(t.requests, limits, now);
  }

  /** Only a pending row is acknowledged, now and once; a settled one stays, and there must be one. */
  lemma AcknowledgeIsExact(t: Tables, now: int, i: nat, id: Uuid)
    requires Identified(t)
    ensures var (u, r) := Acknowledge(t, now, id);
            && (Fresh(t, id) || id in t.refusals ==> (u, r) == (t, Err))
            && (Listed(t.requests, id, Acknowledged) ==> (u, r) == (t, Ok(())))
            && (i < |t.requests| && t.requests[i].id == id && t.requests[i].status == Pending ==>
                  && r == Ok(())
                  && u == t.(requests := t.requests[i := Request(id, Acknowledged, t.requests[i].createdAt, now)],
                             events := t.events + [Event(id, AcknowledgedEvent, now)]))
  {
  }

  lemma StatusIsExact(t: Tables, id: Uuid)
    requires Identified(t)
    ensures Status(t, id) == Some(StoredPending) <==> Listed(t.requests, id, Pending)
    ensures Status(t, id) == Some(StoredAcknowledged) <==> Listed(t.requests, id, Acknowledged)
    ensures id in t.refusals ==> Status(t, id) == Some(StoredNotDispatched(t.refusals[id]))
    ensures Status(t, id) == None <==> Fresh(t, id)
  {
  }

  // --- Handlers -------------------------------------------------------------------------

  /** The stage ends with this code and outcome, and no refusal. */
  predicate Ends(p: G.Progress, code: nat, id: Uuid, outcome: G.FeedOutcome) {
    p == G.Reply(G.Response(code, G.StatusBody(G.FeedStatus(id, outcome, None))))
  }

  predicate Fails(p: G.Progress, code: nat) { p == G.Reply(G.Response(code, G.ErrorBody)) }

  /** A refusal is sent as 429 if it is for capacity and as 423 if not. */
  predicate Refuses(p: G.Progress, id: Uuid, refusal: Refusal) {
    p == G.Reply(G.Response(if refusal.reason == Capacity then 429 else 423,
                            G.StatusBody(G.FeedStatus(id, G.NotDispatched, Some(refusal)))))
  }

  /** A stored status is final, or sends the handler to the owner's result; an unknown one is submitted or not found. */
  lemma LookupIsExact(id: Uuid, submitting: bool, refusal: Refusal)
    ensures Ends(G.AfterLookup(Some(StoredAcknowledged), id, submitting), 200, id, G.Confirmed)
    ensures G.AfterLookup(Some(StoredPending), id, submitting) == G.Continue(G.Recover(id))
    ensures Refuses(G.AfterLookup(Some(StoredNotDispatched(refusal)), id, submitting), id, refusal)
    ensures G.AfterLookup(None, id, true) == G.Continue(G.CheckSafety(id))
    ensures Fails(G.AfterLookup(None, id, false), 404)
  {
  }

  /** Only a new row leads to a command. */
  lemma AdmissionIsExact(id: Uuid, refusal: Refusal)
    ensures G.AfterAdmission(Ok(New), id) == G.Continue(G.Dispatch(id))
    ensures Refuses(G.AfterAdmission(Ok(NotDispatched(refusal)), id), id, refusal)
    ensures Ends(G.AfterAdmission(Ok(AlreadyAcknowledged), id), 200, id, G.Confirmed)
    ensures G.AfterAdmission(Ok(StillPending), id) == G.Continue(G.Recover(id))
    ensures Fails(G.AfterAdmission(Err, id), 502)
  {
  }

  /** A command that failed is ambiguous, never a refusal. */
  lemma CommandIsExact(id: Uuid)
    ensures G.AfterCommand(true, id) == G.Continue(G.Await(id))
    ensures Ends(G.AfterCommand(false, id), 409, id, G.Ambiguous)
  {
  }

  /** One read of the owner: only completion acknowledges, and only a recovery reports what is still pending. */
  lemma OwnerReadIsExact(id: Uuid)
    ensures forall read | read in {R.OutcomeAbsent, R.OutcomePending} ::
              && Ends(G.AfterRecovery(Ok(read), id), 202, id, G.Pending)
              && G.AfterPoll(Ok(read), id) == G.Continue(G.Await(id))
    ensures forall read | read in {R.OutcomeRejected, R.OutcomeAmbiguous} ::
              && Ends(G.AfterRecovery(Ok(read), id), 409, id, G.Ambiguous)
              && Ends(G.AfterPoll(Ok(read), id), 409, id, G.Ambiguous)
    ensures G.AfterRecovery(Ok(R.OutcomeComplete), id) == G.Continue(G.Acknowledge(id))
    ensures G.AfterPoll(Ok(R.OutcomeComplete), id) == G.Continue(G.Acknowledge(id))
    ensures Fails(G.AfterRecovery(Err, id), 502) && Ends(G.AfterPoll(Err, id), 409, id, G.Ambiguous)
    ensures Ends(G.AfterAcknowledgement(Ok(()), id), 200, id, G.Confirmed)
    ensures Fails(G.AfterAcknowledgement(Err, id), 502)
  {
  }

  // --- The client -------------------------------------------------------------------------

  /**
   A client believes a response if and only if its code is one of six, its status names the asked identity,
   a refusal comes with a wait of one second to a day and nothing else does, a confirmation comes with 200
   and a refusal with 200, 423 or 429.
   */
  lemma BelievedIsExact(response: G.Response, id: Uuid)
    ensures var r := G.ReadFeedStatus(response, id);
            r.Ok? <==>
              && response.code in {200, 202, 409, 423, 429, 504} && response.body.StatusBody?
              && var s := response.body.status;
                 && s.requestId == id
                 && (s.status == G.NotDispatched <==> s.refusal.Some?)
                 && (s.refusal.Some? ==> 1 <= s.refusal.value.retryAfterSeconds <= 86_400)
                 && (s.status == G.Confirmed ==> response.code == 200)
                 && (s.status == G.NotDispatched ==> response.code in {200, 423, 429})
    ensures G.ReadFeedStatus(response, id).Ok? ==> G.ReadFeedStatus(response, id).value == response.body.status
  {
  }
}
