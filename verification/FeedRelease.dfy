/**
 The dual of the debit: an unresolved attempt can be released by the parties themselves exactly when the
 gateway has refused it, or can still refuse it because its request has not been admitted.
 */
module FeedRelease {
  import opened Wrappers
  import opened FeedProtocol
  import opened FeedSafety
  import opened FeedProgress
  import L = FeedLedger
  import S = GatewayStore
  import G = GatewayServer
  import W = FeedWorker

  ghost predicate Released(w: World, id: Uuid) { AttemptIs(w.feed, id, L.ReconciledNotFed) }

  /** The request can still reach the gateway. */
  predicate Submittable(w: World, id: Uuid) { id in w.posts || w.worker == Posting(id) }

  ghost predicate Releasable(w: World, limits: S.Limits, id: Uuid) {
    id in w.gateway.refusals || (S.Safe(limits) && !HasRow(w.gateway, id) && Submittable(w, id))
  }

  // --- A refusal can still arrive --------------------------------------------------------

  ghost predicate Refused(w: World, id: Uuid) {
    exists refusal :: G.Fits(refusal) && G.RefusalResponse(id, refusal) in w.replies
  }

  lemma NoRow(t: S.Tables, id: Uuid)
    requires !HasRow(t, id)
    ensures S.Find(t.requests, id).None?
  {
  }

  /** A status request finds the tombstone. */
  lemma TombstoneIsRead(w: World, limits: S.Limits, h: nat, id: Uuid) returns (more: seq<Action>)
    requires S.Identified(w.gateway) && id in w.gateway.refusals
    requires h in w.handlers && w.handlers[h] == G.Lookup(id, false)
    ensures Orderly(w, limits, more)
    ensures var v := After(w, limits, more); Refused(v, id) && SameDaemon(w, v)
  {
    Advances(w, limits, h, false);
    more := [Advance(h, Reading(w.owner, id, false))];
    assert G.RefusalResponse(id, w.gateway.refusals[id]) in After(w, limits, more).replies;
  }

  /** A request that finds the safety state unsafe is refused. */
  lemma AdmissionRefuses(w: World, limits: S.Limits, h: nat, id: Uuid) returns (more: seq<Action>)
    requires S.Safe(limits) && !HasRow(w.gateway, id) && id !in w.gateway.refusals
    requires h in w.handlers && w.handlers[h] == G.Admit(id, true)
    ensures Orderly(w, limits, more)
    ensures var v := After(w, limits, more); Refused(v, id) && SameDaemon(w, v)
  {
    NoRow(w.gateway, id);
    Advances(w, limits, h, false);
    more := [Advance(h, Reading(w.owner, id, false))];
    assert G.RefusalResponse(id, S.Refusal(S.Safety, S.FIXED_RETRY_SECONDS)) in After(w, limits, more).replies;
  }

  lemma SubmissionIsRefused(w: World, limits: S.Limits, h: nat, id: Uuid) returns (more: seq<Action>)
    requires S.Safe(limits) && !HasRow(w.gateway, id) && id !in w.gateway.refusals
    requires h in w.handlers && w.handlers[h] == G.Lookup(id, true)
    ensures Orderly(w, limits, more)
    ensures var v := After(w, limits, more); Refused(v, id) && SameDaemon(w, v)
  {
    NoRow(w.gateway, id);
    var screened, checked := At(w, h, G.CheckSafety(id)), At(w, h, G.Admit(id, true));
    var look, check := [Advance(h, Reading(w.owner, id, false))], [Advance(h, Reading(w.owner, id, true))];
    Advances(w, limits, h, false);
    assert After(w, limits, look) == screened;
    Advances(screened, limits, h, true);
    assert After(screened, limits, check) == checked;
    var rest := AdmissionRefuses(checked, limits, h, id);
    Joined(screened, limits, check, rest);
    Joined(w, limits, look, check + rest);
    more := look + (check + rest);
  }

  lemma RefusalArrives(w: World, limits: S.Limits, id: Uuid) returns (more: seq<Action>)
    requires S.Identified(w.gateway)
    requires id in w.gateway.refusals || (S.Safe(limits) && !HasRow(w.gateway, id) && id in w.posts)
    ensures Orderly(w, limits, more)
    ensures var v := After(w, limits, more); Refused(v, id) && SameDaemon(w, v)
  {
    var h := HandlersAreFinite(w.handlers.Keys);
    assert h !in w.handlers;
    var submitting := id !in w.gateway.refusals;
    Asks(w, limits, h, id, submitting);
    var asked := At(w, h, G.Lookup(id, submitting));
    var rest;
    if submitting {
      rest := SubmissionIsRefused(asked, limits, h, id);
    } else {
      rest := TombstoneIsRead(asked, limits, h, id);
    }
    Joined(w, limits, [Spawn(h, id, submitting)], rest);
    more := [Spawn(h, id, submitting)] + rest;
  }

  /** A delivered refusal releases the polled attempt. */
  lemma AnswerReleases(w: World, limits: S.Limits, i: nat, id: Uuid, refusal: S.Refusal)
    requires L.AttemptsValid(w.feed.attempts) && Waits(w.feed, i, id)
    requires G.Fits(refusal) && G.RefusalResponse(id, refusal) in w.replies
    requires w.worker == AwaitingPoll(id, w.feed.attempts[i].status)
    ensures Released(Apply(w, limits, PollAnswered(G.RefusalResponse(id, refusal))), id)
  {
    var released := L.ResolveNotDispatched(w.feed, Seconds(w), id, refusal.retryAfterSeconds).0;
    assert released.attempts[i].id == id && released.attempts[i].status == L.ReconciledNotFed;
  }

  lemma PolledIsReleased(w: World, limits: S.Limits, i: nat, id: Uuid) returns (more: seq<Action>)
    requires S.Identified(w.gateway) && L.AttemptsValid(w.feed.attempts) && Waits(w.feed, i, id)
    requires w.worker == AwaitingPoll(id, w.feed.attempts[i].status)
    requires id in w.gateway.refusals || (S.Safe(limits) && !HasRow(w.gateway, id) && id in w.posts)
    ensures Orderly(w, limits, more) && Released(After(w, limits, more), id)
  {
    var middle := RefusalArrives(w, limits, id);
    var v := After(w, limits, middle);
    var refusal :| G.Fits(refusal) && G.RefusalResponse(id, refusal) in v.replies;
    OneMore(w, limits, middle, PollAnswered(G.RefusalResponse(id, refusal)));
    AnswerReleases(v, limits, i, id, refusal);
    more := middle + [PollAnswered(G.RefusalResponse(id, refusal))];
  }

  lemma ReleaseFollows(w: World, limits: S.Limits, i: nat, id: Uuid) returns (more: seq<Action>)
    requires SafeInv(w) && Waits(w.feed, i, id) && Releasable(w, limits, id)
    ensures Orderly(w, limits, more) && Released(After(w, limits, more), id)
  {
    var first := WorkerPolls(w, limits, i, id);
    OrderlyKeepsLedger(w, limits, first);
    var rest := PolledIsReleased(After(w, limits, first), limits, i, id);
    Joined(w, limits, first, rest);
    more := first + rest;
  }

  // --- No other attempt is ever released ---------------------------------------------------

  /** Anything may happen except an operator's verdict or a stranger's use of the identity. */
  predicate Unclaimed(a: Action, id: Uuid) { Legal(a) && !a.OperatorNotFed? && a != ForeignPost(id) }

  lemma StageStaysUnreleasable(w: World, limits: S.Limits, h: nat, input: Input, id: Uuid)
    requires S.Identified(w.gateway) && PostedInv(w) && h in w.handlers && !Releasable(w, limits, id)
    ensures !Releasable(AdvanceHandler(w, limits, h, input), limits, id)
  {
    var task := w.handlers[h];
    if task.Admit? {
      RowsOnlyGrow(w.gateway, Seconds(w), task.id, limits, task.safetyRefusal);
      if task.id == id && HasRow(w.gateway, id) {
        var i :| 0 <= i < |w.gateway.requests| && w.gateway.requests[i].id == id;
      }
    } else if task.Acknowledge? {
      AcknowledgeKeepsRows(w.gateway, Seconds(w), task.id);
    }
  }

  lemma ApplyStaysUnreleasable(w: World, limits: S.Limits, a: Action, id: Uuid)
    requires S.Identified(w.gateway) && PostedInv(w) && !Releasable(w, limits, id) && Unclaimed(a, id)
    requires Attempted(w.feed, id)
    ensures !Releasable(Apply(w, limits, a), limits, id)
  {
    match a
    case Advance(h, input) =>
      if h in w.handlers {
        StageStaysUnreleasable(w, limits, h, input, id);
      }
    case BeginFeed(threshold, newId) =>
      if newId == id {
        var i :| 0 <= i < |w.feed.attempts| && w.feed.attempts[i].id == id;
      }
    case _ =>
  }

  /** Only a refusal or an operator releases. */
  lemma ReleaseNeedsStep(t: L.Tables, step: L.Step, id: Uuid)
    requires !AttemptIs(t, id, L.ReconciledNotFed) && AttemptIs(L.Apply(t, step), id, L.ReconciledNotFed)
    ensures (step.NotFedStep? && step.id == id) || (step.NotDispatchedStep? && step.id == id)
  {
    var u := L.Apply(t, step);
    var i :| 0 <= i < |u.attempts| && u.attempts[i].id == id && u.attempts[i].status == L.ReconciledNotFed;
    assert i < |t.attempts| ==> t.attempts[i].id == id;
  }

  /** The daemon releases only what the gateway refused. */
  lemma ReleaseNeedsTombstone(w: World, a: Action, id: Uuid)
    requires CertifiedInv(w.gateway, w.handlers, w.replies, w.owner) && !a.OperatorNotFed?
    requires LedgerStep(w, a).Some? && LedgerStep(w, a).value.NotDispatchedStep? && LedgerStep(w, a).value.id == id
    ensures id in w.gateway.refusals
  {
    assert Truthful(a.response, w.gateway, w.owner);
  }

  lemma ApplyStaysUnreleased(w: World, limits: S.Limits, a: Action, id: Uuid)
    requires CertifiedInv(w.gateway, w.handlers, w.replies, w.owner) && PollsUnresolved(w)
    requires !Releasable(w, limits, id) && Unclaimed(a, id) && !Released(w, id)
    ensures !Released(Apply(w, limits, a), id)
  {
    ApplyIsLedgerStep(w, limits, a);
    var step := LedgerStep(w, a);
    if step.Some? && AttemptIs(L.Apply(w.feed, step.value), id, L.ReconciledNotFed) {
      ReleaseNeedsStep(w.feed, step.value, id);
      ReleaseNeedsTombstone(w, a, id);
      assert false;
    }
  }

  /** An unresolved attempt that only an operator could still release. */
  ghost predicate Parked(w: World, limits: S.Limits, id: Uuid) {
    !Releasable(w, limits, id) && !Released(w, id) && Attempted(w.feed, id)
  }

  lemma ApplyKeepsParked(w: World, limits: S.Limits, a: Action, id: Uuid)
    requires SafeInv(w) && Parked(w, limits, id) && Unclaimed(a, id)
    ensures Parked(Apply(w, limits, a), limits, id)
  {
    ApplyStaysUnreleasable(w, limits, a, id);
    ApplyStaysUnreleased(w, limits, a, id);
    ApplyKeepsAttempted(w, limits, a);
  }

  /** It stays so, whatever else happens. */
  lemma {:induction false} NeverReleased(w: World, limits: S.Limits, more: seq<Action>, id: Uuid)
    requires SafeInv(w) && Parked(w, limits, id) && forall a | a in more :: Unclaimed(a, id)
    ensures SafeInv(After(w, limits, more)) && Parked(After(w, limits, more), limits, id)
  {
    if more != [] {
      var front, last := more[..|more| - 1], more[|more| - 1];
      assert Unclaimed(last, id);
      NeverReleased(w, limits, front, id);
      ApplyKeepsSafe(After(w, limits, front), limits, last);
      ApplyKeepsParked(After(w, limits, front), limits, last, id);
    }
  }

  lemma {:induction false} OrderlyIsUnclaimed(w: World, limits: S.Limits, more: seq<Action>, id: Uuid)
    requires Orderly(w, limits, more)
    ensures forall a | a in more :: Unclaimed(a, id)
  {
    if more != [] {
      OrderlyIsUnclaimed(w, limits, more[..|more| - 1], id);
    }
  }

  ghost predicate Releases(w: World, limits: S.Limits, more: seq<Action>, id: Uuid) {
    Orderly(w, limits, more) && Released(After(w, limits, more), id)
  }

  lemma UnresolvedIsUnreleased(t: L.Tables, i: nat, id: Uuid)
    requires L.AttemptsValid(t.attempts) && Waits(t, i, id)
    ensures !AttemptIs(t, id, L.ReconciledNotFed) && Attempted(t, id)
  {
  }

  /**
   In every reachable state an unresolved attempt can be released by ordinary actions alone if and only
   if it is releasable. If it is not, no continuation without an operator's verdict or a stranger using
   the identity ever releases it, whatever the owner does and whoever crashes.
   */
  lemma ReleasableExactly(limits: S.Limits, actions: seq<Action>, i: nat, id: Uuid)
    requires forall a | a in actions :: Legal(a)
    requires Waits(Run(limits, actions).feed, i, id)
    ensures var w := Run(limits, actions);
            && (Releasable(w, limits, id) <==> exists more :: Releases(w, limits, more, id))
            && (!Releasable(w, limits, id) ==>
                  forall more | (forall a | a in more :: Unclaimed(a, id)) ::
                    !Released(Run(limits, actions + more), id))
  {
    var w := Run(limits, actions);
    RunIsSafe(limits, actions);
    UnresolvedIsUnreleased(w.feed, i, id);
    if Releasable(w, limits, id) {
      var more := ReleaseFollows(w, limits, i, id);
      assert Releases(w, limits, more, id);
    } else {
      forall more | (forall a | a in more :: Unclaimed(a, id)) ensures !Released(Run(limits, actions + more), id) {
        NeverReleased(w, limits, more, id);
        RunSplits(limits, actions, more);
      }
      forall more ensures !Releases(w, limits, more, id) {
        if Releases(w, limits, more, id) {
          OrderlyIsUnclaimed(w, limits, more, id);
          NeverReleased(w, limits, more, id);
          assert false;
        }
      }
    }
  }
}
