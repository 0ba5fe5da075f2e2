/**
 Safety of the whole system over every run: at most one pulse for each request, no debit without a
 durable completion, no command for a released attempt, and pulses that equal debits.
 */
module FeedSafety {
  import opened Wrappers
  import opened FeedProtocol
  import L = FeedLedger
  import S = GatewayStore
  import G = GatewayServer
  import O = FeederOwner

  ghost predicate SafeInv(w: World) {
    && DispatchInv(w.gateway, w.handlers, w.commands)
    && OwnerInv(w.owner, w.clock, w.commands)
    && CertifiedInv(w.gateway, w.handlers, w.replies, w.owner)
    && PostedInv(w)
    && L.Inv(w.feed) && PollsUnresolved(w)
  }

  lemma ApplyKeepsSafe(w: World, limits: S.Limits, a: Action)
    requires SafeInv(w) && Legal(a)
    ensures SafeInv(Apply(w, limits, a))
  {
    ApplyKeepsDispatch(w, limits, a);
    ApplyKeepsOwner(w, limits, a);
    ApplyKeepsCertified(w, limits, a);
    ApplyKeepsPosted(w, limits, a);
    ApplyIsLedgerStep(w, limits, a);
    if LedgerStep(w, a).Some? {
      L.ApplyKeepsInv(w.feed, LedgerStep(w, a).value);
    }
  }

  lemma InitialLedger()
    ensures L.Inv(L.EMPTY)
  {
  }

  lemma InitialOwner()
    ensures OwnerInv(O.INITIAL, 0, [])
  {
    O.InitialInv(0);
  }

  lemma InitialIsSafe()
    ensures SafeInv(INITIAL) && SoleInv(INITIAL) && ConcludedInv(INITIAL.feed, INITIAL.gateway, INITIAL.owner)
  {
    InitialLedger();
    InitialOwner();
  }

  lemma {:induction false} RunIsSafe(limits: S.Limits, actions: seq<Action>)
    requires forall a | a in actions :: Legal(a)
    ensures SafeInv(Run(limits, actions))
  {
    if actions == [] {
      InitialIsSafe();
    } else {
      var front := actions[..|actions| - 1];
      RunIsSafe(limits, front);
      ApplyKeepsSafe(Run(limits, front), limits, actions[|actions| - 1]);
    }
  }

  /** The books of the daemon tell the truth about the world. */
  ghost predicate Concluded(w: World) { ConcludedInv(w.feed, w.gateway, w.owner) }

  lemma {:induction false} RunIsConcluded(limits: S.Limits, actions: seq<Action>)
    requires forall a | a in actions :: Legal(a) && Unattended(a)
    ensures Concluded(Run(limits, actions))
  {
    if actions == [] {
      InitialIsSafe();
    } else {
      var front := actions[..|actions| - 1];
      RunIsSafe(limits, front);
      RunIsConcluded(limits, front);
      ApplyKeepsConcluded(Run(limits, front), limits, actions[|actions| - 1]);
    }
  }

  lemma {:induction false} RunIsSole(limits: S.Limits, actions: seq<Action>)
    requires forall a | a in actions :: Legal(a) && SoleClient(a)
    ensures SoleInv(Run(limits, actions))
  {
    if actions == [] {
      InitialIsSafe();
    } else {
      var front := actions[..|actions| - 1];
      RunIsSafe(limits, front);
      RunIsSole(limits, front);
      ApplyKeepsSole(Run(limits, front), limits, actions[|actions| - 1]);
    }
  }

  /**
   Over every interleaving, with lost, late and duplicated messages, crashes, other clients and
   operators: an identity is commanded at most once and pulsed at most once, and only commanded
   identities are pulsed.
   */
  lemma {:induction false} AtMostOnce(limits: S.Limits, actions: seq<Action>)
    requires forall a | a in actions :: Legal(a)
    ensures var w := Run(limits, actions);
            && (forall i, j | 0 <= i < j < |w.commands| :: w.commands[i].id != w.commands[j].id)
            && (forall i, j | 0 <= i < j < |w.owner.pulses| :: w.owner.pulses[i].id != w.owner.pulses[j].id)
            && (forall id :: O.Pulsed(w.owner.pulses, id) ==> Commanded(w.commands, id))
  {
    RunIsSafe(limits, actions);
  }

  // --- Every reply can be read ---------------------------------------------------------

  /** Every response on the wire is some handler's answer. */
  ghost predicate AnswersInv(replies: set<G.Response>) {
    forall response | response in replies :: exists id :: G.Answer(response, id)
  }

  lemma StageHandles(w: World, limits: S.Limits, h: nat, input: Input)
    requires S.Identified(w.gateway) && h in w.handlers && AnswersInv(w.replies)
    ensures AnswersInv(AdvanceHandler(w, limits, h, input).replies)
  {
    match w.handlers[h]
    case Lookup(id, submitting) => G.LookupHandles(S.Status(w.gateway, id), id, submitting);
    case Admit(id, safetyRefusal) =>
      var (gateway, outcome) := S.Begin(w.gateway, Seconds(w), id, limits, safetyRefusal);
      RowsOnlyGrow(w.gateway, Seconds(w), id, limits, safetyRefusal);
      G.AdmissionHandles(outcome, id);
      assert G.Handles(G.AfterAdmission(outcome, id), id);
    case Dispatch(id) => assert G.Handles(G.AfterCommand(input.ok, id), id);
    case Recover(id) => assert G.Handles(G.AfterRecovery(ReadOwner(w, id, input), id), id);
    case Await(id) => assert G.Handles(G.AfterPoll(ReadOwner(w, id, input), id), id);
    case Acknowledge(id) =>
      assert G.Handles(G.AfterAcknowledgement(S.Acknowledge(w.gateway, Seconds(w), id).1, id), id);
    case CheckSafety(id) =>
  }

  lemma ApplyKeepsAnswers(w: World, limits: S.Limits, a: Action)
    requires S.Identified(w.gateway) && AnswersInv(w.replies)
    ensures AnswersInv(Apply(w, limits, a).replies)
  {
    match a
    case Advance(h, input) =>
      if h in w.handlers {
        StageHandles(w, limits, h, input);
      }
    case Abandon(h, answered) =>
      if h in w.handlers {
        assert G.Answer(G.OutcomeResponse(504, w.handlers[h].id, G.Ambiguous), w.handlers[h].id);
      }
    case _ =>
  }

  lemma {:induction false} RunAnswers(limits: S.Limits, actions: seq<Action>)
    requires forall a | a in actions :: Legal(a)
    ensures AnswersInv(Run(limits, actions).replies)
  {
    if actions != [] {
      var front := actions[..|actions| - 1];
      RunIsSafe(limits, front);
      RunAnswers(limits, front);
      ApplyKeepsAnswers(Run(limits, front), limits, actions[|actions| - 1]);
    }
  }

  /** The daemon never rejects a status the gateway sent for the identity it asked about. */
  lemma AnswersAreRead(limits: S.Limits, actions: seq<Action>, response: G.Response, asked: Uuid)
    requires forall a | a in actions :: Legal(a)
    requires response in Run(limits, actions).replies
    ensures G.ReadFeedStatus(response, asked)
            == if response.body.StatusBody? && response.body.status.requestId == asked
               then Ok(response.body.status) else Err
  {
    RunAnswers(limits, actions);
    var id :| G.Answer(response, id);
    G.ClientReadsAnswer(response, id, asked);
  }

  /** The identities of attempts in a given state. */
  ghost function IdsIn(attempts: seq<L.Attempt>, statuses: set<L.AttemptStatus>): set<Uuid> {
    set i | 0 <= i < |attempts| && attempts[i].status in statuses :: attempts[i].id
  }

  ghost function PulsedIds(pulses: seq<O.Pulse>): set<Uuid> {
    set k | 0 <= k < |pulses| :: pulses[k].id
  }

  /** An automatic debit implies a durable completion of the owner, and a pulse, for that identity. */
  lemma {:induction false} DebitsAreDurable(limits: S.Limits, actions: seq<Action>, id: Uuid)
    requires forall a | a in actions :: Legal(a) && Unattended(a)
    requires L.HasKey(Run(limits, actions).feed.entries, L.FeedKey(id))
    ensures var w := Run(limits, actions);
            Durable(w.owner, id) && O.Pulsed(w.owner.pulses, id) && AttemptIs(w.feed, id, L.Confirmed)
  {
    RunIsSafe(limits, actions);
    RunIsConcluded(limits, actions);
    var w := Run(limits, actions);
    var k :| 0 <= k < |w.feed.entries| && w.feed.entries[k].key == L.FeedKey(id);
    assert L.DebitsMatch(w.feed.entries, w.feed.attempts);
    var i :| 0 <= i < |w.feed.attempts|
             && w.feed.attempts[i] == L.Attempt(id, L.Confirmed, -w.feed.entries[k].delta);
    assert w.feed.attempts[i].id == id;
  }

  lemma {:induction false} TombstonesStay(limits: S.Limits, actions: seq<Action>, more: seq<Action>, id: Uuid)
    requires forall a | a in actions + more :: Legal(a)
    requires id in Run(limits, actions).gateway.refusals
    ensures id in Run(limits, actions + more).gateway.refusals
  {
    if more == [] {
      assert actions + more == actions;
    } else {
      var front := more[..|more| - 1];
      assert (actions + more)[..|actions + more| - 1] == actions + front;
      TombstonesStay(limits, actions, front, id);
      RunIsSafe(limits, actions + front);
      ApplyOnlyLearns(Run(limits, actions + front), limits, more[|more| - 1]);
    }
  }

  /**
   If the daemon ever releases an attempt as not dispatched, no command for it was sent before and
   none is sent later, in any continuation and whatever safety state concurrent handlers observed.
   */
  lemma {:induction false} ReleasedIsNeverCommanded(limits: S.Limits, actions: seq<Action>, more: seq<Action>, id: Uuid)
    requires forall a | a in actions :: Unattended(a)
    requires forall a | a in actions + more :: Legal(a)
    requires AttemptIs(Run(limits, actions).feed, id, L.ReconciledNotFed)
    ensures var w := Run(limits, actions + more);
            && !Commanded(w.commands, id) && !O.Pulsed(w.owner.pulses, id)
            && (forall h | h in w.handlers :: w.handlers[h] != G.Dispatch(id))
  {
    forall a | a in actions ensures Legal(a) {
      assert a in actions + more;
    }
    RunIsConcluded(limits, actions);
    TombstonesStay(limits, actions, more, id);
    RunIsSafe(limits, actions + more);
  }

  /**
   Without operators and with this daemon as the only client, what was debited was pulsed, and
   what was pulsed was debited except for at most the one attempt that is still unresolved.
   */
  lemma {:induction false} PulsesAreConserved(limits: S.Limits, actions: seq<Action>)
    requires forall a | a in actions :: Legal(a) && Unattended(a) && SoleClient(a)
    ensures var w := Run(limits, actions);
            var pulsed, debited := PulsedIds(w.owner.pulses), IdsIn(w.feed.attempts, {L.Confirmed});
            var unresolved := IdsIn(w.feed.attempts, {L.IntentCommitted, L.Unknown});
            && debited <= pulsed <= debited + unresolved
            && |unresolved| <= 1
            && |debited| <= |w.owner.pulses| <= |debited| + 1
  {
    RunIsSafe(limits, actions);
    RunIsConcluded(limits, actions);
    RunIsSole(limits, actions);
    ConservedWhenConcluded(Run(limits, actions));
  }

  lemma ConservedWhenConcluded(w: World)
    requires SafeInv(w) && SoleInv(w) && ConcludedInv(w.feed, w.gateway, w.owner)
    ensures var pulsed, debited := PulsedIds(w.owner.pulses), IdsIn(w.feed.attempts, {L.Confirmed});
            var unresolved := IdsIn(w.feed.attempts, {L.IntentCommitted, L.Unknown});
            && debited <= pulsed <= debited + unresolved
            && |unresolved| <= 1
            && |debited| <= |w.owner.pulses| <= |debited| + 1
  {
    var pulsed, debited := PulsedIds(w.owner.pulses), IdsIn(w.feed.attempts, {L.Confirmed});
    var unresolved := IdsIn(w.feed.attempts, {L.IntentCommitted, L.Unknown});
    forall id | id in pulsed ensures id in debited + unresolved {
      PulsedIsAttempted(w, id);
    }
    forall id | id in debited ensures id in pulsed {
      assert O.Pulsed(w.owner.pulses, id);
    }
    AtMostOneUnresolved(w.feed.attempts);
    DistinctPulses(w.owner.pulses);
    Cardinalities(debited, pulsed, unresolved);
  }

  lemma PulsedIsAttempted(w: World, id: Uuid)
    requires SafeInv(w) && SoleInv(w) && ConcludedInv(w.feed, w.gateway, w.owner)
    requires O.Pulsed(w.owner.pulses, id)
    ensures id in IdsIn(w.feed.attempts, {L.Confirmed}) + IdsIn(w.feed.attempts, {L.IntentCommitted, L.Unknown})
  {
    assert Commanded(w.commands, id);
    assert HasRow(w.gateway, id);
    var i :| 0 <= i < |w.feed.attempts| && w.feed.attempts[i].id == id;
    assert w.feed.attempts[i].status != L.ReconciledNotFed;
  }

  lemma AtMostOneUnresolved(attempts: seq<L.Attempt>)
    requires L.AttemptsValid(attempts)
    ensures |IdsIn(attempts, {L.IntentCommitted, L.Unknown})| <= 1
  {
    var unresolved := IdsIn(attempts, {L.IntentCommitted, L.Unknown});
    if attempts != [] {
      var last := attempts[|attempts| - 1].id;
      assert unresolved <= {last};
      Cardinalities(unresolved, {last}, {});
    } else {
      assert unresolved == {};
    }
  }

  lemma {:induction false} DistinctPulses(pulses: seq<O.Pulse>)
    requires forall i, j | 0 <= i < j < |pulses| :: pulses[i].id != pulses[j].id
    ensures |PulsedIds(pulses)| == |pulses|
  {
    if pulses != [] {
      var front := pulses[..|pulses| - 1];
      DistinctPulses(front);
      assert PulsedIds(pulses) == PulsedIds(front) + {pulses[|pulses| - 1].id};
    }
  }

  lemma {:induction false} Cardinalities(a: set<Uuid>, b: set<Uuid>, c: set<Uuid>)
    requires a <= b
    ensures |a| <= |b|
    ensures b <= a + c ==> |b| <= |a| + |c|
  {
    assert b == a + (b - a);
    if b <= a + c {
      assert b - a <= c;
      assert c == (b - a) + (c - (b - a));
    }
  }
}
