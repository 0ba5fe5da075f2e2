/**
 Progress of the whole path: which unresolved attempts the parties can still settle by themselves. An
 attempt can be debited exactly when a confirmation is on its way or a read can still certify the
 completion; it can be released exactly when the gateway refused it or still can. Every other attempt
 waits for the owner's item to be restored, or for an operator.
 */
module FeedProgress {
  import opened Wrappers
  import opened FeedProtocol
  import opened FeedSafety
  import L = FeedLedger
  import S = GatewayStore
  import G = GatewayServer
  import O = FeederOwner
  import R = OwnerReader
  import W = FeedWorker

  // --- Continuations -----------------------------------------------------------------

  ghost function After(w: World, limits: S.Limits, more: seq<Action>): World {
    if more == [] then w else Apply(After(w, limits, more[..|more| - 1]), limits, more[|more| - 1])
  }

  lemma {:induction false} RunSplits(limits: S.Limits, actions: seq<Action>, more: seq<Action>)
    ensures Run(limits, actions + more) == After(Run(limits, actions), limits, more)
  {
    if more == [] {
      assert actions + more == actions;
    } else {
      var front := more[..|more| - 1];
      assert (actions + more)[..|actions + more| - 1] == actions + front;
      RunSplits(limits, actions, front);
    }
  }

  /**
   What the parties do of themselves while time passes and messages arrive: no crash, no stranger, no
   operator, no step of the owner. A read shows the owner's item and the rows it persisted.
   */
  predicate Ordinary(w: World, a: Action) {
    match a
    case Tick(_) => true
    case SendPost => true
    case PostAnswered(_) => true
    case PostFailed => true
    case Poll => true
    case PollAnswered(_) => true
    case PollFailed => true
    case Spawn(_, _, _) => true
    case Advance(h, input) =>
      && input.item == w.owner.item
      && (h in w.handlers ==>
            input.pages == R.AnswerPages(w.owner.history, w.owner.item, w.handlers[h].id))
    case _ => false
  }

  /** A continuation of ordinary actions only. */
  ghost predicate Orderly(w: World, limits: S.Limits, more: seq<Action>) {
    more == []
    || (Orderly(w, limits, more[..|more| - 1])
        && Ordinary(After(w, limits, more[..|more| - 1]), more[|more| - 1]))
  }

  lemma OneMore(w: World, limits: S.Limits, some: seq<Action>, a: Action)
    ensures After(w, limits, some + [a]) == Apply(After(w, limits, some), limits, a)
    ensures Orderly(w, limits, some + [a]) <==> Orderly(w, limits, some) && Ordinary(After(w, limits, some), a)
  {
    assert (some + [a])[..|some|] == some;
  }

  lemma JustOne(w: World, limits: S.Limits, a: Action)
    ensures After(w, limits, [a]) == Apply(w, limits, a)
    ensures Orderly(w, limits, [a]) <==> Ordinary(w, a)
  {
    OneMore(w, limits, [], a);
    assert [] + [a] == [a];
  }

  lemma {:induction false} Joined(w: World, limits: S.Limits, some: seq<Action>, more: seq<Action>)
    ensures After(w, limits, some + more) == After(After(w, limits, some), limits, more)
    ensures Orderly(w, limits, some) && Orderly(After(w, limits, some), limits, more) ==>
              Orderly(w, limits, some + more)
  {
    if more == [] {
      assert some + more == some;
    } else {
      var front := more[..|more| - 1];
      assert (some + more)[..|some + more| - 1] == some + front;
      Joined(w, limits, some, front);
    }
  }

  lemma {:induction false} OrderlyKeepsSafe(w: World, limits: S.Limits, more: seq<Action>)
    requires SafeInv(w) && Orderly(w, limits, more)
    ensures SafeInv(After(w, limits, more))
  {
    if more != [] {
      var front := more[..|more| - 1];
      OrderlyKeepsSafe(w, limits, front);
      ApplyKeepsSafe(After(w, limits, front), limits, more[|more| - 1]);
    }
  }

  lemma OrderlyKeepsLedger(w: World, limits: S.Limits, more: seq<Action>)
    requires SafeInv(w) && Orderly(w, limits, more)
    ensures L.Inv(After(w, limits, more).feed) && S.Identified(After(w, limits, more).gateway)
  {
    OrderlyKeepsSafe(w, limits, more);
  }

  // --- The owner's clock ---------------------------------------------------------------

  ghost predicate OwnerTimed(o: O.Owner, clock: nat) {
    O.Stamps(o, clock) && O.Tempo(o, clock) && R.MIN_TIME_MS <= clock && O.Dates(o, R.MIN_TIME_MS, clock)
  }

  lemma StepKeepsTimed(o: O.Owner, clock: nat, step: O.Step)
    requires O.Inv(o, clock) && OwnerTimed(o, clock)
    ensures OwnerTimed(O.Apply(o, clock, step), clock)
  {
    O.ApplyKeepsStamps(o, clock, clock, step);
    O.ApplyKeepsTempo(o, clock, clock, step);
    O.ApplyKeepsDates(o, R.MIN_TIME_MS, clock, clock, step);
  }

  lemma TimeKeepsTimed(o: O.Owner, before: nat, clock: nat)
    requires OwnerTimed(o, before) && before <= clock
    ensures OwnerTimed(o, clock)
  {
    O.TimeKeepsStamps(o, before, clock);
    O.TimeKeepsTempo(o, before, clock);
    O.TimeKeepsDates(o, R.MIN_TIME_MS, before, clock);
  }

  lemma ApplyKeepsTimed(w: World, limits: S.Limits, a: Action)
    requires O.Inv(w.owner, w.clock) && OwnerTimed(w.owner, w.clock)
    ensures var v := Apply(w, limits, a); OwnerTimed(v.owner, v.clock)
  {
    OwnerMoves(w, limits, a);
    if a.OwnerStep? {
      StepKeepsTimed(w.owner, w.clock, a.step);
    } else {
      TimeKeepsTimed(w.owner, w.clock, Apply(w, limits, a).clock);
    }
  }

  /** The run starts after the year 2000, the earliest time the reader supports. */
  predicate StartsInRange(actions: seq<Action>) {
    actions != [] && actions[0].Tick? && actions[0].ms >= R.MIN_TIME_MS
  }

  lemma {:induction false} RunIsTimed(limits: S.Limits, actions: seq<Action>)
    requires StartsInRange(actions) && forall a | a in actions :: Legal(a)
    ensures var w := Run(limits, actions); OwnerTimed(w.owner, w.clock)
  {
    var front := actions[..|actions| - 1];
    if front == [] {
    } else {
      RunIsTimed(limits, front);
      RunIsSafe(limits, front);
      ApplyKeepsTimed(Run(limits, front), limits, actions[|actions| - 1]);
    }
  }

  // --- The worker comes to rest --------------------------------------------------------

  /** The one unresolved attempt. */
  ghost predicate Waits(t: L.Tables, i: nat, id: Uuid) {
    i < |t.attempts| && t.attempts[i].id == id && L.Unresolved(t.attempts[i])
  }

  /** Nothing moved but the daemon, and its request, if it still had one to send, is on the wire. */
  ghost predicate SameOutside(w: World, v: World) {
    && v.clock == w.clock && v.gateway == w.gateway && v.handlers == w.handlers
    && v.owner == w.owner && v.replies == w.replies
    && w.posts <= v.posts && (w.worker.Posting? ==> w.worker.id in v.posts)
  }

  /** The worker polls for the attempt, which still waits, and nothing else moved. */
  ghost predicate Polling(w: World, v: World, i: nat, id: Uuid) {
    Waits(v.feed, i, id) && v.worker == AwaitingPoll(id, v.feed.attempts[i].status) && SameOutside(w, v)
  }

  lemma PostGivenUp(w: World, limits: S.Limits, i: nat, id: Uuid)
    requires w.worker.AwaitingPost? && Waits(w.feed, i, id)
    ensures var v := Apply(w, limits, PostFailed); v.worker.Resting? && Waits(v.feed, i, id) && SameOutside(w, v)
  {
  }

  lemma PollStarts(w: World, limits: S.Limits, i: nat, id: Uuid)
    requires L.AttemptsValid(w.feed.attempts) && w.worker.Resting? && Waits(w.feed, i, id)
    ensures Polling(w, Apply(w, limits, Poll), i, id)
  {
  }

  /** Whatever the worker is doing fails or is given up, and it polls for the attempt. */
  lemma WorkerPolls(w: World, limits: S.Limits, i: nat, id: Uuid) returns (more: seq<Action>)
    requires SafeInv(w) && Waits(w.feed, i, id)
    ensures Orderly(w, limits, more) && Polling(w, After(w, limits, more), i, id)
  {
    match w.worker
    case Resting => more := RestingPolls(w, limits, i, id);
    case AwaitingPoll(_, _) => more := GivesUp(w, limits, PollFailed, i, id);
    case AwaitingPost(_) =>
      PostGivenUp(w, limits, i, id);
      more := GivesUp(w, limits, PostFailed, i, id);
    case Posting(_) =>
      var sent := Apply(w, limits, SendPost);
      JustOne(w, limits, SendPost);
      ApplyKeepsSafe(w, limits, SendPost);
      PostGivenUp(sent, limits, i, id);
      var rest := GivesUp(sent, limits, PostFailed, i, id);
      Joined(w, limits, [SendPost], rest);
      more := [SendPost] + rest;
  }

  lemma RestingPolls(w: World, limits: S.Limits, i: nat, id: Uuid) returns (more: seq<Action>)
    requires SafeInv(w) && w.worker.Resting? && Waits(w.feed, i, id)
    ensures Orderly(w, limits, more) && Polling(w, After(w, limits, more), i, id)
  {
    PollStarts(w, limits, i, id);
    JustOne(w, limits, Poll);
    more := [Poll];
  }

  /** One action ends what the worker is waiting for; then it polls. */
  lemma GivesUp(w: World, limits: S.Limits, a: Action, i: nat, id: Uuid) returns (more: seq<Action>)
    requires SafeInv(w) && (a.PostFailed? || a.PollFailed?) && !w.worker.Posting?
    requires var v := Apply(w, limits, a); v.worker.Resting? && Waits(v.feed, i, id) && SameOutside(w, v)
    ensures Orderly(w, limits, more) && Polling(w, After(w, limits, more), i, id)
  {
    ApplyKeepsSafe(w, limits, a);
    JustOne(w, limits, a);
    var rest := RestingPolls(Apply(w, limits, a), limits, i, id);
    Joined(w, limits, [a], rest);
    more := [a] + rest;
  }

  // --- What a handler can do for an attempt --------------------------------------------

  /** The same world with handler `h` at another stage. */
  function At(w: World, h: nat, task: G.Task): World { w.(handlers := w.handlers[h := task]) }

  /** What an ordinary read gives a handler for `id`. */
  function Reading(o: O.Owner, id: Uuid, unsafeState: bool): Input {
    Input(unsafeState, false, false, o.item, R.ResultEmpty, R.AnswerPages(o.history, o.item, id))
  }

  lemma {:induction false} HandlersAreFinite(handlers: set<nat>) returns (h: nat)
    ensures forall x | x in handlers :: x < h
  {
    if x :| x in handlers {
      var rest := HandlersAreFinite(handlers - {x});
      h := if x < rest then rest else x + 1;
      forall y | y in handlers ensures y < h {
        assert y == x || y in handlers - {x};
      }
    } else {
      h := 0;
    }
  }

  /** The daemon is where it was. */
  ghost predicate SameDaemon(w: World, v: World) { v.feed == w.feed && v.worker == w.worker }

  /** Handler `h` is advanced while it stays with its identity. */
  lemma Advances(w: World, limits: S.Limits, h: nat, unsafeState: bool)
    requires h in w.handlers
    ensures var a := Advance(h, Reading(w.owner, w.handlers[h].id, unsafeState));
            && After(w, limits, [a]) == AdvanceHandler(w, limits, h, a.input)
            && Orderly(w, limits, [a])
            && SameDaemon(w, After(w, limits, [a]))
  {
    JustOne(w, limits, Advance(h, Reading(w.owner, w.handlers[h].id, unsafeState)));
  }

  // --- A confirmation can still arrive -------------------------------------------------

  ghost predicate Confirmed(w: World, id: Uuid) { G.OutcomeResponse(200, id, G.Confirmed) in w.replies }

  /** At some clock reading, a read of the owner's item certifies the completion. */
  ghost predicate Visible(o: O.Owner, id: Uuid) {
    exists later: int :: R.Certifiable(o, o.item, id, later)
  }

  ghost predicate Acknowledging(w: World, id: Uuid) {
    exists h | h in w.handlers :: w.handlers[h] == G.Acknowledge(id)
  }

  /**
   The daemon can still learn of the feeding: a confirmation is on the wire, the row is acknowledged, a
   handler is about to acknowledge it, or the owner's item shows a certifiable completion.
   */
  ghost predicate Debitable(w: World, id: Uuid) {
    || Confirmed(w, id)
    || S.Status(w.gateway, id) == Some(S.StoredAcknowledged)
    || Acknowledging(w, id)
    || Visible(w.owner, id)
  }

  lemma DurableHasRow(w: World, id: Uuid)
    requires SafeInv(w) && Durable(w.owner, id)
    ensures HasRow(w.gateway, id)
  {
    assert O.Pulsed(w.owner.pulses, id);
    assert Commanded(w.commands, id);
  }

  lemma StageConfirms(w: World, limits: S.Limits, h: nat, id: Uuid) returns (more: seq<Action>)
    requires h in w.handlers
    requires || (w.handlers[h] == G.Lookup(id, false) && S.Status(w.gateway, id) == Some(S.StoredAcknowledged))
             || (w.handlers[h] == G.Acknowledge(id) && HasRow(w.gateway, id))
    ensures Orderly(w, limits, more)
    ensures var v := After(w, limits, more); Confirmed(v, id) && SameDaemon(w, v)
  {
    Advances(w, limits, h, false);
    more := [Advance(h, Reading(w.owner, id, false))];
  }

  lemma RecoveryCertifies(w: World, limits: S.Limits, h: nat, id: Uuid) returns (more: seq<Action>)
    requires O.Inv(w.owner, w.clock) && OwnerTimed(w.owner, w.clock)
    requires R.Certifiable(w.owner, w.owner.item, id, w.clock)
    requires h in w.handlers && w.handlers[h] == G.Recover(id) && HasRow(w.gateway, id)
    ensures Orderly(w, limits, more)
    ensures var v := After(w, limits, more); Confirmed(v, id) && SameDaemon(w, v)
  {
    R.ReadIsExact(w.owner, w.owner.item, R.ResultEmpty, id, w.clock);
    R.AnswersAreFaithful(w.owner.history, w.owner.item, id);
    Advances(w, limits, h, false);
    var read := [Advance(h, Reading(w.owner, id, false))];
    assert After(w, limits, read) == At(w, h, G.Acknowledge(id));
    var rest := StageConfirms(At(w, h, G.Acknowledge(id)), limits, h, id);
    Joined(w, limits, read, rest);
    more := read + rest;
  }

  /** The handler of a status request, whatever the row's status. */
  lemma LookupIsConfirmed(w: World, limits: S.Limits, h: nat, id: Uuid) returns (more: seq<Action>)
    requires O.Inv(w.owner, w.clock) && OwnerTimed(w.owner, w.clock) && HasRow(w.gateway, id)
    requires S.Status(w.gateway, id) == Some(S.StoredAcknowledged) || R.Certifiable(w.owner, w.owner.item, id, w.clock)
    requires h in w.handlers && w.handlers[h] == G.Lookup(id, false)
    ensures Orderly(w, limits, more)
    ensures var v := After(w, limits, more); Confirmed(v, id) && SameDaemon(w, v)
  {
    if S.Status(w.gateway, id) == Some(S.StoredAcknowledged) {
      more := StageConfirms(w, limits, h, id);
    } else {
      Advances(w, limits, h, false);
      var look := [Advance(h, Reading(w.owner, id, false))];
      assert After(w, limits, look) == At(w, h, G.Recover(id));
      var rest := RecoveryCertifies(At(w, h, G.Recover(id)), limits, h, id);
      Joined(w, limits, look, rest);
      more := look + rest;
    }
  }

  /** A new handler starts on a status request. */
  lemma Asks(w: World, limits: S.Limits, h: nat, id: Uuid, submitting: bool)
    requires h !in w.handlers && (submitting ==> id in w.posts)
    ensures After(w, limits, [Spawn(h, id, submitting)]) == At(w, h, G.Lookup(id, submitting))
    ensures Orderly(w, limits, [Spawn(h, id, submitting)])
  {
    JustOne(w, limits, Spawn(h, id, submitting));
  }

  lemma RequestIsConfirmed(w: World, limits: S.Limits, id: Uuid) returns (more: seq<Action>)
    requires O.Inv(w.owner, w.clock) && OwnerTimed(w.owner, w.clock) && HasRow(w.gateway, id)
    requires S.Status(w.gateway, id) == Some(S.StoredAcknowledged) || R.Certifiable(w.owner, w.owner.item, id, w.clock)
    ensures Orderly(w, limits, more)
    ensures var v := After(w, limits, more); Confirmed(v, id) && SameDaemon(w, v)
  {
    var h := HandlersAreFinite(w.handlers.Keys);
    assert h !in w.handlers;
    Asks(w, limits, h, id, false);
    var rest := LookupIsConfirmed(At(w, h, G.Lookup(id, false)), limits, h, id);
    Joined(w, limits, [Spawn(h, id, false)], rest);
    more := [Spawn(h, id, false)] + rest;
  }

  /** The item shows a certifiable completion, perhaps only after its last time stamp has passed. */
  lemma VisibleIsConfirmed(w: World, limits: S.Limits, id: Uuid) returns (more: seq<Action>)
    requires SafeInv(w) && OwnerTimed(w.owner, w.clock) && Visible(w.owner, id)
    ensures Orderly(w, limits, more)
    ensures var v := After(w, limits, more); Confirmed(v, id) && SameDaemon(w, v)
  {
    var later: int :| R.Certifiable(w.owner, w.owner.item, id, later);
    var wait := Tick(Max(0, later - w.clock));
    var v := Apply(w, limits, wait);
    R.CertifiableLater(w.owner, w.owner.item, id, later, v.clock);
    ApplyKeepsSafe(w, limits, wait);
    ApplyKeepsTimed(w, limits, wait);
    VisibleIsDurable(v.owner, id, v.clock);
    DurableHasRow(v, id);
    JustOne(w, limits, wait);
    var rest := RequestIsConfirmed(v, limits, id);
    Joined(w, limits, [wait], rest);
    more := [wait] + rest;
  }

  lemma VisibleIsDurable(o: O.Owner, id: Uuid, now: int)
    requires R.Certifiable(o, o.item, id, now)
    ensures Durable(o, id)
  {
    var updatedAt := O.Receipt(o.item.value, id).value.updatedAt.value;
    var k :| 0 <= k < |o.history| && O.IsComplete(o.history[k].ledger, id)
             && o.history[k].at <= updatedAt + R.WINDOW_MS;
  }

  lemma ConfirmationArrives(w: World, limits: S.Limits, id: Uuid) returns (more: seq<Action>)
    requires SafeInv(w) && OwnerTimed(w.owner, w.clock) && Debitable(w, id)
    ensures Orderly(w, limits, more)
    ensures var v := After(w, limits, more); Confirmed(v, id) && SameDaemon(w, v)
  {
    if Confirmed(w, id) {
      more := [];
    } else if Visible(w.owner, id) {
      more := VisibleIsConfirmed(w, limits, id);
    } else if h :| h in w.handlers && w.handlers[h] == G.Acknowledge(id) {
      DurableHasRow(w, id);
      more := StageConfirms(w, limits, h, id);
    } else {
      assert HasRow(w.gateway, id);
      more := RequestIsConfirmed(w, limits, id);
    }
  }

  // --- The debit ---------------------------------------------------------------------

  ghost predicate Debited(w: World, id: Uuid) { L.HasKey(w.feed.entries, L.FeedKey(id)) }

  /** A delivered confirmation debits the polled attempt. */
  lemma AnswerDebits(w: World, limits: S.Limits, i: nat, id: Uuid)
    requires L.Inv(w.feed) && Waits(w.feed, i, id) && Confirmed(w, id)
    requires w.worker == AwaitingPoll(id, w.feed.attempts[i].status)
    ensures Debited(Apply(w, limits, PollAnswered(G.OutcomeResponse(200, id, G.Confirmed))), id)
  {
    L.FedResult(w.feed, id, w.feed.attempts[i].status);
    assert L.Debited(w.feed, i).entries[|w.feed.entries|].key == L.FeedKey(id);
  }

  lemma PolledIsDebited(w: World, limits: S.Limits, i: nat, id: Uuid) returns (more: seq<Action>)
    requires SafeInv(w) && OwnerTimed(w.owner, w.clock) && Debitable(w, id)
    requires Waits(w.feed, i, id) && w.worker == AwaitingPoll(id, w.feed.attempts[i].status)
    ensures Orderly(w, limits, more) && Debited(After(w, limits, more), id)
  {
    var middle := ConfirmationArrives(w, limits, id);
    var answer := PollAnswered(G.OutcomeResponse(200, id, G.Confirmed));
    OneMore(w, limits, middle, answer);
    AnswerDebits(After(w, limits, middle), limits, i, id);
    more := middle + [answer];
  }

  /** From a debitable state: let the worker poll, let the confirmation be made, and deliver it. */
  lemma DebitFollows(w: World, limits: S.Limits, i: nat, id: Uuid) returns (more: seq<Action>)
    requires SafeInv(w) && OwnerTimed(w.owner, w.clock) && Waits(w.feed, i, id) && Debitable(w, id)
    ensures Orderly(w, limits, more) && Debited(After(w, limits, more), id)
  {
    var first := WorkerPolls(w, limits, i, id);
    OrderlyKeepsSafe(w, limits, first);
    var rest := PolledIsDebited(After(w, limits, first), limits, i, id);
    Joined(w, limits, first, rest);
    more := first + rest;
  }

  // --- No other attempt is ever debited ------------------------------------------------

  /**
   Anything may happen except a step of the owner or an operator's verdict: crashes, strangers, lost
   messages. A read of the item shows it or fails.
   */
  predicate Untouched(w: World, a: Action) {
    && Legal(a) && !a.OwnerStep? && !a.OperatorFed?
    && (a.Advance? ==> a.input.item == None || a.input.item == w.owner.item)
  }

  ghost predicate Undisturbed(w: World, limits: S.Limits, more: seq<Action>) {
    more == []
    || (Undisturbed(w, limits, more[..|more| - 1])
        && Untouched(After(w, limits, more[..|more| - 1]), more[|more| - 1]))
  }

  lemma ProceedStaysUndebitable(w: World, h: nat, p: G.Progress, id: Uuid)
    requires h in w.handlers && !Debitable(w, id)
    requires p != G.Continue(G.Acknowledge(id)) && p != G.Reply(G.OutcomeResponse(200, id, G.Confirmed))
    ensures !Debitable(Proceed(w, h, p), id)
  {
  }

  lemma RowsStayUndebitable(w: World, gateway: S.Tables, id: Uuid)
    requires !Debitable(w, id) && S.Status(gateway, id) != Some(S.StoredAcknowledged)
    ensures !Debitable(w.(gateway := gateway), id)
  {
  }

  lemma MoreRowsStatus(t: S.Tables, u: S.Tables, row: S.Request, other: Uuid)
    requires S.Identified(t) && row.status == S.Pending && u.requests == t.requests + [row]
    ensures S.Status(u, other) == Some(S.StoredAcknowledged) ==> S.Status(t, other) == Some(S.StoredAcknowledged)
  {
    assert u.requests[..|t.requests|] == t.requests;
  }

  /** Admission acknowledges nothing. */
  lemma BeginStatus(t: S.Tables, now: int, id: Uuid, limits: S.Limits, safetyRefusal: bool, other: Uuid)
    requires S.Identified(t)
    ensures var (u, outcome) := S.Begin(t, now, id, limits, safetyRefusal);
            && (S.Status(u, other) == Some(S.StoredAcknowledged) ==> S.Status(t, other) == Some(S.StoredAcknowledged))
            && (outcome == Ok(S.AlreadyAcknowledged) ==> S.Status(t, id) == Some(S.StoredAcknowledged))
  {
    var (u, outcome) := S.Begin(t, now, id, limits, safetyRefusal);
    if outcome == Ok(S.New) {
      MoreRowsStatus(t, u, S.Request(id, S.Pending, now, now), other);
    }
  }

  lemma AcknowledgeStatus(t: S.Tables, now: int, id: Uuid, other: Uuid)
    requires S.Identified(t) && other != id
    ensures S.Status(S.Acknowledge(t, now, id).0, other) == S.Status(t, other)
  {
    var u := S.Acknowledge(t, now, id).0;
    if S.Find(t.requests, other).Some? {
      var i := S.Find(t.requests, other).value;
      assert u.requests[i].id == other;
    }
  }

  lemma AdmitStaysUndebitable(w: World, limits: S.Limits, h: nat, input: Input, id: Uuid)
    requires S.Identified(w.gateway) && h in w.handlers && w.handlers[h].Admit? && !Debitable(w, id)
    ensures !Debitable(AdvanceHandler(w, limits, h, input), id)
  {
    var x, safetyRefusal := w.handlers[h].id, w.handlers[h].safetyRefusal;
    var (gateway, outcome) := S.Begin(w.gateway, Seconds(w), x, limits, safetyRefusal);
    BeginStatus(w.gateway, Seconds(w), x, limits, safetyRefusal, id);
    RowsStayUndebitable(w, gateway, id);
    ProceedStaysUndebitable(w.(gateway := gateway), h, G.AfterAdmission(outcome, x), id);
  }

  lemma AcknowledgeStaysUndebitable(w: World, limits: S.Limits, h: nat, input: Input, id: Uuid)
    requires S.Identified(w.gateway) && h in w.handlers && w.handlers[h].Acknowledge? && !Debitable(w, id)
    ensures !Debitable(AdvanceHandler(w, limits, h, input), id)
  {
    var x := w.handlers[h].id;
    var (gateway, outcome) := S.Acknowledge(w.gateway, Seconds(w), x);
    AcknowledgeStatus(w.gateway, Seconds(w), x, id);
    RowsStayUndebitable(w, gateway, id);
    ProceedStaysUndebitable(w.(gateway := gateway), h, G.AfterAcknowledgement(outcome, x), id);
  }

  lemma CommandStaysUndebitable(w: World, limits: S.Limits, h: nat, input: Input, id: Uuid)
    requires h in w.handlers && w.handlers[h].Dispatch? && !Debitable(w, id)
    ensures !Debitable(AdvanceHandler(w, limits, h, input), id)
  {
    var x := w.handlers[h].id;
    var sent := if input.delivered then w.commands + [O.Request(x, w.clock)] else w.commands;
    ProceedStaysUndebitable(w.(commands := sent), h, G.AfterCommand(input.ok, x), id);
  }

  lemma OwnerReadStaysUndebitable(w: World, limits: S.Limits, h: nat, input: Input, id: Uuid)
    requires SafeInv(w) && (input.item == None || input.item == w.owner.item) && !Debitable(w, id)
    requires h in w.handlers && (w.handlers[h].Recover? || w.handlers[h].Await?)
    ensures !Debitable(AdvanceHandler(w, limits, h, input), id)
  {
    var x := w.handlers[h].id;
    var read := ReadOwner(w, x, input);
    ReadStaysUndebitable(w, x, input, id);
    ProceedStaysUndebitable(
      w, h, if w.handlers[h].Recover? then G.AfterRecovery(read, x) else G.AfterPoll(read, x), id);
  }

  /** A confirmation is only ever made from an acknowledged row or by an acknowledging handler. */
  lemma StageStaysUndebitable(w: World, limits: S.Limits, h: nat, input: Input, id: Uuid)
    requires SafeInv(w) && h in w.handlers && (input.item == None || input.item == w.owner.item)
    requires !Debitable(w, id)
    ensures !Debitable(AdvanceHandler(w, limits, h, input), id)
  {
    var task := w.handlers[h];
    if task.Lookup? {
      ProceedStaysUndebitable(w, h, G.AfterLookup(S.Status(w.gateway, task.id), task.id, task.submitting), id);
    } else if task.CheckSafety? {
      ProceedStaysUndebitable(w, h, G.Continue(G.Admit(task.id, input.unsafeState)), id);
    } else if task.Admit? {
      AdmitStaysUndebitable(w, limits, h, input, id);
    } else if task.Dispatch? {
      CommandStaysUndebitable(w, limits, h, input, id);
    } else if task.Acknowledge? {
      AcknowledgeStaysUndebitable(w, limits, h, input, id);
    } else {
      OwnerReadStaysUndebitable(w, limits, h, input, id);
    }
  }

  lemma ReadStaysUndebitable(w: World, x: Uuid, input: Input, id: Uuid)
    requires SafeInv(w) && (input.item == None || input.item == w.owner.item) && !Debitable(w, id)
    ensures ReadOwner(w, x, input) == Ok(R.OutcomeComplete) ==> x != id
  {
    if ReadOwner(w, x, input) == Ok(R.OutcomeComplete) {
      R.CompleteIsCertifiable(w.owner, input.item, input.note, input.pages, x, w.clock);
    }
  }

  lemma FrameStaysUndebitable(w: World, v: World, id: Uuid)
    requires !Debitable(w, id) && Frame(w, v) && v.owner == w.owner
    ensures !Debitable(v, id)
  {
  }

  lemma OthersStayUndebitable(w: World, limits: S.Limits, a: Action, id: Uuid)
    requires !a.Advance? && !a.OwnerStep? && !Debitable(w, id)
    ensures !Debitable(Apply(w, limits, a), id)
  {
    OthersKeepFrame(w, limits, a);
    OthersLeaveHistory(w, limits, a);
    FrameStaysUndebitable(w, Apply(w, limits, a), id);
  }

  lemma ApplyStaysUndebitable(w: World, limits: S.Limits, a: Action, id: Uuid)
    requires SafeInv(w) && !Debitable(w, id) && Untouched(w, a)
    ensures !Debitable(Apply(w, limits, a), id)
  {
    if !a.Advance? {
      OthersStayUndebitable(w, limits, a, id);
    } else if a.handler in w.handlers {
      StageStaysUndebitable(w, limits, a.handler, a.input, id);
    }
  }

  /** Only a resolution as fed writes the debit. */
  lemma DebitNeedsFedStep(t: L.Tables, step: L.Step, id: Uuid)
    requires L.Legal(step) && !L.HasKey(t.entries, L.FeedKey(id))
    ensures L.HasKey(L.Apply(t, step).entries, L.FeedKey(id)) ==> step.FedStep? && step.id == id
  {
  }

  /** The daemon resolves as fed only on a confirmation. */
  lemma FedNeedsConfirmation(w: World, a: Action, id: Uuid)
    requires AnswersInv(w.replies) && Untouched(w, a)
    requires LedgerStep(w, a).Some? && LedgerStep(w, a).value.FedStep? && LedgerStep(w, a).value.id == id
    ensures Confirmed(w, id)
  {
    var x :| G.Answer(a.response, x);
    G.ClientReadsAnswer(a.response, x, id);
  }

  lemma ApplyStaysUndebited(w: World, limits: S.Limits, a: Action, id: Uuid)
    requires SafeInv(w) && AnswersInv(w.replies) && !Debitable(w, id) && Untouched(w, a) && !Debited(w, id)
    ensures !Debited(Apply(w, limits, a), id)
  {
    ApplyIsLedgerStep(w, limits, a);
    var step := LedgerStep(w, a);
    if step.Some? {
      DebitNeedsFedStep(w.feed, step.value, id);
      if step.value.FedStep? && step.value.id == id {
        FedNeedsConfirmation(w, a, id);
      }
    }
  }

  /** An attempt that is not debitable stays undebited, whatever else happens. */
  lemma {:induction false} NeverDebited(w: World, limits: S.Limits, more: seq<Action>, id: Uuid)
    requires SafeInv(w) && AnswersInv(w.replies) && !Debitable(w, id) && !Debited(w, id)
    requires Undisturbed(w, limits, more)
    ensures var v := After(w, limits, more);
            SafeInv(v) && AnswersInv(v.replies) && !Debitable(v, id) && !Debited(v, id)
  {
    if more != [] {
      var front, last := more[..|more| - 1], more[|more| - 1];
      NeverDebited(w, limits, front, id);
      var v := After(w, limits, front);
      ApplyKeepsSafe(v, limits, last);
      ApplyKeepsAnswers(v, limits, last);
      ApplyStaysUndebitable(v, limits, last, id);
      ApplyStaysUndebited(v, limits, last, id);
    }
  }

  lemma {:induction false} OrderlyIsUndisturbed(w: World, limits: S.Limits, more: seq<Action>)
    requires Orderly(w, limits, more)
    ensures Undisturbed(w, limits, more)
  {
    if more != [] {
      OrderlyIsUndisturbed(w, limits, more[..|more| - 1]);
    }
  }

  lemma UnresolvedIsUndebited(t: L.Tables, i: nat, id: Uuid)
    requires L.AttemptsValid(t.attempts) && L.DebitsMatch(t.entries, t.attempts) && Waits(t, i, id)
    ensures !L.HasKey(t.entries, L.FeedKey(id))
  {
  }

  ghost predicate Debits(w: World, limits: S.Limits, more: seq<Action>, id: Uuid) {
    Orderly(w, limits, more) && Debited(After(w, limits, more), id)
  }

  /**
   In every reachable state an unresolved attempt can still be debited by ordinary actions alone if and
   only if it is debitable. If it is not, no continuation without a step of the owner or an operator's
   verdict ever debits it, crashes and strangers included.
   */
  lemma DebitableExactly(limits: S.Limits, actions: seq<Action>, i: nat, id: Uuid)
    requires StartsInRange(actions) && forall a | a in actions :: Legal(a)
    requires Waits(Run(limits, actions).feed, i, id)
    ensures var w := Run(limits, actions);
            && (Debitable(w, id) <==> exists more :: Debits(w, limits, more, id))
            && (!Debitable(w, id) ==>
                  forall more | Undisturbed(w, limits, more) :: !Debited(Run(limits, actions + more), id))
  {
    var w := Run(limits, actions);
    RunIsSafe(limits, actions);
    RunIsTimed(limits, actions);
    RunAnswers(limits, actions);
    UnresolvedIsUndebited(w.feed, i, id);
    if Debitable(w, id) {
      var more := DebitFollows(w, limits, i, id);
      assert Debits(w, limits, more, id);
    } else {
      forall more | Undisturbed(w, limits, more) ensures !Debited(Run(limits, actions + more), id) {
        NeverDebited(w, limits, more, id);
        RunSplits(limits, actions, more);
      }
      forall more ensures !Debits(w, limits, more, id) {
        if Debits(w, limits, more, id) {
          OrderlyIsUndisturbed(w, limits, more);
          NeverDebited(w, limits, more, id);
          assert false;
        }
      }
    }
  }
}
