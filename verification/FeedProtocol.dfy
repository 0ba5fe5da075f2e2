/**
 The whole path from an attempt to the actuator: daemon (src/feeder/mod.rs and src/ledger/feed.rs),
 gateway (src/gateway/server.rs, src/gateway/store.rs), owner (deploy/openhab/feeder-owner-v2.js)
 and recovery reader (src/openhab.rs), composed from the transition functions of their own modules.

 Every request, response and command ever sent stays on the wire: it may be delivered late, any
 number of times, out of order, or never. Any party may crash between any two steps. The one clock
 counts milliseconds and never goes back.
 */
module FeedProtocol {
  import opened Wrappers
  import L = FeedLedger
  import S = GatewayStore
  import G = GatewayServer
  import O = FeederOwner
  import R = OwnerReader
  import W = FeedWorker

  /** The worker's position inside `run_feed_step`. */
  datatype Worker =
    | Resting
    | Posting(id: Uuid)       // intent committed, POST not sent yet
    | AwaitingPost(id: Uuid)
    | AwaitingPoll(id: Uuid, stored: L.AttemptStatus)

  datatype World = World(
    clock: nat,
    feed: L.Tables,
    worker: Worker,
    posts: set<Uuid>,            // POST requests on the wire
    gateway: S.Tables,
    handlers: map<nat, G.Task>,
    commands: seq<O.Request>,    // item commands on the wire
    replies: set<G.Response>,    // HTTP responses on the wire
    owner: O.Owner)

  const INITIAL: World := World(0, L.EMPTY, Resting, {}, S.EMPTY, map[], [], {}, O.INITIAL)

  /** What a handler receives when it advances: only the part its stage needs is used. */
  datatype Input = Input(
    unsafeState: bool, delivered: bool, ok: bool,
    item: Option<O.Ledger>, note: R.ResultItem, pages: seq<R.Page>)

  datatype Action =
    | Tick(ms: nat)
    | Receive(key: L.SourceKey, amount: nat)
    | BeginFeed(threshold: nat, newId: Uuid)
    | SendPost
    | PostAnswered(response: G.Response)
    | PostFailed
    | Poll
    | PollAnswered(response: G.Response)
    | PollFailed
    | DaemonRestart
    | Spawn(handler: nat, id: Uuid, submitting: bool)
    | Advance(handler: nat, input: Input)
    | Abandon(handler: nat, answered: bool)
    | GatewayRestart
    | OwnerStep(step: O.Step)
    | ForeignPost(id: Uuid)
    | OperatorFed(id: Uuid)
    | OperatorNotFed(id: Uuid)

  function Seconds(w: World): nat { w.clock / 1000 }

  // --- The daemon ----------------------------------------------------------------

  function PostResult(w: World, response: G.Response): World {
    if !w.worker.AwaitingPost? || response !in w.replies then w
    else
      var id := w.worker.id;
      match G.ReadFeedStatus(response, id)
      case Ok(s) =>
        w.(feed := W.ApplyOutcome(w.feed, Seconds(w), id, L.IntentCommitted, s), worker := Resting)
      case Err => w.(feed := L.MarkUnknown(w.feed, id).0, worker := Resting)
  }

  function PollResult(w: World, response: G.Response): World {
    if !w.worker.AwaitingPoll? || response !in w.replies then w
    else
      var id := w.worker.id;
      match G.ReadFeedStatus(response, id)
      case Ok(s) =>
        w.(feed := W.ApplyOutcome(w.feed, Seconds(w), id, w.worker.stored, s), worker := Resting)
      case Err => w.(worker := Resting)
  }

  function StartPoll(w: World): World {
    match L.FindUnresolved(w.feed.attempts)
    case None => w
    case Some(i) =>
      if !w.worker.Resting? then w
      else w.(worker := AwaitingPoll(w.feed.attempts[i].id, w.feed.attempts[i].status))
  }

  /** A new identity is one no client has used: `Uuid::new_v4()` does not collide. */
  function StartFeed(w: World, threshold: nat, newId: Uuid): World {
    if !w.worker.Resting? || newId in w.posts then w
    else
      var (feed, begun) := L.BeginAttempt(w.feed, Seconds(w), threshold, newId);
      if begun == Ok(Some(newId)) then w.(feed := feed, worker := Posting(newId)) else w
  }

  // --- The gateway ---------------------------------------------------------------

  function Proceed(w: World, h: nat, p: G.Progress): World {
    match p
    case Continue(task) => w.(handlers := w.handlers[h := task])
    case Reply(response) => w.(handlers := w.handlers - {h}, replies := w.replies + {response})
  }

  /** One stage of handler `h`: at most one store transaction, one owner read or one command. */
  ghost function AdvanceHandler(w: World, limits: S.Limits, h: nat, input: Input): World
    requires h in w.handlers
  {
    match w.handlers[h]
    case Lookup(id, submitting) => Proceed(w, h, G.AfterLookup(S.Status(w.gateway, id), id, submitting))
    case CheckSafety(id) => Proceed(w, h, G.Continue(G.Admit(id, input.unsafeState)))
    case Admit(id, safetyRefusal) =>
      var (gateway, outcome) := S.Begin(w.gateway, Seconds(w), id, limits, safetyRefusal);
      Proceed(w.(gateway := gateway), h, G.AfterAdmission(outcome, id))
    case Dispatch(id) =>
      var sent := if input.delivered then w.commands + [O.Request(id, w.clock)] else w.commands;
      Proceed(w.(commands := sent), h, G.AfterCommand(input.ok, id))
    case Recover(id) => Proceed(w, h, G.AfterRecovery(ReadOwner(w, id, input), id))
    case Await(id) => Proceed(w, h, G.AfterPoll(ReadOwner(w, id, input), id))
    case Acknowledge(id) =>
      var (gateway, outcome) := S.Acknowledge(w.gateway, Seconds(w), id);
      Proceed(w.(gateway := gateway), h, G.AfterAcknowledgement(outcome, id))
  }

  /** The item and result texts may be anything; persistence pages are rows that were committed. */
  ghost function ReadOwner(w: World, id: Uuid, input: Input): Result<R.OwnerOutcome> {
    if R.Faithful(input.pages, w.owner.history) then R.ResultV2(input.item, input.note, input.pages, id, w.clock)
    else Err
  }

  // --- One step of the world -----------------------------------------------------

  ghost function Apply(w: World, limits: S.Limits, a: Action): World {
    match a
    case Tick(ms) => w.(clock := w.clock + ms)
    case Receive(key, amount) =>
      (match L.Receive(w.feed, key, amount) case Ok(feed) => w.(feed := feed) case Err => w)
    case BeginFeed(threshold, newId) => StartFeed(w, threshold, newId)
    case SendPost =>
      if w.worker.Posting? then w.(posts := w.posts + {w.worker.id}, worker := AwaitingPost(w.worker.id)) else w
    case PostAnswered(response) => PostResult(w, response)
    case PostFailed =>
      if w.worker.AwaitingPost? then w.(feed := L.MarkUnknown(w.feed, w.worker.id).0, worker := Resting) else w
    case Poll => StartPoll(w)
    case PollAnswered(response) => PollResult(w, response)
    case PollFailed => if w.worker.AwaitingPoll? then w.(worker := Resting) else w
    case DaemonRestart => w.(feed := L.MarkInterrupted(w.feed), worker := Resting)
    case Spawn(h, id, submitting) =>
      if h in w.handlers || (submitting && id !in w.posts) then w
      else w.(handlers := w.handlers[h := G.Lookup(id, submitting)])
    case Advance(h, input) => if h in w.handlers then AdvanceHandler(w, limits, h, input) else w
    case Abandon(h, answered) =>
      if h !in w.handlers then w
      else
        w.(handlers := w.handlers - {h},
           replies := w.replies
                      + if answered then {G.OutcomeResponse(504, w.handlers[h].id, G.Ambiguous)} else {})
    case GatewayRestart => w.(handlers := map[])
    case OwnerStep(step) =>
      if step.ReceiveStep? && step.request !in w.commands then w
      else w.(owner := O.Apply(w.owner, w.clock, step))
    case ForeignPost(id) => w.(posts := w.posts + {id})
    case OperatorFed(id) => w.(feed := L.ResolveAsFed(w.feed, id, L.Unknown).0)
    case OperatorNotFed(id) => w.(feed := L.ReconcileNotFed(w.feed, id).0)
  }

  ghost function Run(limits: S.Limits, actions: seq<Action>): World {
    if actions == [] then INITIAL
    else Apply(Run(limits, actions[..|actions| - 1]), limits, actions[|actions| - 1])
  }

  /** Payments are credited under their own keys, never under a feed's. */
  predicate Legal(a: Action) { a.Receive? ==> !a.key.FeedKey? }

  /** No operator resolves an attempt by hand. */
  predicate Unattended(a: Action) { !a.OperatorFed? && !a.OperatorNotFed? }

  /** The daemon is the gateway's only client. */
  predicate SoleClient(a: Action) { !a.ForeignPost? }

  // --- Facts about one identity --------------------------------------------------

  ghost predicate HasRow(t: S.Tables, id: Uuid) {
    exists i | 0 <= i < |t.requests| :: t.requests[i].id == id
  }

  ghost predicate Commanded(commands: seq<O.Request>, id: Uuid) {
    exists i | 0 <= i < |commands| :: commands[i].id == id
  }

  /** The owner once committed a completion for this identity. */
  ghost predicate Durable(o: O.Owner, id: Uuid) {
    exists k | 0 <= k < |o.history| :: O.IsComplete(o.history[k].ledger, id)
  }

  ghost predicate AttemptIs(t: L.Tables, id: Uuid, status: L.AttemptStatus) {
    exists i | 0 <= i < |t.attempts| :: t.attempts[i].id == id && t.attempts[i].status == status
  }

  // --- What every action but a handler's leaves alone ------------------------------------

  /** Handlers end or start, requests and timeouts are sent; nothing else moves between gateway and owner. */
  ghost predicate Frame(w: World, v: World) {
    && v.gateway == w.gateway && v.commands == w.commands && w.posts <= v.posts
    && (forall h | h in v.handlers ::
          || (h in w.handlers && v.handlers[h] == w.handlers[h])
          || (v.handlers[h].Lookup? && (v.handlers[h].submitting ==> v.handlers[h].id in w.posts)))
    && (forall response | response in v.replies ::
          response in w.replies || exists id :: response == G.OutcomeResponse(504, id, G.Ambiguous))
  }

  lemma OthersKeepFrame(w: World, limits: S.Limits, a: Action)
    requires !a.Advance?
    ensures Frame(w, Apply(w, limits, a))
  {
  }

  // --- Gateway invariant: one command per identity, refused identities get none --------

  ghost predicate DispatchInv(gateway: S.Tables, handlers: map<nat, G.Task>, commands: seq<O.Request>) {
    && S.Identified(gateway)
    && (forall h | h in handlers && handlers[h].Dispatch? ::
          HasRow(gateway, handlers[h].id) && !Commanded(commands, handlers[h].id))
    && (forall h, g | h in handlers && g in handlers && h != g && handlers[h].Dispatch? && handlers[g].Dispatch? ::
          handlers[h].id != handlers[g].id)
    && (forall i | 0 <= i < |commands| :: HasRow(gateway, commands[i].id))
    && (forall i, j | 0 <= i < j < |commands| :: commands[i].id != commands[j].id)
  }

  lemma RowsOnlyGrow(t: S.Tables, now: int, id: Uuid, limits: S.Limits, safetyRefusal: bool)
    requires S.Identified(t)
    ensures var (u, outcome) := S.Begin(t, now, id, limits, safetyRefusal);
            && S.Identified(u)
            && (forall x :: HasRow(u, x) <==> HasRow(t, x) || (outcome == Ok(S.New) && x == id))
            && (forall x | x in t.refusals :: x in u.refusals)
            && (outcome == Ok(S.New) ==> !HasRow(t, id))
            && (outcome.Ok? && outcome.value.NotDispatched? ==>
                  id in u.refusals && u.refusals[id] == outcome.value.refusal)
            && (forall i | 0 <= i < |t.requests| :: u.requests[i] == t.requests[i])
            && (forall i | |t.requests| <= i < |u.requests| :: u.requests[i].status == S.Pending)
            && |t.requests| <= |u.requests|
  {
    S.BeginKeepsIdentity(t, now, id, limits, safetyRefusal);
    var (u, outcome) := S.Begin(t, now, id, limits, safetyRefusal);
    if outcome == Ok(S.New) {
      forall x ensures HasRow(u, x) <==> HasRow(t, x) || x == id {
        if HasRow(t, x) {
          var i :| 0 <= i < |t.requests| && t.requests[i].id == x;
          assert u.requests[i].id == x;
        }
        assert u.requests[|t.requests|].id == id;
      }
    }
  }

  lemma AcknowledgeKeepsRows(t: S.Tables, now: int, id: Uuid)
    requires S.Identified(t)
    ensures var u := S.Acknowledge(t, now, id).0;
            && S.Identified(u)
            && u.refusals == t.refusals
            && |u.requests| == |t.requests|
            && (forall i | 0 <= i < |t.requests| :: u.requests[i].id == t.requests[i].id)
            && (forall x :: HasRow(u, x) <==> HasRow(t, x))
            && (forall i | 0 <= i < |t.requests| ::
                  u.requests[i].status == S.Acknowledged ==>
                    t.requests[i].status == S.Acknowledged || t.requests[i].id == id)
  {
    var u := S.Acknowledge(t, now, id).0;
    forall x ensures HasRow(u, x) <==> HasRow(t, x) {
      if HasRow(t, x) {
        var i :| 0 <= i < |t.requests| && t.requests[i].id == x;
        assert u.requests[i].id == x;
      }
      if HasRow(u, x) {
        var i :| 0 <= i < |u.requests| && u.requests[i].id == x;
        assert t.requests[i].id == x;
      }
    }
  }

  lemma CommandAppended(commands: seq<O.Request>, request: O.Request)
    ensures forall id :: Commanded(commands + [request], id) <==> Commanded(commands, id) || id == request.id
  {
    var after := commands + [request];
    assert after[|commands|] == request;
    forall id | Commanded(commands, id) ensures Commanded(after, id) {
      var i :| 0 <= i < |commands| && commands[i].id == id;
      assert after[i].id == id;
    }
  }

  /** A handler that ends, or moves to a stage that cannot command, commands nothing new. */
  lemma ProceedKeepsDispatch(w: World, h: nat, p: G.Progress)
    requires DispatchInv(w.gateway, w.handlers, w.commands)
    requires p.Continue? ==> !p.task.Dispatch?
    ensures var v := Proceed(w, h, p); DispatchInv(v.gateway, v.handlers, v.commands)
  {
  }

  lemma MoreRowsKeepDispatch(t: S.Tables, u: S.Tables, handlers: map<nat, G.Task>, commands: seq<O.Request>)
    requires DispatchInv(t, handlers, commands) && S.Identified(u)
    requires forall x :: HasRow(t, x) ==> HasRow(u, x)
    ensures DispatchInv(u, handlers, commands)
  {
  }

  lemma AdmitKeepsDispatch(w: World, limits: S.Limits, h: nat, input: Input)
    requires DispatchInv(w.gateway, w.handlers, w.commands) && h in w.handlers && w.handlers[h].Admit?
    ensures var v := AdvanceHandler(w, limits, h, input); DispatchInv(v.gateway, v.handlers, v.commands)
  {
    var id := w.handlers[h].id;
    var (gateway, outcome) := S.Begin(w.gateway, Seconds(w), id, limits, w.handlers[h].safetyRefusal);
    RowsOnlyGrow(w.gateway, Seconds(w), id, limits, w.handlers[h].safetyRefusal);
    MoreRowsKeepDispatch(w.gateway, gateway, w.handlers, w.commands);
    if outcome != Ok(S.New) {
      ProceedKeepsDispatch(w.(gateway := gateway), h, G.AfterAdmission(outcome, id));
    } else {
      assert !Commanded(w.commands, id);
    }
  }

  lemma DispatchKeepsDispatch(w: World, limits: S.Limits, h: nat, input: Input)
    requires DispatchInv(w.gateway, w.handlers, w.commands) && h in w.handlers && w.handlers[h].Dispatch?
    ensures var v := AdvanceHandler(w, limits, h, input); DispatchInv(v.gateway, v.handlers, v.commands)
  {
    var id := w.handlers[h].id;
    var p := G.AfterCommand(input.ok, id);
    var v := Proceed(w, h, p);
    ProceedKeepsDispatch(w, h, p);
    if input.delivered {
      CommandAppended(w.commands, O.Request(id, w.clock));
      assert DispatchInv(v.gateway, v.handlers, v.commands + [O.Request(id, w.clock)]);
    }
  }

  lemma AdvanceKeepsDispatch(w: World, limits: S.Limits, h: nat, input: Input)
    requires DispatchInv(w.gateway, w.handlers, w.commands) && h in w.handlers
    ensures var v := AdvanceHandler(w, limits, h, input); DispatchInv(v.gateway, v.handlers, v.commands)
  {
    var task := w.handlers[h];
    if task.Admit? {
      AdmitKeepsDispatch(w, limits, h, input);
    } else if task.Dispatch? {
      DispatchKeepsDispatch(w, limits, h, input);
    } else if task.Acknowledge? {
      var (gateway, outcome) := S.Acknowledge(w.gateway, Seconds(w), task.id);
      AcknowledgeKeepsRows(w.gateway, Seconds(w), task.id);
      MoreRowsKeepDispatch(w.gateway, gateway, w.handlers, w.commands);
      ProceedKeepsDispatch(w.(gateway := gateway), h, G.AfterAcknowledgement(outcome, task.id));
    }
  }

  lemma FrameKeepsDispatch(w: World, v: World)
    requires DispatchInv(w.gateway, w.handlers, w.commands) && Frame(w, v)
    ensures DispatchInv(v.gateway, v.handlers, v.commands)
  {
  }

  lemma ApplyKeepsDispatch(w: World, limits: S.Limits, a: Action)
    requires DispatchInv(w.gateway, w.handlers, w.commands)
    ensures var v := Apply(w, limits, a); DispatchInv(v.gateway, v.handlers, v.commands)
  {
    if !a.Advance? {
      OthersKeepFrame(w, limits, a);
      FrameKeepsDispatch(w, Apply(w, limits, a));
    } else if a.handler in w.handlers {
      AdvanceKeepsDispatch(w, limits, a.handler, a.input);
    }
  }

  // --- Owner invariant: the actuator only obeys commands the gateway sent ------------

  ghost predicate OwnerInv(o: O.Owner, clock: nat, commands: seq<O.Request>) {
    O.Inv(o, clock) && OwnerCommanded(o, commands)
  }

  lemma OwnerStepKeepsOwner(o: O.Owner, clock: nat, step: O.Step, commands: seq<O.Request>)
    requires OwnerInv(o, clock, commands) && (step.ReceiveStep? ==> step.request in commands)
    ensures OwnerInv(O.Apply(o, clock, step), clock, commands)
  {
    O.ApplyKeepsInv(o, clock, clock, step);
    OwnerStaysCommanded(o, step, clock, commands);
  }

  /** Time passes and more commands are sent. */
  lemma LaterKeepsOwner(o: O.Owner, clock: nat, commands: seq<O.Request>, later: nat, more: seq<O.Request>)
    requires OwnerInv(o, clock, commands) && clock <= later
    requires forall id :: Commanded(commands, id) ==> Commanded(more, id)
    ensures OwnerInv(o, later, more)
  {
    O.TimeKeepsInv(o, clock, later);
  }

  predicate TouchesOwner(w: World, a: Action) {
    a.Tick? || a.OwnerStep? || (a.Advance? && a.handler in w.handlers && w.handlers[a.handler].Dispatch?)
  }

  lemma OthersLeaveOwner(w: World, limits: S.Limits, a: Action)
    requires !TouchesOwner(w, a)
    ensures var v := Apply(w, limits, a); v.owner == w.owner && v.clock == w.clock && v.commands == w.commands
  {
  }

  /** Only the owner's own steps move the owner. */
  lemma OwnerMoves(w: World, limits: S.Limits, a: Action)
    ensures var v := Apply(w, limits, a);
            && (!a.OwnerStep? ==> v.owner == w.owner && v.clock >= w.clock)
            && (a.OwnerStep? ==>
                  && v.clock == w.clock && v.commands == w.commands
                  && (v.owner == w.owner
                      || (v.owner == O.Apply(w.owner, w.clock, a.step)
                          && (a.step.ReceiveStep? ==> a.step.request in w.commands))))
  {
    if !TouchesOwner(w, a) {
      OthersLeaveOwner(w, limits, a);
    }
  }

  lemma CommandsGrow(w: World, limits: S.Limits, a: Action)
    ensures forall id :: Commanded(w.commands, id) ==> Commanded(Apply(w, limits, a).commands, id)
  {
    if !TouchesOwner(w, a) {
      OthersLeaveOwner(w, limits, a);
    } else if a.Advance? {
      CommandAppended(w.commands, O.Request(w.handlers[a.handler].id, w.clock));
    }
  }

  lemma ApplyKeepsOwner(w: World, limits: S.Limits, a: Action)
    requires OwnerInv(w.owner, w.clock, w.commands)
    ensures var v := Apply(w, limits, a); OwnerInv(v.owner, v.clock, v.commands)
  {
    var v := Apply(w, limits, a);
    OwnerMoves(w, limits, a);
    if v.owner == w.owner {
      CommandsGrow(w, limits, a);
      LaterKeepsOwner(w.owner, w.clock, w.commands, v.clock, v.commands);
    } else {
      OwnerStepKeepsOwner(w.owner, w.clock, a.step, w.commands);
    }
  }

  ghost predicate OwnerCommanded(o: O.Owner, commands: seq<O.Request>) {
    && (o.guard.Some? ==> Commanded(commands, o.guard.value.id))
    && (forall k | 0 <= k < |o.pulses| :: Commanded(commands, o.pulses[k].id))
  }

  lemma OwnerStaysCommanded(o: O.Owner, step: O.Step, clock: nat, commands: seq<O.Request>)
    requires OwnerCommanded(o, commands) && (step.ReceiveStep? ==> step.request in commands)
    ensures OwnerCommanded(O.Apply(o, clock, step), commands)
  {
    if step.ReceiveStep? {
      var i :| 0 <= i < |commands| && commands[i] == step.request;
      assert commands[i].id == step.request.id;
    }
  }

  // --- Certification: every claim of completion goes back to a durable receipt ---------

  lemma DurableStays(o: O.Owner, clock: nat, step: O.Step)
    ensures forall id :: Durable(o, id) ==> Durable(O.Apply(o, clock, step), id)
  {
    var p := O.Apply(o, clock, step);
    assert o.history <= p.history;
    forall id | Durable(o, id) ensures Durable(p, id) {
      var k :| 0 <= k < |o.history| && O.IsComplete(o.history[k].ledger, id);
      assert p.history[k] == o.history[k];
    }
  }

  ghost predicate Truthful(response: G.Response, gateway: S.Tables, o: O.Owner) {
    response.body.StatusBody? ==>
      && (response.body.status.status == G.Confirmed ==> Durable(o, response.body.status.requestId))
      && (response.body.status.status == G.NotDispatched ==> response.body.status.requestId in gateway.refusals)
  }

  ghost predicate CertifiedInv(gateway: S.Tables, handlers: map<nat, G.Task>, replies: set<G.Response>, o: O.Owner) {
    && S.Identified(gateway)
    && (forall h | h in handlers && handlers[h].Acknowledge? :: Durable(o, handlers[h].id))
    && (forall i | 0 <= i < |gateway.requests| && gateway.requests[i].status == S.Acknowledged ::
          Durable(o, gateway.requests[i].id))
    && (forall response | response in replies :: Truthful(response, gateway, o))
  }

  lemma ProceedKeepsCertified(w: World, h: nat, p: G.Progress)
    requires CertifiedInv(w.gateway, w.handlers, w.replies, w.owner)
    requires match p
             case Continue(task) => task.Acknowledge? ==> Durable(w.owner, task.id)
             case Reply(response) => Truthful(response, w.gateway, w.owner)
    ensures var v := Proceed(w, h, p); CertifiedInv(v.gateway, v.handlers, v.replies, v.owner)
  {
  }

  lemma AdmitKeepsCertified(w: World, limits: S.Limits, h: nat, input: Input)
    requires CertifiedInv(w.gateway, w.handlers, w.replies, w.owner) && h in w.handlers && w.handlers[h].Admit?
    ensures var v := AdvanceHandler(w, limits, h, input); CertifiedInv(v.gateway, v.handlers, v.replies, v.owner)
  {
    var id := w.handlers[h].id;
    var (gateway, outcome) := S.Begin(w.gateway, Seconds(w), id, limits, w.handlers[h].safetyRefusal);
    RowsOnlyGrow(w.gateway, Seconds(w), id, limits, w.handlers[h].safetyRefusal);
    ProceedKeepsCertified(w.(gateway := gateway), h, G.AfterAdmission(outcome, id));
  }

  lemma AcknowledgeKeepsCertified(w: World, limits: S.Limits, h: nat, input: Input)
    requires CertifiedInv(w.gateway, w.handlers, w.replies, w.owner) && h in w.handlers && w.handlers[h].Acknowledge?
    ensures var v := AdvanceHandler(w, limits, h, input); CertifiedInv(v.gateway, v.handlers, v.replies, v.owner)
  {
    var id := w.handlers[h].id;
    var (gateway, outcome) := S.Acknowledge(w.gateway, Seconds(w), id);
    AcknowledgeKeepsRows(w.gateway, Seconds(w), id);
    ProceedKeepsCertified(w.(gateway := gateway), h, G.AfterAcknowledgement(outcome, id));
  }

  lemma ReadCertifies(w: World, id: Uuid, input: Input)
    requires ReadOwner(w, id, input) == Ok(R.OutcomeComplete)
    ensures Durable(w.owner, id)
  {
    R.CompleteIsDurable(input.item, input.note, input.pages, id, w.clock, w.owner.history);
  }

  lemma AdvanceKeepsCertified(w: World, limits: S.Limits, h: nat, input: Input)
    requires CertifiedInv(w.gateway, w.handlers, w.replies, w.owner) && h in w.handlers
    ensures var v := AdvanceHandler(w, limits, h, input); CertifiedInv(v.gateway, v.handlers, v.replies, v.owner)
  {
    var task := w.handlers[h];
    if task.Admit? {
      AdmitKeepsCertified(w, limits, h, input);
    } else if task.Acknowledge? {
      AcknowledgeKeepsCertified(w, limits, h, input);
    } else if task.Recover? {
      if ReadOwner(w, task.id, input) == Ok(R.OutcomeComplete) {
        ReadCertifies(w, task.id, input);
      }
      ProceedKeepsCertified(w, h, G.AfterRecovery(ReadOwner(w, task.id, input), task.id));
    } else if task.Await? {
      if ReadOwner(w, task.id, input) == Ok(R.OutcomeComplete) {
        ReadCertifies(w, task.id, input);
      }
      ProceedKeepsCertified(w, h, G.AfterPoll(ReadOwner(w, task.id, input), task.id));
    } else if task.Lookup? {
      ProceedKeepsCertified(w, h, G.AfterLookup(S.Status(w.gateway, task.id), task.id, task.submitting));
    }
  }

  lemma ApplyKeepsCertified(w: World, limits: S.Limits, a: Action)
    requires CertifiedInv(w.gateway, w.handlers, w.replies, w.owner)
    ensures var v := Apply(w, limits, a); CertifiedInv(v.gateway, v.handlers, v.replies, v.owner)
  {
    if !a.Advance? {
      OthersKeepFrame(w, limits, a);
      ApplyKeepsDurable(w, limits, a);
      FrameKeepsCertified(w, Apply(w, limits, a));
    } else if a.handler in w.handlers {
      AdvanceKeepsCertified(w, limits, a.handler, a.input);
    }
  }

  lemma FrameKeepsCertified(w: World, v: World)
    requires CertifiedInv(w.gateway, w.handlers, w.replies, w.owner) && Frame(w, v)
    requires forall id :: Durable(w.owner, id) ==> Durable(v.owner, id)
    ensures CertifiedInv(v.gateway, v.handlers, v.replies, v.owner)
  {
  }

  lemma AdvanceKeepsTombstones(w: World, limits: S.Limits, h: nat, input: Input)
    requires S.Identified(w.gateway) && h in w.handlers
    ensures forall id | id in w.gateway.refusals :: id in AdvanceHandler(w, limits, h, input).gateway.refusals
  {
    var task := w.handlers[h];
    if task.Admit? {
      RowsOnlyGrow(w.gateway, Seconds(w), task.id, limits, task.safetyRefusal);
    } else if task.Acknowledge? {
      AcknowledgeKeepsRows(w.gateway, Seconds(w), task.id);
    }
  }

  lemma OthersLeaveGateway(w: World, limits: S.Limits, a: Action)
    requires !a.Advance?
    ensures Apply(w, limits, a).gateway == w.gateway
  {
  }

  lemma ApplyKeepsTombstones(w: World, limits: S.Limits, a: Action)
    requires S.Identified(w.gateway)
    ensures forall id | id in w.gateway.refusals :: id in Apply(w, limits, a).gateway.refusals
  {
    if !a.Advance? {
      OthersLeaveGateway(w, limits, a);
    } else if a.handler in w.handlers {
      AdvanceKeepsTombstones(w, limits, a.handler, a.input);
    }
  }

  lemma OthersLeaveHistory(w: World, limits: S.Limits, a: Action)
    requires !a.OwnerStep?
    ensures Apply(w, limits, a).owner == w.owner
  {
  }

  lemma ApplyKeepsDurable(w: World, limits: S.Limits, a: Action)
    ensures forall id :: Durable(w.owner, id) ==> Durable(Apply(w, limits, a).owner, id)
  {
    if !a.OwnerStep? {
      OthersLeaveHistory(w, limits, a);
    } else {
      DurableStays(w.owner, w.clock, a.step);
    }
  }

  /** Tombstones are permanent, and so are durable completions. */
  lemma ApplyOnlyLearns(w: World, limits: S.Limits, a: Action)
    requires S.Identified(w.gateway)
    ensures var v := Apply(w, limits, a);
            && (forall id | id in w.gateway.refusals :: id in v.gateway.refusals)
            && (forall id :: Durable(w.owner, id) ==> Durable(v.owner, id))
  {
    ApplyKeepsTombstones(w, limits, a);
    ApplyKeepsDurable(w, limits, a);
  }

  // --- Ledger: what the daemon concludes is what happened ----------------------------

  /** Automatic resolutions only: a confirmed attempt is durable, a released one is tombstoned. */
  ghost predicate ConcludedInv(feed: L.Tables, gateway: S.Tables, o: O.Owner) {
    forall i | 0 <= i < |feed.attempts| ::
      && (feed.attempts[i].status == L.Confirmed ==> Durable(o, feed.attempts[i].id))
      && (feed.attempts[i].status == L.ReconciledNotFed ==> feed.attempts[i].id in gateway.refusals)
  }

  lemma OutcomeKeepsConcluded(w: World, id: Uuid, stored: L.AttemptStatus, response: G.Response)
    requires ConcludedInv(w.feed, w.gateway, w.owner) && Truthful(response, w.gateway, w.owner)
    requires G.ReadFeedStatus(response, id).Ok?
    ensures var s := G.ReadFeedStatus(response, id).value;
            ConcludedInv(W.ApplyOutcome(w.feed, Seconds(w), id, stored, s), w.gateway, w.owner)
  {
  }

  lemma LearningKeepsConcluded(feed: L.Tables, w: World, v: World)
    requires ConcludedInv(feed, w.gateway, w.owner)
    requires forall id | id in w.gateway.refusals :: id in v.gateway.refusals
    requires forall id :: Durable(w.owner, id) ==> Durable(v.owner, id)
    ensures ConcludedInv(feed, v.gateway, v.owner)
  {
  }

  /** Nothing but a gateway's answer concludes an attempt. */
  lemma FeedKeepsConcluded(w: World, limits: S.Limits, a: Action)
    requires CertifiedInv(w.gateway, w.handlers, w.replies, w.owner)
    requires ConcludedInv(w.feed, w.gateway, w.owner) && Unattended(a)
    ensures ConcludedInv(Apply(w, limits, a).feed, w.gateway, w.owner)
  {
    match a
    case PostAnswered(response) =>
      if w.worker.AwaitingPost? && response in w.replies && G.ReadFeedStatus(response, w.worker.id).Ok? {
        OutcomeKeepsConcluded(w, w.worker.id, L.IntentCommitted, response);
      }
    case PollAnswered(response) =>
      if w.worker.AwaitingPoll? && response in w.replies && G.ReadFeedStatus(response, w.worker.id).Ok? {
        OutcomeKeepsConcluded(w, w.worker.id, w.worker.stored, response);
      }
    case _ =>
  }

  lemma ApplyKeepsConcluded(w: World, limits: S.Limits, a: Action)
    requires CertifiedInv(w.gateway, w.handlers, w.replies, w.owner)
    requires ConcludedInv(w.feed, w.gateway, w.owner) && Unattended(a)
    ensures var v := Apply(w, limits, a); ConcludedInv(v.feed, v.gateway, v.owner)
  {
    var v := Apply(w, limits, a);
    ApplyOnlyLearns(w, limits, a);
    FeedKeepsConcluded(w, limits, a);
    LearningKeepsConcluded(v.feed, w, v);
  }

  /** The one ledger transaction an action performs, if any. */
  function LedgerStep(w: World, a: Action): Option<L.Step> {
    match a
    case Receive(key, amount) => Some(L.ReceiveStep(key, amount))
    case BeginFeed(threshold, newId) =>
      if w.worker.Resting? && newId !in w.posts then Some(L.BeginStep(Seconds(w), threshold, newId)) else None
    case PostAnswered(response) =>
      if !w.worker.AwaitingPost? || response !in w.replies then None
      else (match G.ReadFeedStatus(response, w.worker.id)
            case Ok(s) => W.OutcomeStep(Seconds(w), w.worker.id, L.IntentCommitted, s)
            case Err => Some(L.UnknownStep(w.worker.id)))
    case PostFailed => if w.worker.AwaitingPost? then Some(L.UnknownStep(w.worker.id)) else None
    case PollAnswered(response) =>
      if !w.worker.AwaitingPoll? || response !in w.replies then None
      else (match G.ReadFeedStatus(response, w.worker.id)
            case Ok(s) => W.OutcomeStep(Seconds(w), w.worker.id, w.worker.stored, s)
            case Err => None)
    case DaemonRestart => Some(L.InterruptedStep)
    case OperatorFed(id) => Some(L.FedStep(id, L.Unknown))
    case OperatorNotFed(id) => Some(L.NotFedStep(id))
    case _ => None
  }

  ghost predicate PollsUnresolved(w: World) {
    w.worker.AwaitingPoll? ==> w.worker.stored == L.IntentCommitted || w.worker.stored == L.Unknown
  }

  /** Every action of the world is at most one transaction of the daemon's ledger. */
  lemma ApplyIsLedgerStep(w: World, limits: S.Limits, a: Action)
    requires Legal(a) && PollsUnresolved(w)
    ensures var v := Apply(w, limits, a);
            && PollsUnresolved(v)
            && (match LedgerStep(w, a)
                case None => v.feed == w.feed
                case Some(step) => L.Legal(step) && v.feed == L.Apply(w.feed, step))
  {
  }

  // --- Sole client: every row belongs to an attempt ----------------------------------

  ghost predicate Attempted(t: L.Tables, id: Uuid) {
    exists i | 0 <= i < |t.attempts| :: t.attempts[i].id == id
  }

  predicate Submits(task: G.Task) { task.CheckSafety? || task.Admit? || (task.Lookup? && task.submitting) }

  ghost predicate PostedInv(w: World) {
    && S.Identified(w.gateway)
    && (forall h | h in w.handlers && Submits(w.handlers[h]) :: w.handlers[h].id in w.posts)
    && (forall id :: HasRow(w.gateway, id) ==> id in w.posts)
  }

  ghost predicate SoleInv(w: World) {
    && (forall id | id in w.posts :: Attempted(w.feed, id))
    && (w.worker.Posting? ==> Attempted(w.feed, w.worker.id))
  }

  lemma AdvanceKeepsPosted(w: World, limits: S.Limits, h: nat, input: Input)
    requires PostedInv(w) && h in w.handlers
    ensures PostedInv(AdvanceHandler(w, limits, h, input))
  {
    var task := w.handlers[h];
    if task.Admit? {
      RowsOnlyGrow(w.gateway, Seconds(w), task.id, limits, task.safetyRefusal);
    } else if task.Acknowledge? {
      AcknowledgeKeepsRows(w.gateway, Seconds(w), task.id);
    }
  }

  lemma ApplyKeepsPosted(w: World, limits: S.Limits, a: Action)
    requires PostedInv(w)
    ensures PostedInv(Apply(w, limits, a))
  {
    if !a.Advance? {
      OthersKeepFrame(w, limits, a);
      FrameKeepsPosted(w, Apply(w, limits, a));
    } else if a.handler in w.handlers {
      AdvanceKeepsPosted(w, limits, a.handler, a.input);
    }
  }

  lemma FrameKeepsPosted(w: World, v: World)
    requires PostedInv(w) && Frame(w, v)
    ensures PostedInv(v)
  {
  }

  lemma AttemptsStay(t: L.Tables, u: L.Tables)
    requires |t.attempts| <= |u.attempts|
    requires forall i | 0 <= i < |t.attempts| :: u.attempts[i].id == t.attempts[i].id
    ensures forall id :: Attempted(t, id) ==> Attempted(u, id)
  {
    forall id | Attempted(t, id) ensures Attempted(u, id) {
      var i :| 0 <= i < |t.attempts| && t.attempts[i].id == id;
      assert u.attempts[i].id == id;
    }
  }

  /** Who is posted, and who the worker is about to post. */
  lemma PostsMove(w: World, limits: S.Limits, a: Action)
    requires SoleClient(a)
    ensures var v := Apply(w, limits, a);
            && (forall id | id in v.posts :: id in w.posts || w.worker == Posting(id))
            && (v.worker.Posting? ==> v.worker == w.worker || Attempted(v.feed, v.worker.id))
  {
    if a.BeginFeed? && Apply(w, limits, a) != w {
      assert Apply(w, limits, a).feed.attempts[|w.feed.attempts|].id == a.newId;
    }
  }

  lemma ApplyKeepsAttempted(w: World, limits: S.Limits, a: Action)
    requires Legal(a) && PollsUnresolved(w)
    ensures forall id :: Attempted(w.feed, id) ==> Attempted(Apply(w, limits, a).feed, id)
  {
    ApplyIsLedgerStep(w, limits, a);
    if LedgerStep(w, a).Some? {
      L.ApplyKeepsIds(w.feed, LedgerStep(w, a).value);
      AttemptsStay(w.feed, Apply(w, limits, a).feed);
    }
  }

  lemma ApplyKeepsSole(w: World, limits: S.Limits, a: Action)
    requires SoleInv(w) && Legal(a) && SoleClient(a) && PollsUnresolved(w)
    ensures SoleInv(Apply(w, limits, a))
  {
    ApplyKeepsAttempted(w, limits, a);
    PostsMove(w, limits, a);
  }
}
