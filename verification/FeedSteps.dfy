/**
 The composed system seen part by part: which actions move the worker, the wire, the handlers, the
 gateway's table, the owner and the ledger, how, and that no other action touches them.
 */
module FeedSteps {
  import opened Wrappers
  import opened FeedProtocol
  import L = FeedLedger
  import S = GatewayStore
  import G = GatewayServer
  import O = FeederOwner

  /** The worker gets the answer, or the failure, it is waiting for. */
  predicate Answers(w: World, a: Action) {
    || (a.PostAnswered? && w.worker.AwaitingPost? && a.response in w.replies)
    || (a.PostFailed? && w.worker.AwaitingPost?)
    || (a.PollAnswered? && w.worker.AwaitingPoll? && a.response in w.replies)
    || (a.PollFailed? && w.worker.AwaitingPoll?)
  }

  predicate Begins(w: World, a: Action) {
    && a.BeginFeed? && w.worker == Resting && a.newId !in w.posts
    && L.BeginAttempt(w.feed, w.clock / 1000, a.threshold, a.newId).1 == Ok(Some(a.newId))
  }

  /** A resting worker begins or polls; what it began it posts; what it waits for sends it back to rest. */
  lemma WorkerMovesExactly(w: World, limits: S.Limits, a: Action)
    ensures Apply(w, limits, a).worker
            == if Begins(w, a) then Posting(a.newId)
               else if a.SendPost? && w.worker.Posting? then AwaitingPost(w.worker.id)
               else if a.Poll? && w.worker == Resting && L.FindUnresolved(w.feed.attempts).Some? then
                 var x := w.feed.attempts[L.FindUnresolved(w.feed.attempts).value];
                 AwaitingPoll(x.id, x.status)
               else if Answers(w, a) || a.DaemonRestart? then Resting
               else w.worker
  {
  }

  /** POSTs and item commands on the wire grow by what is sent, with the sender's clock, and never shrink. */
  lemma RequestsGrowExactly(w: World, limits: S.Limits, a: Action)
    ensures var after := Apply(w, limits, a);
            && after.posts == w.posts + (if a.SendPost? && w.worker.Posting? then {w.worker.id}
                                         else if a.ForeignPost? then {a.id} else {})
            && after.commands == w.commands + (if a.Advance? && a.handler in w.handlers && a.input.delivered
                                                  && w.handlers[a.handler].Dispatch?
                                               then [O.Request(w.handlers[a.handler].id, w.clock)] else [])
  {
    assert w.posts + {} == w.posts && w.commands + [] == w.commands;
  }

  /** A handler that ends by its own stages leaves exactly one reply; an abandoned one leaves 504 or none. */
  lemma RepliesGrowExactly(w: World, limits: S.Limits, a: Action)
    ensures var after := Apply(w, limits, a);
            && (a.Abandon? && a.handler in w.handlers ==>
                  after.replies == w.replies + (if a.answered
                                                then {G.OutcomeResponse(504, w.handlers[a.handler].id, G.Ambiguous)}
                                                else {}))
            && (a.Advance? && a.handler in w.handlers ==>
                  if a.handler in after.handlers then after.replies == w.replies
                  else exists response :: after.replies == w.replies + {response})
            && ((!a.Abandon? && !a.Advance?) || a.handler !in w.handlers ==> after.replies == w.replies)
  {
    if a.Abandon? && a.handler in w.handlers && !a.answered {
      assert w.replies + {} == w.replies;
    }
  }

  /**
   Only a POST on the wire starts a submission. A gateway restart ends every handler, an abandonment its
   own, and nothing touches the handler of another request.
   */
  lemma HandlersMoveExactly(w: World, limits: S.Limits, a: Action)
    ensures var after := Apply(w, limits, a);
            && (a.GatewayRestart? ==> after.handlers == map[])
            && (a.Spawn? ==>
                  after.handlers == if a.handler !in w.handlers && (a.submitting ==> a.id in w.posts)
                                    then w.handlers[a.handler := G.Lookup(a.id, a.submitting)] else w.handlers)
            && (a.Abandon? ==> after.handlers == w.handlers - {a.handler})
            && (a.Advance? ==> after.handlers - {a.handler} == w.handlers - {a.handler})
            && (!a.GatewayRestart? && !a.Spawn? && !a.Abandon? && !a.Advance? ==> after.handlers == w.handlers)
  {
    if a.Abandon? && a.handler !in w.handlers {
      assert w.handlers - {a.handler} == w.handlers;
    }
  }

  /** The gateway's table moves only by an admission or an acknowledgement of a handler, in seconds of the clock. */
  lemma GatewayMovesExactly(w: World, limits: S.Limits, a: Action)
    ensures var task := if a.Advance? && a.handler in w.handlers then Some(w.handlers[a.handler]) else None;
            Apply(w, limits, a).gateway
            == if task.Some? && task.value.Admit? then
                 S.Begin(w.gateway, w.clock / 1000, task.value.id, limits, task.value.safetyRefusal).0
               else if task.Some? && task.value.Acknowledge? then
                 S.Acknowledge(w.gateway, w.clock / 1000, task.value.id).0
               else w.gateway
  {
  }

  /** The owner moves only by its own steps, and receives only commands that were sent. */
  lemma OwnerMovesExactly(w: World, limits: S.Limits, a: Action)
    ensures Apply(w, limits, a).owner
            == if a.OwnerStep? && (a.step.ReceiveStep? ==> a.step.request in w.commands)
               then O.Apply(w.owner, w.clock, a.step) else w.owner
    ensures Apply(w, limits, a).clock == w.clock + if a.Tick? then a.ms else 0
  {
  }
}
