/**
 The daemon's feed worker (src/feeder/mod.rs): one call of `run_feed_step` against the ledger, with
 the answers of the gateway as inputs.
 */
module FeedWorker {
  import opened Wrappers
  import L = FeedLedger
  import S = GatewayStore
  import G = GatewayServer

  datatype Safety = Safety(overrideEnabled: bool, remoteEnabled: bool)

  datatype WorkerStep =
    | Idle
    | NotDispatched(id: Uuid)
    | ShadowBlocked(feedsDue: nat)
    | OverrideBlocked(feedsDue: nat)
    | RemoteDisabled(feedsDue: nat)
    | SafetyUnavailable(feedsDue: nat)
    | UnknownFeedBlocked(id: Uuid)
    | Fed(id: Uuid, remaining: nat)

  /** What the world answers during one step; each answer is used only if the step asks for it. */
  datatype Answers = Answers(
    now: int, newId: Uuid, safety: Result<Safety>, post: Result<G.FeedStatus>, poll: Result<G.FeedStatus>)

  /** The ledger transaction by which `apply_outcome` books an outcome. */
  function OutcomeStep(now: int, id: Uuid, stored: L.AttemptStatus, s: G.FeedStatus): Option<L.Step> {
    match s.status
    case Confirmed => Some(L.FedStep(id, stored))
    case NotDispatched =>
      if s.refusal.None? then None else Some(L.NotDispatchedStep(now, id, s.refusal.value.retryAfterSeconds))
    case Pending => if stored == L.IntentCommitted then Some(L.UnknownStep(id)) else None
    case Ambiguous => if stored == L.IntentCommitted then Some(L.UnknownStep(id)) else None
  }

  function ApplyOutcome(t: L.Tables, now: int, id: Uuid, stored: L.AttemptStatus, s: G.FeedStatus): L.Tables {
    match OutcomeStep(now, id, stored, s)
    case None => t
    case Some(step) => L.Apply(t, step)
  }

  /** `apply_outcome`: the ledger it leaves and what it answers. */
  function Booked(t: L.Tables, now: int, id: Uuid, stored: L.AttemptStatus, s: G.FeedStatus)
    : (L.Tables, Result<WorkerStep>)
  {
    if !G.Validates(s, id) then (t, Err)
    else
      var u := ApplyOutcome(t, now, id, stored, s);
      var reply :=
        match s.status
        case Confirmed =>
          var left := L.FeedCredit(u.entries);
          if L.ResolveAsFed(t, id, stored).1.Ok? && left.Ok? then Ok(Fed(id, left.value)) else Err
        case NotDispatched =>
          if L.ResolveNotDispatched(t, now, id, s.refusal.value.retryAfterSeconds).1.Ok? then Ok(NotDispatched(id))
          else Err
        case _ =>
          if stored == L.IntentCommitted && L.MarkUnknown(t, id).1.Err? then Err else Ok(UnknownFeedBlocked(id));
      (u, reply)
  }

  /** One step: the ledger it leaves, what it answers, and the identity it POSTs, if any. */
  function StepEffect(t: L.Tables, threshold: nat, feederEnabled: bool, a: Answers)
    : (L.Tables, Result<WorkerStep>, Option<Uuid>)
  {
    if threshold == 0 then (t, Err, None)
    else match L.FindUnresolved(t.attempts)
      case Some(i) =>
        var attempt := t.attempts[i];
        if a.poll.Err? then (t, Ok(UnknownFeedBlocked(attempt.id)), None)
        else
          var (u, reply) := Booked(t, a.now, attempt.id, attempt.status, a.poll.value);
          (u, reply, None)
      case None =>
        match L.FeedCredit(t.entries)
        case Err => (t, Err, None)
        case Ok(credit) =>
          var due := credit / threshold;
          if due == 0 then (t, Ok(Idle), None)
          else if !feederEnabled then (t, Ok(ShadowBlocked(due)), None)
          else if a.safety.Err? then (t, Ok(SafetyUnavailable(due)), None)
          else if a.safety.value.overrideEnabled then (t, Ok(OverrideBlocked(due)), None)
          else if !a.safety.value.remoteEnabled then (t, Ok(RemoteDisabled(due)), None)
          else Submitted(t, threshold, a)
  }

  /** The intent is committed, then posted, then its answer is booked. */
  function Submitted(t: L.Tables, threshold: nat, a: Answers): (L.Tables, Result<WorkerStep>, Option<Uuid>) {
    match L.BeginAttempt(t, a.now, threshold, a.newId)
    case (begun, Err) => (begun, Err, None)
    case (begun, Ok(None)) => (begun, Ok(Idle), None)
    case (begun, Ok(Some(_))) =>
      if a.post.Err? then (L.MarkUnknown(begun, a.newId).0, Err, Some(a.newId))
      else
        var (u, reply) := Booked(begun, a.now, a.newId, L.IntentCommitted, a.post.value);
        (u, reply, Some(a.newId))
  }

  method BookOutcome(ledger: L.Store, now: int, id: Uuid, stored: L.AttemptStatus, s: G.FeedStatus)
    returns (r: Result<WorkerStep>)
    requires stored == L.IntentCommitted || stored == L.Unknown
    modifies ledger
    ensures (ledger.State(), r) == Booked(old(ledger.State()), now, id, stored, s)
  {
    if !G.Validates(s, id) {
      return Err;
    }
    match s.status {
      case Confirmed =>
        var resolved := ledger.Resolve(id, stored);
        var left := L.FeedCredit(ledger.entries);
        return if resolved.Ok? && left.Ok? then Ok(Fed(id, left.value)) else Err;
      case NotDispatched =>
        var released := ledger.ResolveFeedNotDispatched(now, id, s.refusal.value.retryAfterSeconds);
        return if released.Ok? then Ok(NotDispatched(id)) else Err;
      case _ =>
        if stored == L.IntentCommitted {
          var marked := ledger.MarkFeedUnknown(id);
          return if marked.Ok? then Ok(UnknownFeedBlocked(id)) else Err;
        }
        return Ok(UnknownFeedBlocked(id));
    }
  }

  /** `run_feed_step`; `posted` is the request it sends to the gateway. */
  method RunFeedStep(ledger: L.Store, threshold: nat, feederEnabled: bool, a: Answers)
    returns (r: Result<WorkerStep>, posted: Option<Uuid>)
    modifies ledger
    ensures (ledger.State(), r, posted) == StepEffect(old(ledger.State()), threshold, feederEnabled, a)
  {
    posted := None;
    if threshold == 0 {
      return Err, None;
    }
    var unresolved := L.FindUnresolved(ledger.attempts);
    if unresolved.Some? {
      var attempt := ledger.attempts[unresolved.value];
      if a.poll.Err? {
        return Ok(UnknownFeedBlocked(attempt.id)), None;
      }
      r := BookOutcome(ledger, a.now, attempt.id, attempt.status, a.poll.value);
      return r, None;
    }
    var credit := L.FeedCredit(ledger.entries);
    if credit.Err? {
      return Err, None;
    }
    var feedsDue := credit.value / threshold;
    if feedsDue == 0 {
      return Ok(Idle), None;
    }
    if !feederEnabled {
      return Ok(ShadowBlocked(feedsDue)), None;
    }
    if a.safety.Err? {
      return Ok(SafetyUnavailable(feedsDue)), None;
    }
    if a.safety.value.overrideEnabled {
      return Ok(OverrideBlocked(feedsDue)), None;
    }
    if !a.safety.value.remoteEnabled {
      return Ok(RemoteDisabled(feedsDue)), None;
    }
    var begun := ledger.BeginFeedAttempt(a.now, threshold, a.newId);
    if begun.Err? {
      return Err, None;
    }
    if begun.value.None? {
      return Ok(Idle), None;
    }
    posted := Some(a.newId);
    if a.post.Err? {
      var marked := ledger.MarkFeedUnknown(a.newId);
      return Err, posted;
    }
    r := BookOutcome(ledger, a.now, a.newId, L.IntentCommitted, a.post.value);
  }

  lemma Due(credit: nat, threshold: nat)
    requires threshold > 0
    ensures credit / threshold == 0 <==> credit < threshold
  {
    var q := credit / threshold;
    assert credit == q * threshold + credit % threshold;
    if q >= 1 {
      assert q * threshold >= threshold;
    }
  }

  // --- When a step posts, and what it answers --------------------------------------------

  /** No attempt is open, a feed is paid for, and every switch and the cooldown allow a new identity. */
  predicate MayPost(t: L.Tables, threshold: nat, feederEnabled: bool, a: Answers) {
    && 1 <= threshold <= I64_MAX && threshold <= L.Sum(t.entries)
    && (forall i | 0 <= i < |t.attempts| ::
          t.attempts[i].status != L.IntentCommitted && t.attempts[i].status != L.Unknown)
    && feederEnabled && a.safety == Ok(Safety(false, true))
    && t.resumeAfter <= a.now && (forall i | 0 <= i < |t.attempts| :: t.attempts[i].id != a.newId)
  }

  /** An identity is posted if and only if everything allows it. */
  lemma PostsExactly(t: L.Tables, threshold: nat, feederEnabled: bool, a: Answers)
    requires L.EntriesValid(t.entries)
    ensures StepEffect(t, threshold, feederEnabled, a).2
            == if MayPost(t, threshold, feederEnabled, a) then Some(a.newId) else None
  {
    L.CreditIsSum(t.entries);
    if threshold > 0 {
      Due(L.Sum(t.entries), threshold);
    }
  }

  /** Without an open attempt and without a post, the answer names what is missing, and the ledger stays. */
  lemma BlockedAnswersAreExact(t: L.Tables, threshold: nat, feederEnabled: bool, a: Answers)
    requires L.EntriesValid(t.entries) && threshold > 0
    requires forall i | 0 <= i < |t.attempts| :: !L.Unresolved(t.attempts[i])
    ensures var (u, reply, posted) := StepEffect(t, threshold, feederEnabled, a);
            var credit := L.Sum(t.entries);
            var due := credit / threshold;
            && (credit < threshold ==> reply == Ok(Idle) && u == t)
            && (credit >= threshold ==>
                  && (!feederEnabled ==> reply == Ok(ShadowBlocked(due)) && u == t)
                  && (feederEnabled ==>
                        && (a.safety.Err? ==> reply == Ok(SafetyUnavailable(due)) && u == t)
                        && (a.safety.Ok? && a.safety.value.overrideEnabled ==>
                              reply == Ok(OverrideBlocked(due)) && u == t)
                        && (a.safety == Ok(Safety(false, false)) ==> reply == Ok(RemoteDisabled(due)) && u == t)
                        && (a.safety == Ok(Safety(false, true)) && threshold <= I64_MAX && a.now < t.resumeAfter ==>
                              reply == Ok(Idle) && u == t)))
  {
    L.CreditIsSum(t.entries);
    Due(L.Sum(t.entries), threshold);
  }

  lemma DebitedCredit(t: L.Tables, i: nat)
    requires L.Inv(t) && i < |t.attempts| && L.Unresolved(t.attempts[i])
    ensures L.FeedCredit(L.Debited(t, i).entries) == Ok(L.Sum(t.entries) - t.attempts[i].threshold)
  {
    L.DebitedKeepsInv(t, i);
    L.AppendEntry(t.entries, L.Entry(L.FeedKey(t.attempts[i].id), -t.attempts[i].threshold));
    L.CreditIsSum(L.Debited(t, i).entries);
  }

  lemma DebitedResult(t: L.Tables, i: nat)
    requires L.Inv(t) && i < |t.attempts| && L.Unresolved(t.attempts[i])
    ensures L.ResolveAsFed(t, t.attempts[i].id, t.attempts[i].status) == (L.Debited(t, i), Ok(()))
  {
    L.FedResult(t, t.attempts[i].id, t.attempts[i].status);
    L.FoundIs(t.attempts, i);
  }

  lemma ConfirmedIsBooked(t: L.Tables, i: nat, now: int, s: G.FeedStatus)
    requires L.Inv(t) && i < |t.attempts| && L.Unresolved(t.attempts[i]) && G.Validates(s, t.attempts[i].id)
    requires s.status == G.Confirmed
    ensures var x := t.attempts[i];
            Booked(t, now, x.id, x.status, s) == (L.Debited(t, i), Ok(Fed(x.id, L.Sum(t.entries) - x.threshold)))
  {
    DebitedResult(t, i);
    DebitedCredit(t, i);
  }

  /** What a validated answer about the unresolved attempt `i` does, and what the step then answers. */
  lemma BookedIsExact(t: L.Tables, i: nat, now: int, s: G.FeedStatus)
    requires L.Inv(t) && i < |t.attempts| && L.Unresolved(t.attempts[i]) && G.Validates(s, t.attempts[i].id)
    ensures var x := t.attempts[i];
            var (u, reply) := Booked(t, now, x.id, x.status, s);
            && (s.status == G.Confirmed ==>
                  u == L.Debited(t, i) && reply == Ok(Fed(x.id, L.Sum(t.entries) - x.threshold)))
            && (s.status == G.NotDispatched ==>
                  && u.attempts == t.attempts[i := x.(status := L.ReconciledNotFed)] && u.entries == t.entries
                  && u.resumeAfter == Max(t.resumeAfter, now + s.refusal.value.retryAfterSeconds)
                  && reply == Ok(NotDispatched(x.id)))
            && (s.status == G.Pending || s.status == G.Ambiguous ==>
                  && u.attempts == t.attempts[i := x.(status := L.Unknown)] && u.entries == t.entries
                  && reply == Ok(UnknownFeedBlocked(x.id)))
  {
    var x := t.attempts[i];
    L.FoundIs(t.attempts, i);
    if s.status == G.Confirmed {
      ConfirmedIsBooked(t, i, now, s);
    } else if s.status != G.NotDispatched && x.status == L.Unknown {
      assert t.attempts[i := x.(status := L.Unknown)] == t.attempts;
    }
  }

  /** An open attempt is polled and nothing is posted; an unanswered poll changes nothing. */
  lemma OpenAttemptIsPolled(t: L.Tables, i: nat, threshold: nat, feederEnabled: bool, a: Answers)
    requires L.AttemptsValid(t.attempts) && i < |t.attempts| && L.Unresolved(t.attempts[i]) && threshold > 0
    ensures var (u, reply, posted) := StepEffect(t, threshold, feederEnabled, a);
            var x := t.attempts[i];
            && posted == None
            && (a.poll.Err? ==> u == t && reply == Ok(UnknownFeedBlocked(x.id)))
            && (a.poll.Ok? ==> (u, reply) == Booked(t, a.now, x.id, x.status, a.poll.value))
  {
    L.FoundIs(t.attempts, i);
  }

  /** A post commits its intent first, and then books its answer, or marks it unknown without one. */
  lemma PostIsBooked(t: L.Tables, threshold: nat, feederEnabled: bool, a: Answers)
    requires L.Inv(t) && MayPost(t, threshold, feederEnabled, a)
    ensures var (u, reply, posted) := StepEffect(t, threshold, feederEnabled, a);
            var begun := t.(attempts := t.attempts + [L.Attempt(a.newId, L.IntentCommitted, threshold)]);
            && posted == Some(a.newId)
            && (a.post.Err? ==>
                  && reply == Err && u.entries == t.entries
                  && u.attempts == t.attempts + [L.Attempt(a.newId, L.Unknown, threshold)])
            && (a.post.Ok? ==> (u, reply) == Booked(begun, a.now, a.newId, L.IntentCommitted, a.post.value))
  {
    L.CreditIsSum(t.entries);
    Due(L.Sum(t.entries), threshold);
    L.BeginKeepsInv(t, a.now, threshold, a.newId);
    var begun := t.attempts + [L.Attempt(a.newId, L.IntentCommitted, threshold)];
    L.FoundIs(begun, |t.attempts|);
    assert begun[|t.attempts| := L.Attempt(a.newId, L.Unknown, threshold)]
           == t.attempts + [L.Attempt(a.newId, L.Unknown, threshold)];
  }

  // --- One POST per attempt --------------------------------------------------------

  /** A worker life: steps and restarts, each restart marking an interrupted intent unknown. */
  datatype WorkerEvent = Stepped(threshold: nat, feederEnabled: bool, answers: Answers) | Restarted

  function After(t: L.Tables, e: WorkerEvent): (L.Tables, Option<Uuid>) {
    match e
    case Stepped(threshold, feederEnabled, answers) =>
      var (u, _, posted) := StepEffect(t, threshold, feederEnabled, answers);
      (u, posted)
    case Restarted => (L.MarkInterrupted(t), None)
  }

  function Life(t: L.Tables, events: seq<WorkerEvent>): (L.Tables, seq<Uuid>) {
    if events == [] then (t, [])
    else
      var (before, posts) := Life(t, events[..|events| - 1]);
      var (after, posted) := After(before, events[|events| - 1]);
      (after, if posted.Some? then posts + [posted.value] else posts)
  }

  ghost predicate Known(t: L.Tables, id: Uuid) {
    exists i | 0 <= i < |t.attempts| :: t.attempts[i].id == id
  }

  lemma KnownStays(t: L.Tables, s: L.Step)
    ensures forall id :: Known(t, id) ==> Known(L.Apply(t, s), id)
  {
    L.ApplyKeepsIds(t, s);
    var u := L.Apply(t, s);
    forall id | Known(t, id) ensures Known(u, id) {
      var i :| 0 <= i < |t.attempts| && t.attempts[i].id == id;
      assert u.attempts[i].id == id;
    }
  }

  lemma OutcomeKeepsAttempts(t: L.Tables, now: int, id: Uuid, stored: L.AttemptStatus, s: G.FeedStatus)
    ensures forall x :: Known(t, x) ==> Known(ApplyOutcome(t, now, id, stored, s), x)
  {
    var step := OutcomeStep(now, id, stored, s);
    if step.Some? {
      KnownStays(t, step.value);
    }
  }

  /** A committed intent is new, and there was no unresolved attempt. */
  lemma BegunIsNew(t: L.Tables, now: int, threshold: nat, newId: Uuid)
    requires L.BeginAttempt(t, now, threshold, newId).1 == Ok(Some(newId))
    ensures !Known(t, newId) && Known(L.BeginAttempt(t, now, threshold, newId).0, newId)
    ensures L.FindUnresolved(t.attempts).None?
  {
    var u := L.BeginAttempt(t, now, threshold, newId).0;
    assert u.attempts[|t.attempts|].id == newId;
  }

  lemma SubmittedKeepsAttempts(t: L.Tables, threshold: nat, a: Answers)
    ensures var (u, _, posted) := Submitted(t, threshold, a);
            && (forall id :: Known(t, id) ==> Known(u, id))
            && (posted.Some? ==>
                  !Known(t, posted.value) && Known(u, posted.value) && L.FindUnresolved(t.attempts).None?)
  {
    var (begun, id) := L.BeginAttempt(t, a.now, threshold, a.newId);
    KnownStays(t, L.BeginStep(a.now, threshold, a.newId));
    if id == Ok(Some(a.newId)) {
      BegunIsNew(t, a.now, threshold, a.newId);
      if a.post.Ok? {
        OutcomeKeepsAttempts(begun, a.now, a.newId, L.IntentCommitted, a.post.value);
      } else {
        KnownStays(begun, L.UnknownStep(a.newId));
      }
    }
  }

  lemma StepsKeepAttempts(t: L.Tables, e: WorkerEvent)
    ensures var (u, posted) := After(t, e);
            && (forall id :: Known(t, id) ==> Known(u, id))
            && (posted.Some? ==>
                  !Known(t, posted.value) && Known(u, posted.value) && L.FindUnresolved(t.attempts).None?)
  {
    match e
    case Restarted => KnownStays(t, L.InterruptedStep);
    case Stepped(threshold, _, a) =>
      var unresolved := L.FindUnresolved(t.attempts);
      if unresolved.Some? {
        if a.poll.Ok? {
          var attempt := t.attempts[unresolved.value];
          OutcomeKeepsAttempts(t, a.now, attempt.id, attempt.status, a.poll.value);
        }
      } else {
        SubmittedKeepsAttempts(t, threshold, a);
      }
  }

  ghost predicate PostedOnce(t: L.Tables, u: L.Tables, posts: seq<Uuid>) {
    && (forall i, j | 0 <= i < j < |posts| :: posts[i] != posts[j])
    && (forall i | 0 <= i < |posts| :: Known(u, posts[i]) && !Known(t, posts[i]))
    && (forall id :: Known(t, id) ==> Known(u, id))
  }

  /**
   Over any life of the worker, whatever the gateway answers and however often the daemon restarts,
   every identity is POSTed at most once; after that it is only polled.
   */
  lemma {:induction false} PostsOnce(t: L.Tables, events: seq<WorkerEvent>)
    ensures PostedOnce(t, Life(t, events).0, Life(t, events).1)
  {
    if events != [] {
      var (before, posts) := Life(t, events[..|events| - 1]);
      PostsOnce(t, events[..|events| - 1]);
      StepsKeepAttempts(before, events[|events| - 1]);
      OneMorePost(t, before, posts, events[|events| - 1]);
    }
  }

  lemma OneMorePost(t: L.Tables, before: L.Tables, posts: seq<Uuid>, e: WorkerEvent)
    requires PostedOnce(t, before, posts)
    ensures var (after, posted) := After(before, e);
            PostedOnce(t, after, if posted.Some? then posts + [posted.value] else posts)
  {
    StepsKeepAttempts(before, e);
    var (after, posted) := After(before, e);
    forall i | 0 <= i < |posts| ensures Known(after, posts[i]) && (posted.Some? ==> posts[i] != posted.value) {
      assert Known(before, posts[i]);
    }
  }

  // --- Every POST was allowed ----------------------------------------------------------

  /** Event `j` of the life posted `id`, and everything allowed it then. */
  ghost predicate PostedAt(t: L.Tables, events: seq<WorkerEvent>, j: nat, id: Uuid) {
    && j < |events| && events[j].Stepped? && events[j].answers.newId == id
    && MayPost(Life(t, events[..j]).0, events[j].threshold, events[j].feederEnabled, events[j].answers)
  }

  lemma AfterKeepsInv(t: L.Tables, e: WorkerEvent)
    requires L.Inv(t)
    ensures L.Inv(After(t, e).0)
  {
    match e
    case Restarted => L.ApplyKeepsInv(t, L.InterruptedStep);
    case Stepped(threshold, feederEnabled, a) =>
      if i :| 0 <= i < |t.attempts| && L.Unresolved(t.attempts[i]) {
        if threshold > 0 {
          OpenAttemptIsPolled(t, i, threshold, feederEnabled, a);
          if a.poll.Ok? {
            BookedKeepsInv(t, a.now, t.attempts[i].id, t.attempts[i].status, a.poll.value);
          }
        }
      } else {
        SubmittedKeepsInv(t, threshold, a);
      }
  }

  lemma BookedKeepsInv(t: L.Tables, now: int, id: Uuid, stored: L.AttemptStatus, s: G.FeedStatus)
    requires L.Inv(t) && (stored == L.IntentCommitted || stored == L.Unknown)
    ensures L.Inv(Booked(t, now, id, stored, s).0)
  {
    var step := OutcomeStep(now, id, stored, s);
    if step.Some? {
      L.ApplyKeepsInv(t, step.value);
    }
  }

  lemma SubmittedKeepsInv(t: L.Tables, threshold: nat, a: Answers)
    requires L.Inv(t)
    ensures L.Inv(Submitted(t, threshold, a).0)
  {
    var begun := L.BeginAttempt(t, a.now, threshold, a.newId).0;
    L.BeginKeepsInv(t, a.now, threshold, a.newId);
    L.ApplyKeepsInv(begun, L.UnknownStep(a.newId));
    if a.post.Ok? {
      BookedKeepsInv(begun, a.now, a.newId, L.IntentCommitted, a.post.value);
    }
  }

  lemma {:induction false} LifeKeepsInv(t: L.Tables, events: seq<WorkerEvent>)
    requires L.Inv(t)
    ensures L.Inv(Life(t, events).0)
  {
    if events != [] {
      LifeKeepsInv(t, events[..|events| - 1]);
      AfterKeepsInv(Life(t, events[..|events| - 1]).0, events[|events| - 1]);
    }
  }

  /**
   Over any life of the worker, every identity that was POSTed was posted by a step that was enabled,
   whose safety reading showed the override off and the remote switch on, whose cooldown was over, and
   which had no open attempt and the credit for the feed.
   */
  lemma {:induction false} EveryPostWasAllowed(t: L.Tables, events: seq<WorkerEvent>, k: nat)
    requires L.Inv(t) && k < |Life(t, events).1|
    ensures exists j: nat :: PostedAt(t, events, j, Life(t, events).1[k])
  {
    var last := |events| - 1;
    var front := events[..last];
    var (before, posts) := Life(t, front);
    LifeKeepsInv(t, front);
    if k < |posts| {
      EveryPostWasAllowed(t, front, k);
      var j: nat :| PostedAt(t, front, j, posts[k]);
      assert front[..j] == events[..j] && front[j] == events[j];
      assert Life(t, events).1[k] == posts[k];
      assert PostedAt(t, events, j, posts[k]);
    } else {
      var e := events[last];
      PostsExactly(before, e.threshold, e.feederEnabled, e.answers);
      assert Life(t, events).1[k] == e.answers.newId;
      assert PostedAt(t, events, last, e.answers.newId);
    }
  }
}
