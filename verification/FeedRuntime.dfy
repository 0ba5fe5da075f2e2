/**
 The abstract feed machine (src/domain/feed.rs) and the proof that, for a fixed threshold, the
 stored tables of FeedLedger refine it.
 */
module FeedRuntime {
  import opened Wrappers
  import L = FeedLedger

  datatype FeedError =
    | ZeroThreshold
    | CreditOverflow
    | NoFeedDue
    | OverrideEnabled
    | AttemptAlreadyActive
    | NoActiveAttempt
    | AttemptIdMismatch
    | InvalidAttemptState

  datatype ActiveStatus = IntentCommitted | Unknown

  datatype Active = Active(id: Uuid, status: ActiveStatus)

  /** `FeedRuntime` with its `FeedLedger`. */
  datatype State = State(threshold: nat, credit: nat, active: Option<Active>)

  datatype Action =
    | Credit(amount: nat)
    | BeginNext(overrideEnabled: bool, newId: Uuid)
    | Confirm(id: Uuid)
    | MarkUnknown(id: Uuid)
    | ReconcileFed(id: Uuid)
    | ReconcileNotFed(id: Uuid)

  /** `require_attempt`. */
  function Mismatch(s: State, id: Uuid, expected: ActiveStatus): Option<FeedError> {
    match s.active
    case None => Some(NoActiveAttempt)
    case Some(a) =>
      if a.id != id then Some(AttemptIdMismatch)
      else if a.status != expected then Some(InvalidAttemptState)
      else None
  }

  function Debit(s: State, id: Uuid, expected: ActiveStatus): (State, Option<FeedError>) {
    var mismatch := Mismatch(s, id, expected);
    if mismatch.Some? then (s, mismatch)
    else if s.credit < s.threshold then (s, Some(NoFeedDue))
    else (State(s.threshold, s.credit - s.threshold, None), None)
  }

  function Perform(s: State, action: Action): (State, Option<FeedError>) {
    match action
    case Credit(amount) =>
      if s.credit + amount > U64_MAX then (s, Some(CreditOverflow)) else (s.(credit := s.credit + amount), None)
    case BeginNext(overrideEnabled, newId) =>
      if overrideEnabled then (s, Some(OverrideEnabled))
      else if s.active.Some? then (s, Some(AttemptAlreadyActive))
      else if s.credit < s.threshold then (s, Some(NoFeedDue))
      else (s.(active := Some(Active(newId, IntentCommitted))), None)
    case Confirm(id) => Debit(s, id, IntentCommitted)
    case MarkUnknown(id) =>
      var mismatch := Mismatch(s, id, IntentCommitted);
      if mismatch.Some? then (s, mismatch) else (s.(active := Some(Active(id, Unknown))), None)
    case ReconcileFed(id) => Debit(s, id, Unknown)
    case ReconcileNotFed(id) =>
      var mismatch := Mismatch(s, id, Unknown);
      if mismatch.Some? then (s, mismatch) else (s.(active := None), None)
  }

  class Runtime {
    const threshold: nat
    var credit: nat
    var active: Option<Active>

    function Value(): State
      reads this
    {
      State(threshold, credit, active)
    }

    constructor (threshold: nat, credit: nat)
      requires threshold > 0
      ensures Value() == State(threshold, credit, None)
    {
      this.threshold, this.credit, active := threshold, credit, None;
    }

    function FeedsDue(): nat
      requires threshold > 0
      reads this
    {
      credit / threshold
    }

    method AddCredit(amount: nat) returns (error: Option<FeedError>)
      modifies this
      ensures (Value(), error) == Perform(old(Value()), Credit(amount))
    {
      if credit + amount > U64_MAX {
        return Some(CreditOverflow);
      }
      credit := credit + amount;
      error := None;
    }

    method BeginNextFeed(overrideEnabled: bool, newId: Uuid) returns (error: Option<FeedError>)
      requires threshold > 0
      modifies this
      ensures (Value(), error) == Perform(old(Value()), BeginNext(overrideEnabled, newId))
    {
      if overrideEnabled {
        return Some(OverrideEnabled);
      }
      if active.Some? {
        return Some(AttemptAlreadyActive);
      }
      DueExactlyWhenCovered(credit, threshold);
      if FeedsDue() == 0 {
        return Some(NoFeedDue);
      }
      active := Some(Active(newId, IntentCommitted));
      error := None;
    }

    method Settle(id: Uuid, expected: ActiveStatus) returns (error: Option<FeedError>)
      modifies this
      ensures (Value(), error) == Debit(old(Value()), id, expected)
    {
      error := Mismatch(Value(), id, expected);
      if error.Some? {
        return;
      }
      if credit < threshold {
        return Some(NoFeedDue);
      }
      credit := credit - threshold;
      active := None;
    }

    method MarkFeedUnknown(id: Uuid) returns (error: Option<FeedError>)
      modifies this
      ensures (Value(), error) == Perform(old(Value()), MarkUnknown(id))
    {
      error := Mismatch(Value(), id, IntentCommitted);
      if error.None? {
        active := Some(Active(id, Unknown));
      }
    }

    method ReconcileUnknownAsNotFed(id: Uuid) returns (error: Option<FeedError>)
      modifies this
      ensures (Value(), error) == Perform(old(Value()), ReconcileNotFed(id))
    {
      error := Mismatch(Value(), id, Unknown);
      if error.None? {
        active := None;
      }
    }
  }

  lemma DueExactlyWhenCovered(credit: nat, threshold: nat)
    requires threshold > 0
    ensures credit / threshold == 0 <==> credit < threshold
  {
    var q, r := credit / threshold, credit % threshold;
    assert credit == q * threshold + r;
    if q >= 1 {
      assert q * threshold >= threshold;
    }
  }

  // --- Refinement ----------------------------------------------------------------

  /** The abstract state a set of tables stands for. */
  function Abstract(t: L.Tables, threshold: nat): State {
    State(threshold, Max(0, L.Sum(t.entries)),
          match L.FindUnresolved(t.attempts)
          case None => None
          case Some(i) =>
            Some(Active(t.attempts[i].id,
                        if t.attempts[i].status == L.IntentCommitted then IntentCommitted else Unknown)))
  }

  /** The abstract actions one store transaction performs: none, one or two. */
  function Actions(t: L.Tables, step: L.Step): (actions: seq<Action>)
    ensures |actions| <= 2
  {
    match step
    case ReceiveStep(key, amount) => if L.Receive(t, key, amount).Ok? then [Credit(amount)] else []
    case InformStep(_) => []
    case InterruptedStep =>
      var row := L.FindUnresolved(t.attempts);
      if row.Some? && t.attempts[row.value].status == L.IntentCommitted
      then [MarkUnknown(t.attempts[row.value].id)] else []
    case BeginStep(now, threshold, newId) =>
      if L.BeginAttempt(t, now, threshold, newId).1 == Ok(Some(newId)) then [BeginNext(false, newId)] else []
    case UnknownStep(id) => if L.MarkUnknown(t, id).1.Ok? then [MarkUnknown(id)] else []
    case FedStep(id, expected) =>
      if L.ResolveAsFed(t, id, expected).1.Err? then []
      else if expected == L.IntentCommitted then [Confirm(id)] else [ReconcileFed(id)]
    case NotFedStep(id) => if L.ReconcileNotFed(t, id).1.Ok? then [ReconcileNotFed(id)] else []
    case NotDispatchedStep(now, id, retryAfter) =>
      if L.ResolveNotDispatched(t, now, id, retryAfter).1.Err? then []
      else if L.FindIn(t.attempts, id, {L.IntentCommitted}).Some? then [MarkUnknown(id), ReconcileNotFed(id)]
      else [ReconcileNotFed(id)]
  }

  /** Performs the actions in order; none of them may be refused. */
  function PerformAll(s: State, actions: seq<Action>): Option<State>
    decreases |actions|
  {
    if actions == [] then Some(s)
    else
      var (next, error) := Perform(s, actions[0]);
      if error.Some? then None else PerformAll(next, actions[1..])
  }

  /** Every attempt of the run was begun for the one threshold. */
  ghost predicate FixedThreshold(attempts: seq<L.Attempt>, threshold: nat) {
    forall i | 0 <= i < |attempts| :: attempts[i].threshold == threshold
  }

  predicate UsesThreshold(step: L.Step, threshold: nat) {
    step.BeginStep? ==> step.threshold == threshold
  }

  lemma OnlyLastUnresolved(attempts: seq<L.Attempt>, i: nat)
    requires L.AttemptsValid(attempts) && i < |attempts| && L.Unresolved(attempts[i])
    ensures i == |attempts| - 1
    ensures L.FindUnresolved(attempts) == Some(i)
  {
  }

  lemma StatusChangeAbstracts(attempts: seq<L.Attempt>, i: nat, status: L.AttemptStatus)
    requires L.AttemptsValid(attempts) && i < |attempts| && L.Unresolved(attempts[i])
    ensures var after := L.SetStatus(attempts, i, status);
            L.FindUnresolved(after)
            == if L.Unresolved(attempts[i].(status := status)) then Some(i) else None
  {
    OnlyLastUnresolved(attempts, i);
  }

  lemma One(s: State, action: Action)
    requires Perform(s, action).1.None?
    ensures PerformAll(s, [action]) == Some(Perform(s, action).0)
  {
    assert PerformAll(Perform(s, action).0, []) == Some(Perform(s, action).0);
  }

  lemma ReceiveAbstracts(t: L.Tables, key: L.SourceKey, amount: nat, threshold: nat)
    requires L.EntriesValid(t.entries) && L.Receive(t, key, amount).Ok?
    ensures Abstract(L.Receive(t, key, amount).value, threshold)
            == Abstract(t, threshold).(credit := L.Sum(t.entries) + amount)
  {
    L.ReceiveIs(t, key, amount);
    L.AppendEntry(t.entries, L.Entry(key, amount));
  }

  lemma ReceiveRefines(t: L.Tables, key: L.SourceKey, amount: nat, threshold: nat)
    requires L.Inv(t) && !key.FeedKey?
    ensures var step := L.ReceiveStep(key, amount);
            PerformAll(Abstract(t, threshold), Actions(t, step)) == Some(Abstract(L.Apply(t, step), threshold))
  {
    L.ReceiveKeepsInv(t, key, amount);
    if L.Receive(t, key, amount).Ok? {
      ReceiveAbstracts(t, key, amount, threshold);
      One(Abstract(t, threshold), Credit(amount));
    }
  }

  /** Interruption, mark-unknown and reconcile-not-fed each move the one unresolved attempt. */
  lemma StatusStepRefines(t: L.Tables, step: L.Step, threshold: nat)
    requires L.Inv(t) && (step.InterruptedStep? || step.UnknownStep? || step.NotFedStep?)
    ensures PerformAll(Abstract(t, threshold), Actions(t, step)) == Some(Abstract(L.Apply(t, step), threshold))
  {
    if Actions(t, step) != [] {
      var status := if step.NotFedStep? then L.ReconciledNotFed else L.Unknown;
      var i := if step.UnknownStep? then L.FindIn(t.attempts, step.id, {L.IntentCommitted}).value
               else if step.NotFedStep? then L.FindIn(t.attempts, step.id, {L.Unknown}).value
               else L.FindUnresolved(t.attempts).value;
      OnlyLastUnresolved(t.attempts, i);
      StatusChangeAbstracts(t.attempts, i, status);
      One(Abstract(t, threshold), Actions(t, step)[0]);
    }
  }

  lemma BeginRefines(t: L.Tables, now: int, threshold: nat, newId: Uuid)
    requires L.Inv(t) && threshold > 0
    ensures var step := L.BeginStep(now, threshold, newId);
            PerformAll(Abstract(t, threshold), Actions(t, step)) == Some(Abstract(L.Apply(t, step), threshold))
  {
    if Actions(t, L.BeginStep(now, threshold, newId)) != [] {
      One(Abstract(t, threshold), BeginNext(false, newId));
    }
  }

  lemma FedRefines(t: L.Tables, id: Uuid, expected: L.AttemptStatus, threshold: nat)
    requires L.AttemptsValid(t.attempts) && L.Covered(t) && FixedThreshold(t.attempts, threshold)
    requires expected == L.IntentCommitted || expected == L.Unknown
    requires L.ResolveAsFed(t, id, expected)
             == match L.FindIn(t.attempts, id, {expected})
                case Some(i) => (L.Debited(t, i), Ok(()))
                case None => (t, Err)
    ensures var step := L.FedStep(id, expected);
            PerformAll(Abstract(t, threshold), Actions(t, step)) == Some(Abstract(L.Apply(t, step), threshold))
  {
    var row := L.FindIn(t.attempts, id, {expected});
    if row.Some? {
      DebitRefines(t, row.value, threshold);
    }
  }

  lemma DebitRefines(t: L.Tables, i: nat, threshold: nat)
    requires L.AttemptsValid(t.attempts) && i < |t.attempts| && L.Unresolved(t.attempts[i])
    requires t.attempts[i].threshold == threshold <= L.Sum(t.entries)
    ensures var a := t.attempts[i];
            PerformAll(Abstract(t, threshold),
                       [if a.status == L.IntentCommitted then Confirm(a.id) else ReconcileFed(a.id)])
            == Some(Abstract(L.Debited(t, i), threshold))
  {
    var a := t.attempts[i];
    DebitAbstracts(t, i, threshold);
    One(Abstract(t, threshold), if a.status == L.IntentCommitted then Confirm(a.id) else ReconcileFed(a.id));
  }

  lemma DebitAbstracts(t: L.Tables, i: nat, threshold: nat)
    requires L.AttemptsValid(t.attempts) && i < |t.attempts| && L.Unresolved(t.attempts[i])
    requires t.attempts[i].threshold == threshold <= L.Sum(t.entries)
    ensures var a := t.attempts[i];
            Debit(Abstract(t, threshold), a.id, if a.status == L.IntentCommitted then IntentCommitted else Unknown)
            == (Abstract(L.Debited(t, i), threshold), None)
  {
    var a := t.attempts[i];
    L.AppendEntry(t.entries, L.Entry(L.FeedKey(a.id), -a.threshold));
    OnlyLastUnresolved(t.attempts, i);
    StatusChangeAbstracts(t.attempts, i, L.Confirmed);
  }

  /** One store transaction is zero, one or two abstract actions, all of them enabled. */
  lemma StepRefines(t: L.Tables, step: L.Step, threshold: nat)
    requires L.Inv(t) && L.Legal(step) && threshold > 0
    requires FixedThreshold(t.attempts, threshold) && UsesThreshold(step, threshold)
    ensures PerformAll(Abstract(t, threshold), Actions(t, step)) == Some(Abstract(L.Apply(t, step), threshold))
  {
    match step
    case ReceiveStep(key, amount) => ReceiveRefines(t, key, amount, threshold);
    case InformStep(_) =>
    case BeginStep(now, _, newId) => BeginRefines(t, now, threshold, newId);
    case FedStep(id, expected) =>
      L.FedResult(t, id, expected);
      FedRefines(t, id, expected, threshold);
    case NotDispatchedStep(now, id, retryAfter) => NotDispatchedRefines(t, now, id, retryAfter, threshold);
    case _ => StatusStepRefines(t, step, threshold);
  }

  lemma StepKeepsThreshold(t: L.Tables, step: L.Step, threshold: nat)
    requires FixedThreshold(t.attempts, threshold) && UsesThreshold(step, threshold)
    ensures FixedThreshold(L.Apply(t, step).attempts, threshold)
  {
  }

  /** Releasing an intent as not dispatched is mark-unknown followed by reconcile-not-fed. */
  lemma NotDispatchedRefines(t: L.Tables, now: int, id: Uuid, retryAfter: nat, threshold: nat)
    requires L.Inv(t)
    ensures var step := L.NotDispatchedStep(now, id, retryAfter);
            PerformAll(Abstract(t, threshold), Actions(t, step)) == Some(Abstract(L.Apply(t, step), threshold))
  {
    var s := Abstract(t, threshold);
    if L.ResolveNotDispatched(t, now, id, retryAfter).1.Ok? {
      var i := L.FindIn(t.attempts, id, {L.IntentCommitted, L.Unknown}).value;
      StatusChangeAbstracts(t.attempts, i, L.ReconciledNotFed);
      OnlyLastUnresolved(t.attempts, i);
      if t.attempts[i].status == L.IntentCommitted {
        var mid := Perform(s, MarkUnknown(id)).0;
        One(mid, ReconcileNotFed(id));
        assert [MarkUnknown(id), ReconcileNotFed(id)][1..] == [ReconcileNotFed(id)];
      } else {
        One(s, ReconcileNotFed(id));
      }
    }
  }

  function Trace(steps: seq<L.Step>): seq<Action> {
    if steps == [] then []
    else
      var front := steps[..|steps| - 1];
      Trace(front) + Actions(L.Run(front), steps[|steps| - 1])
  }

  lemma {:induction false} PerformAllConcat(s: State, a: seq<Action>, b: seq<Action>)
    ensures PerformAll(s, a + b)
            == match PerformAll(s, a) case None => None case Some(mid) => PerformAll(mid, b)
    decreases |a|
  {
    if a == [] {
      assert a + b == b;
    } else {
      assert (a + b)[0] == a[0] && (a + b)[1..] == a[1..] + b;
      PerformAllConcat(Perform(s, a[0]).0, a[1..], b);
    }
  }

  /**
   Any run of the store at one threshold is a run of the abstract machine in which no action is
   refused, and the active attempt always has the credit to pay for it.
   */
  lemma {:induction false} RunRefines(steps: seq<L.Step>, threshold: nat)
    requires threshold > 0
    requires forall step | step in steps :: L.Legal(step) && UsesThreshold(step, threshold)
    ensures var t := L.Run(steps);
            && PerformAll(State(threshold, 0, None), Trace(steps)) == Some(Abstract(t, threshold))
            && FixedThreshold(t.attempts, threshold)
            && (Abstract(t, threshold).active.Some? ==> threshold <= Abstract(t, threshold).credit)
  {
    L.RunKeepsInv(steps);
    if steps != [] {
      var front, last := steps[..|steps| - 1], steps[|steps| - 1];
      RunRefines(front, threshold);
      L.RunKeepsInv(front);
      StepRefines(L.Run(front), last, threshold);
      StepKeepsThreshold(L.Run(front), last, threshold);
      PerformAllConcat(State(threshold, 0, None), Trace(front), Actions(L.Run(front), last));
    }
  }
}
