/**
 What each transaction of the feed ledger does, said of the attempts, sums and times it finds, and how
 long a refusal keeps the daemon from asking again.
 */
module LedgerDecisions {
  import opened Wrappers
  import opened FeedLedger
  import M = FeedRuntime

  // --- One transaction ------------------------------------------------------------------

  predicate Open(a: Attempt) { a.status in {IntentCommitted, Unknown} }

  predicate NoneOpen(attempts: seq<Attempt>) { forall i | 0 <= i < |attempts| :: !Open(attempts[i]) }

  predicate IsNew(attempts: seq<Attempt>, id: Uuid) { forall i | 0 <= i < |attempts| :: attempts[i].id != id }

  /**
   An intent is committed if and only if the threshold is positive and storable, no attempt is open, the
   cooldown is over, the credit covers it and its identity is new; during a cooldown or without credit the
   daemon waits, and everything else fails. Nothing but the intent is written.
   */
  lemma BeginIsExact(t: Tables, now: int, threshold: nat, newId: Uuid)
    requires EntriesValid(t.entries)
    ensures var (u, r) := BeginAttempt(t, now, threshold, newId);
            var allowed := 1 <= threshold <= 0x7FFF_FFFF_FFFF_FFFF && NoneOpen(t.attempts);
            var waits := now < t.resumeAfter || Sum(t.entries) < threshold;
            if allowed && !waits && IsNew(t.attempts, newId) then
              && r == Ok(Some(newId))
              && u == t.(attempts := t.attempts + [Attempt(newId, IntentCommitted, threshold)])
            else (u, r) == (t, if allowed && waits then Ok(None) else Err)
  {
    CreditIsSum(t.entries);
  }

  /** A restart turns the committed intent unknown with one public error, and leaves everything else. */
  lemma InterruptionIsExact(t: Tables, i: nat)
    requires AttemptsValid(t.attempts) && i < |t.attempts|
    ensures t.attempts[i].status == IntentCommitted ==>
              MarkInterrupted(t)
              == t.(attempts := t.attempts[i := Attempt(t.attempts[i].id, Unknown, t.attempts[i].threshold)],
                    events := t.events + [ProcessingError(None)])
    ensures (forall k | 0 <= k < |t.attempts| :: t.attempts[k].status != IntentCommitted) ==> MarkInterrupted(t) == t
  {
    FoundIs(t.attempts, i);
  }

  /** Only a committed intent turns unknown. */
  lemma UnknownIsExact(t: Tables, id: Uuid, i: nat)
    requires AttemptsValid(t.attempts) && i < |t.attempts| && t.attempts[i].id == id
    ensures MarkUnknown(t, id)
            == if t.attempts[i].status == IntentCommitted then
                 (t.(attempts := t.attempts[i := Attempt(id, Unknown, t.attempts[i].threshold)],
                     events := t.events + [ProcessingError(Some(id))]), Ok(()))
               else (t, Err)
  {
    FoundIs(t.attempts, i);
  }

  /** Only an unknown attempt is closed by hand as not fed, and the balance it announces is unchanged. */
  lemma NotFedIsExact(t: Tables, id: Uuid, i: nat)
    requires AttemptsValid(t.attempts) && EntriesValid(t.entries) && i < |t.attempts| && t.attempts[i].id == id
    ensures ReconcileNotFed(t, id)
            == if t.attempts[i].status == Unknown then
                 (t.(attempts := t.attempts[i := Attempt(id, ReconciledNotFed, t.attempts[i].threshold)],
                     events := t.events + [FeedReconciledNotFed(id, Sum(t.entries))]), Ok(()))
               else (t, Err)
  {
    FoundIs(t.attempts, i);
    CreditIsSum(t.entries);
  }

  /** An open attempt in the expected state is debited its own threshold, and no other. */
  lemma FedIsExact(t: Tables, id: Uuid, expected: AttemptStatus, i: nat)
    requires Inv(t) && (expected == IntentCommitted || expected == Unknown)
    requires i < |t.attempts| && t.attempts[i].id == id
    ensures var cost := t.attempts[i].threshold;
            ResolveAsFed(t, id, expected)
            == if t.attempts[i].status == expected then
                 (t.(attempts := t.attempts[i := Attempt(id, Confirmed, cost)],
                     entries := t.entries + [Entry(FeedKey(id), -cost)],
                     events := t.events + [FeederConfirmed(id, cost, Sum(t.entries) - cost)]), Ok(()))
               else (t, Err)
  {
    FedResult(t, id, expected);
    FoundIs(t.attempts, i);
  }

  lemma {:induction false} RangeIsEveryPrefix(entries: seq<Entry>)
    ensures SumInRange(entries) <==>
              forall k | 0 < k <= |entries| :: -0x8000_0000_0000_0000 <= Sum(entries[..k]) <= 0x7FFF_FFFF_FFFF_FFFF
  {
    if entries != [] {
      var front := entries[..|entries| - 1];
      RangeIsEveryPrefix(front);
      assert entries[..|entries|] == entries;
      assert forall k | 0 < k <= |front| :: front[..k] == entries[..k];
    }
  }

  /** On any tables: a debit needs its state, a readable balance that covers it, and a key not used before. */
  lemma DebitIsGuarded(t: Tables, expected: AttemptStatus, i: nat)
    requires AttemptsValid(t.attempts) && i < |t.attempts|
    ensures var x := t.attempts[i];
            var (u, r) := ResolveAsFed(t, x.id, expected);
            && (r.Ok? <==>
                  && x.status == expected && SumInRange(t.entries) && 0 <= x.threshold <= Sum(t.entries)
                  && forall k | 0 <= k < |t.entries| :: t.entries[k].key != FeedKey(x.id))
            && (r.Err? ==> u == t)
  {
    var x := t.attempts[i];
    FoundIs(t.attempts, i);
    AppendEntry(t.entries, Entry(FeedKey(x.id), -x.threshold));
  }

  /** An open attempt is released for one second to a day; the later of two cooldowns counts. */
  lemma ReleaseIsExact(t: Tables, now: int, id: Uuid, retryAfter: nat, i: nat)
    requires AttemptsValid(t.attempts) && i < |t.attempts| && t.attempts[i].id == id
    ensures ResolveNotDispatched(t, now, id, retryAfter)
            == if Open(t.attempts[i]) && 1 <= retryAfter <= 86_400 then
                 (t.(attempts := t.attempts[i := Attempt(id, ReconciledNotFed, t.attempts[i].threshold)],
                     resumeAfter := if t.resumeAfter >= now + retryAfter then t.resumeAfter else now + retryAfter,
                     events := t.events + [FeederNotDispatched(id, retryAfter)]), Ok(()))
               else (t, Err)
  {
    FoundIs(t.attempts, i);
  }

  /** No transaction touches an identity that was never attempted. */
  lemma StrangersFail(t: Tables, now: int, id: Uuid, expected: AttemptStatus, retryAfter: nat)
    requires IsNew(t.attempts, id)
    ensures MarkUnknown(t, id) == (t, Err) && ReconcileNotFed(t, id) == (t, Err)
    ensures ResolveAsFed(t, id, expected) == (t, Err) && ResolveNotDispatched(t, now, id, retryAfter) == (t, Err)
  {
  }

  /** A receipt is credited once under its key, with the new balance announced, unless the ledger is full. */
  lemma ReceiptIsExact(t: Tables, key: SourceKey, amount: nat)
    requires EntriesValid(t.entries)
    ensures var used := exists i | 0 <= i < |t.entries| :: t.entries[i].key == key;
            Receive(t, key, amount)
            == if used || Sum(t.entries) + amount > 0x7FFF_FFFF_FFFF_FFFF then Err
               else Ok(t.(entries := t.entries + [Entry(key, amount)],
                          events := t.events + [PaymentReceived(amount, Sum(t.entries) + amount)]))
  {
    ReceiveIs(t, key, amount);
  }

  // --- The cooldown over a run -------------------------------------------------------------

  lemma ResumeNeverFalls(t: Tables, s: Step)
    ensures t.resumeAfter <= Apply(t, s).resumeAfter
  {
  }

  lemma {:induction false} RunResumeNeverFalls(steps: seq<Step>, k: nat)
    requires k <= |steps|
    ensures Run(steps[..k]).resumeAfter <= Run(steps).resumeAfter
  {
    if k == |steps| {
      assert steps[..k] == steps;
    } else {
      var front := steps[..|steps| - 1];
      assert front[..k] == steps[..k];
      RunResumeNeverFalls(front, k);
      ResumeNeverFalls(Run(front), steps[|steps| - 1]);
    }
  }

  /** Step `k` of the run releases an attempt. */
  predicate ReleasesAt(steps: seq<Step>, k: nat) {
    && k < |steps| && steps[k].NotDispatchedStep?
    && ResolveNotDispatched(Run(steps[..k]), steps[k].now, steps[k].id, steps[k].retryAfter).1.Ok?
  }

  lemma ReleaseSetsResume(steps: seq<Step>, k: nat)
    requires ReleasesAt(steps, k)
    ensures steps[k].now + steps[k].retryAfter <= Run(steps[..k + 1]).resumeAfter
    ensures 1 <= steps[k].retryAfter <= 86_400
  {
    var upTo := steps[..k + 1];
    assert upTo[..|upTo| - 1] == steps[..k] && upTo[|upTo| - 1] == steps[k];
  }

  /**
   The wait a refusal asks for is kept: after an attempt was released with it, no intent is committed before
   it is over, whatever other transactions, refusals or restarts come in between.
   */
  lemma RefusalIsWaitedOut(steps: seq<Step>, k: nat, now: int, threshold: nat, newId: Uuid)
    requires ReleasesAt(steps, k) && BeginAttempt(Run(steps), now, threshold, newId).1 == Ok(Some(newId))
    ensures steps[k].now + steps[k].retryAfter <= now && 1 <= steps[k].retryAfter <= 86_400
  {
    RunResumeNeverFalls(steps, k + 1);
    ReleaseSetsResume(steps, k);
  }

  // --- The abstract machine ------------------------------------------------------------------

  /** A feed begins unless the override is on, an attempt is active or the credit is short, in this order. */
  lemma NextFeedIsExact(s: M.State, overrideEnabled: bool, newId: Uuid)
    ensures M.Perform(s, M.BeginNext(overrideEnabled, newId))
            == if overrideEnabled then (s, Some(M.OverrideEnabled))
               else if s.active != None then (s, Some(M.AttemptAlreadyActive))
               else if s.credit < s.threshold then (s, Some(M.NoFeedDue))
               else (M.State(s.threshold, s.credit, Some(M.Active(newId, M.IntentCommitted))), None)
  {
  }

  /** Settling, marking or closing any other attempt than the active one in the expected state fails by name. */
  lemma WrongAttemptIsNamed(s: M.State, id: Uuid, expected: M.ActiveStatus, action: M.Action)
    requires if expected == M.IntentCommitted then action in {M.Confirm(id), M.MarkUnknown(id)}
             else action in {M.ReconcileFed(id), M.ReconcileNotFed(id)}
    ensures s.active != Some(M.Active(id, expected)) ==>
              M.Perform(s, action)
              == (s, Some(if s.active == None then M.NoActiveAttempt
                          else if s.active.value.id != id then M.AttemptIdMismatch
                          else M.InvalidAttemptState))
  {
  }

  /** The right one is settled for one threshold of credit, marked, or closed for nothing. */
  lemma RightAttemptIsSettled(s: M.State, id: Uuid, expected: M.ActiveStatus)
    requires s.active == Some(M.Active(id, expected))
    ensures M.Perform(s, if expected == M.IntentCommitted then M.Confirm(id) else M.ReconcileFed(id))
            == if s.credit < s.threshold then (s, Some(M.NoFeedDue))
               else (M.State(s.threshold, s.credit - s.threshold, None), None)
    ensures expected == M.IntentCommitted ==>
              M.Perform(s, M.MarkUnknown(id)) == (M.State(s.threshold, s.credit, Some(M.Active(id, M.Unknown))), None)
    ensures expected == M.Unknown ==>
              M.Perform(s, M.ReconcileNotFed(id)) == (M.State(s.threshold, s.credit, None), None)
  {
  }

  lemma CreditIsExact(s: M.State, amount: nat)
    ensures M.Perform(s, M.Credit(amount))
            == if s.credit + amount > 0xFFFF_FFFF_FFFF_FFFF then (s, Some(M.CreditOverflow))
               else (M.State(s.threshold, s.credit + amount, s.active), None)
  {
  }
}
