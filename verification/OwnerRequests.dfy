/**
 What the owner answers to a request and what each of its steps does, said of the rows, times and flags
 it sees, and what follows for a whole run: a pulse goes back to a request that was fresh when it came.
 */
module OwnerRequests {
  import opened Wrappers
  import opened FeederOwner

  // --- Admission ---------------------------------------------------------------------

  /** What a stored ledger must look like: at most 32 distinct receipts whose times are in order. */
  predicate Sound(ledger: Ledger) {
    && |ledger| <= 32
    && (forall i, j | 0 <= i < j < |ledger| :: ledger[i].id != ledger[j].id)
    && (forall i | 0 <= i < |ledger| :: ledger[i].status == Complete ==> ledger[i].updatedAt.Some?)
    && (forall i | 0 <= i < |ledger| && ledger[i].updatedAt.Some? :: ledger[i].at <= ledger[i].updatedAt.value)
  }

  /** The item shows a sound ledger, and it is the newest persisted row. */
  predicate Restored(o: Owner, ledger: Ledger) {
    o.item == Some(ledger) && Sound(ledger) && o.history != [] && o.history[|o.history| - 1].ledger == ledger
  }

  predicate Lists(ledger: Ledger, id: Uuid) { exists i | 0 <= i < |ledger| :: ledger[i].id == id }

  predicate Finished(ledger: Ledger) { forall i | 0 <= i < |ledger| :: ledger[i].status == Complete }

  /** A command is answered at most two minutes after it was made, and at most half a minute before. */
  predicate Fresh(request: Request, now: int) { -30_000 <= now - request.requestedAt <= 120_000 }

  /** Five seconds have passed since every completion in the ledger and since the cached start. */
  predicate Cooled(ledger: Ledger, cached: Option<int>, now: int) {
    && (forall i | 0 <= i < |ledger| && ledger[i].updatedAt.Some? :: ledger[i].updatedAt.value + 5000 <= now)
    && (cached.Some? ==> cached.value + 5000 <= now)
  }

  lemma {:induction false} LastStartIsNewest(ledger: Ledger, cached: Option<int>, now: int)
    ensures (LastStart(ledger, cached).Some? ==> LastStart(ledger, cached).value + 5000 <= now)
            <==> Cooled(ledger, cached, now)
  {
    if ledger != [] {
      LastStartIsNewest(ledger[1..], cached, now);
      assert ledger == [ledger[0]] + ledger[1..];
      var rest := LastStart(ledger[1..], cached);
      if Cooled(ledger, cached, now) {
        forall i | 0 <= i < |ledger[1..]| && ledger[1..][i].updatedAt.Some?
          ensures ledger[1..][i].updatedAt.value + 5000 <= now
        {
          assert ledger[1..][i] == ledger[i + 1];
        }
      }
      if Cooled(ledger[1..], cached, now) && (ledger[0].updatedAt.Some? ==> ledger[0].updatedAt.value + 5000 <= now) {
        forall i | 0 <= i < |ledger| && ledger[i].updatedAt.Some? ensures ledger[i].updatedAt.value + 5000 <= now {
          assert i > 0 ==> ledger[i] == ledger[1..][i - 1];
        }
      }
    }
  }

  lemma SoundIsValid(ledger: Ledger)
    ensures Sound(ledger) <==> ValidLedger(ledger)
  {
    if Sound(ledger) {
      forall i | 0 <= i < |ledger| ensures ValidEntry(ledger[i]) {
      }
    }
    if ValidLedger(ledger) {
      forall i | 0 <= i < |ledger| ensures ledger[i].status == Complete ==> ledger[i].updatedAt.Some? {
        assert ValidEntry(ledger[i]);
      }
    }
  }

  /** A request is admitted if and only if everything allows it. */
  lemma AdmissionIsExact(o: Owner, request: Request, now: int, fits: bool)
    ensures Receive(o, request, now, fits).1 == Admitted <==>
              && o.guard.None? && o.item.Some? && Restored(o, o.item.value)
              && !Lists(o.item.value, request.id) && Finished(o.item.value)
              && Fresh(request, now) && |o.item.value| < 32
              && Cooled(o.item.value, o.cachedStart, now) && fits
  {
    if o.item.Some? {
      SoundIsValid(o.item.value);
      LastStartIsNewest(o.item.value, o.cachedStart, now);
    }
  }

  /** Every refusal names the first thing that stands in the way. */
  lemma RefusalsAreExact(o: Owner, request: Request, now: int, fits: bool)
    ensures var reply := Receive(o, request, now, fits).1;
            && (reply == Busy <==> o.guard.Some?)
            && (reply == RestoreMissing <==> o.guard.None? && o.item.None?)
            && (o.guard.None? && o.item.Some? ==>
                  var ledger := o.item.value;
                  && (reply == LedgerInvalid <==> !Sound(ledger))
                  && (reply == RestoreConflict <==> Sound(ledger) && !Restored(o, ledger))
                  && (Restored(o, ledger) ==>
                        && (reply.Replayed? <==> Lists(ledger, request.id))
                        && (forall i | 0 <= i < |ledger| && ledger[i].id == request.id ::
                              reply == Replayed(ledger[i].status))
                        && (!Lists(ledger, request.id) ==>
                              && (reply == RestartUncertain <==> !Finished(ledger))
                              && (reply == RequestStale <==> Finished(ledger) && !Fresh(request, now)))))
  {
    if o.item.Some? {
      SoundIsValid(o.item.value);
    }
  }

  /** A fresh new request on a finished ledger waits only for room and for the cooldown. */
  lemma LateRefusalsAreExact(o: Owner, request: Request, now: int, fits: bool)
    requires o.guard.None? && o.item.Some? && Restored(o, o.item.value)
    requires !Lists(o.item.value, request.id) && Finished(o.item.value) && Fresh(request, now)
    ensures var ledger, reply := o.item.value, Receive(o, request, now, fits).1;
            && (reply == Cooldown <==> |ledger| < 32 && !Cooled(ledger, o.cachedStart, now))
            && (reply == LedgerFull <==> |ledger| == 32 || (Cooled(ledger, o.cachedStart, now) && !fits))
  {
    SoundIsValid(o.item.value);
    LastStartIsNewest(o.item.value, o.cachedStart, now);
  }

  /** A refused request, a stale one included, moves nothing but the next token. */
  lemma RefusedIsIdle(o: Owner, request: Request, now: int, fits: bool)
    requires Receive(o, request, now, fits).1 != Admitted
    ensures Receive(o, request, now, fits).0 == o.(nextToken := o.nextToken + 1)
  {
  }

  /** An admitted request takes the guard and asks for its receipt in front of all others. */
  lemma AdmittedAsksForReceipt(o: Owner, request: Request, now: int, fits: bool)
    requires Receive(o, request, now, fits).1 == Admitted
    ensures var p := Receive(o, request, now, fits).0;
            var ledger := [Entry(request.id, Accepted, now, None)] + o.item.value;
            && p.guard == Some(Run(o.nextToken, request.id, now, ledger, AcceptPosted))
            && p.pendingItem == Some(ledger) && p.nextToken == o.nextToken + 1
            && p.item == o.item && p.history == o.history && p.pulses == o.pulses && p.cachedStart == o.cachedStart
  {
    WithoutAbsent(o.item.value, request.id);
  }

  // --- The steps of an admitted request ------------------------------------------------

  /** ON is sent if and only if the receipt is armed and the clock has not gone back; it is sent now. */
  lemma SwitchOnIsExact(o: Owner, now: int, threw: bool)
    ensures var p, armed := SwitchOn(o, now, threw), o.guard.Some? && o.guard.value.phase == Armed;
            && (p.pulses != o.pulses <==> armed && o.guard.value.startedAt <= now)
            && (p.pulses != o.pulses ==>
                  && p.pulses == o.pulses + [Pulse(o.guard.value.id, now)] && p.cachedStart == Some(now)
                  && p.guard == Some(o.guard.value.(phase := if threw then Held else Pulsing(now))))
            && (armed && now < o.guard.value.startedAt ==> p == o.(guard := Some(o.guard.value.(phase := Held))))
            && (!armed ==> p == o)
  {
  }

  /** The timer completes the receipt if and only if it owns the guard, a second has passed and the counter agrees. */
  lemma TimerIsExact(o: Owner, token: nat, now: int, counterOk: bool)
    ensures var p := TimerFires(o, token, now, counterOk);
            var owns := o.guard.Some? && o.guard.value.token == token && o.guard.value.phase.Pulsing?
                        && o.guard.value.phase.onAt + 1000 <= now;
            && (owns && counterOk ==>
                  && p.pendingItem.Some? && p.guard.Some?
                  && p.guard.value == o.guard.value.(ledger := p.pendingItem.value, phase := CompletePosted)
                  && p == o.(guard := p.guard, pendingItem := p.pendingItem))
            && (owns && !counterOk ==> p == o.(guard := Some(o.guard.value.(phase := Held))))
            && (!owns ==> p == o)
  {
  }

  /** What it completes: its own receipt, now, and no other. */
  lemma {:induction false} CompletionIsExact(ledger: Ledger, id: Uuid, now: int)
    ensures var after := TerminalLedger(ledger, id, Complete, now);
            && |after| == |ledger|
            && forall i | 0 <= i < |ledger| ::
                 after[i] == if ledger[i].id == id then Entry(id, Complete, ledger[i].at, Some(now)) else ledger[i]
  {
    if ledger != [] {
      CompletionIsExact(ledger[1..], id, now);
    }
  }

  /** The item is handed to the database once it shows what was written, and never otherwise. */
  lemma ItemReadBackIsExact(o: Owner)
    ensures var p := ItemReadBack(o);
            var shown := o.guard.Some? && o.item == Some(o.guard.value.ledger);
            && (shown && o.guard.value.phase == AcceptPosted ==>
                  p == o.(guard := Some(o.guard.value.(phase := AcceptPersisting)), pendingPersist := o.item))
            && (shown && o.guard.value.phase == CompletePosted ==>
                  p == o.(guard := Some(o.guard.value.(phase := CompletePersisting)), pendingPersist := o.item))
            && (!shown || (o.guard.value.phase != AcceptPosted && o.guard.value.phase != CompletePosted) ==> p == o)
  {
  }

  /** The pulse is armed, or the guard released, once item and newest row both show what was written. */
  lemma PersistReadBackIsExact(o: Owner)
    ensures var p := PersistReadBack(o);
            var shown := o.guard.Some? && o.item == Some(o.guard.value.ledger)
                         && o.history != [] && o.history[|o.history| - 1].ledger == o.guard.value.ledger;
            && (shown && o.guard.value.phase == AcceptPersisting ==>
                  p == o.(guard := Some(o.guard.value.(phase := Armed))))
            && (shown && o.guard.value.phase == CompletePersisting ==> p == o.(guard := None))
            && (!shown || (o.guard.value.phase != AcceptPersisting && o.guard.value.phase != CompletePersisting) ==>
                  p == o)
  {
  }

  /** The requested update lands, is read back and persisted, and that is read back too. */
  function Written(o: Owner, at: int): Owner { PersistReadBack(PersistLands(ItemReadBack(ItemLands(o)), at)) }

  lemma AdmissionIsWritten(o: Owner, request: Request, now: int, fits: bool, at: int)
    requires Receive(o, request, now, fits).1 == Admitted
    ensures var ledger := [Entry(request.id, Accepted, now, None)] + o.item.value;
            Written(Receive(o, request, now, fits).0, at)
            == o.(item := Some(ledger), history := o.history + [Snapshot(at, ledger)],
                  guard := Some(Run(o.nextToken, request.id, now, ledger, Armed)), nextToken := o.nextToken + 1,
                  pendingItem := None, pendingPersist := None)
  {
    AdmittedAsksForReceipt(o, request, now, fits);
  }

  lemma PulseIsWritten(o: Owner, on: int, off: int, at: int)
    requires o.guard.Some? && o.guard.value.phase == Armed && o.guard.value.startedAt <= on && on + 1000 <= off
    ensures var run := o.guard.value;
            var ledger := TerminalLedger(run.ledger, run.id, Complete, off);
            Written(TimerFires(SwitchOn(o, on, false), run.token, off, true), at)
            == o.(item := Some(ledger), history := o.history + [Snapshot(at, ledger)], guard := None,
                  cachedStart := Some(on), pendingItem := None, pendingPersist := None,
                  pulses := o.pulses + [Pulse(run.id, on)])
  {
  }

  lemma AdmittedIsCompleted(o: Owner, request: Request, now: int, fits: bool, off: int)
    requires Receive(o, request, now, fits).1 == Admitted
    ensures TerminalLedger([Entry(request.id, Accepted, now, None)] + o.item.value, request.id, Complete, off)
            == [Entry(request.id, Complete, now, Some(off))] + o.item.value
  {
    AdmissionIsExact(o, request, now, fits);
    CompletionIsExact([Entry(request.id, Accepted, now, None)] + o.item.value, request.id, off);
  }

  /**
   Left alone, an admitted request pulses once and is finished: item and newest row show it complete in
   front of the receipts that were there, the start is cached, and the guard is free again.
   */
  lemma FeedingIsExact(
      o: Owner, request: Request, now: int, fits: bool, on: int, off: int, accepted: int, completed: int)
    requires Receive(o, request, now, fits).1 == Admitted && now <= on && on + 1000 <= off
    ensures var before := [Entry(request.id, Accepted, now, None)] + o.item.value;
            var after := [Entry(request.id, Complete, now, Some(off))] + o.item.value;
            var armed := Written(Receive(o, request, now, fits).0, accepted);
            Written(TimerFires(SwitchOn(armed, on, false), o.nextToken, off, true), completed)
            == o.(item := Some(after), nextToken := o.nextToken + 1, cachedStart := Some(on),
                  history := o.history + [Snapshot(accepted, before), Snapshot(completed, after)],
                  pendingItem := None, pendingPersist := None, pulses := o.pulses + [Pulse(request.id, on)])
  {
    var before := [Entry(request.id, Accepted, now, None)] + o.item.value;
    var after := [Entry(request.id, Complete, now, Some(off))] + o.item.value;
    AdmissionIsWritten(o, request, now, fits, accepted);
    PulseIsWritten(Written(Receive(o, request, now, fits).0, accepted), on, off, completed);
    AdmittedIsCompleted(o, request, now, fits, off);
    assert o.history + [Snapshot(accepted, before)] + [Snapshot(completed, after)]
           == o.history + [Snapshot(accepted, before), Snapshot(completed, after)];
  }

  // --- Whole runs ------------------------------------------------------------------------

  /** Neither a request, nor a foreign update of the item, nor another restart. */
  predicate Internal(step: Step) { !step.ReceiveStep? && !step.ItemWrittenStep? && !step.RestartStep? }

  /**
   A restart forgets every run that was under way: until the next request or foreign update no timer,
   read-back or late write of it changes anything; only item, rows and pulses of before are left.
   */
  lemma {:induction false} RestartForgets(steps: seq<TimedStep>, k: nat)
    requires k < |steps| && steps[k].step.RestartStep?
    requires forall i | k < i < |steps| :: Internal(steps[i].step)
    ensures var before := RunAll(steps[..k]);
            RunAll(steps)
            == Owner(steps[k].step.restored, before.history, None, before.nextToken, None, None, None, before.pulses)
  {
    var front := steps[..|steps| - 1];
    if k < |front| {
      assert front[..k] == steps[..k];
      RestartForgets(front, k);
      assert Internal(steps[|steps| - 1].step);
    }
  }

  /** A request for this identity was received while it was fresh. */
  ghost predicate Asked(steps: seq<TimedStep>, id: Uuid) {
    exists j | 0 <= j < |steps| ::
      steps[j].step.ReceiveStep? && steps[j].step.request.id == id && Fresh(steps[j].step.request, steps[j].at)
  }

  ghost predicate AllAsked(o: Owner, steps: seq<TimedStep>) {
    && (o.guard.Some? ==> Asked(steps, o.guard.value.id))
    && (forall k | 0 <= k < |o.pulses| :: Asked(steps, o.pulses[k].id))
  }

  lemma AskedStays(steps: seq<TimedStep>, last: TimedStep, id: Uuid)
    requires Asked(steps, id)
    ensures Asked(steps + [last], id)
  {
    var after := steps + [last];
    var j :| 0 <= j < |steps| && steps[j].step.ReceiveStep? && steps[j].step.request.id == id
             && Fresh(steps[j].step.request, steps[j].at);
    assert after[j] == steps[j];
  }

  lemma ApplyKeepsAsked(o: Owner, steps: seq<TimedStep>, last: TimedStep)
    requires AllAsked(o, steps)
    ensures AllAsked(Apply(o, last.at, last.step), steps + [last])
  {
    var p, after := Apply(o, last.at, last.step), steps + [last];
    assert after[|steps|] == last;
    forall id | Asked(steps, id) ensures Asked(after, id) {
      AskedStays(steps, last, id);
    }
    if last.step.ReceiveStep? {
      AdmissionIsExact(o, last.step.request, last.at, last.step.fits);
    }
  }

  /** Every pulse goes back to a request that was received at most 120 seconds after it was made. */
  lemma {:induction false} PulsesAreAsked(steps: seq<TimedStep>)
    ensures AllAsked(RunAll(steps), steps)
  {
    if steps != [] {
      var front, last := steps[..|steps| - 1], steps[|steps| - 1];
      PulsesAreAsked(front);
      ApplyKeepsAsked(RunAll(front), front, last);
      assert front + [last] == steps;
    }
  }
}
