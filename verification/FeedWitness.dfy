/**
 One feeding of the whole system, action by action. It ends debitable, and it stops being so when the
 owner's host restarts without restoring the ledger item: then neither a debit nor a release is possible
 until the item is restored or an operator decides.
 */
module FeedWitness {
  import opened Wrappers
  import opened FeedProtocol
  import opened FeedSafety
  import opened FeedProgress
  import opened FeedRelease
  import L = FeedLedger
  import S = GatewayStore
  import G = GatewayServer
  import O = FeederOwner
  import R = OwnerReader

  const LIMITS: S.Limits := S.Limits(5, 1)
  const ID: Uuid := 7
  const SECONDS: nat := 946_684_800

  const QUIET: Input := Input(false, false, false, None, R.ResultEmpty, [])
  const DELIVERED: Input := QUIET.(delivered := true, ok := true)

  /** Credit arrives, an attempt is committed, posted, admitted and commanded; the owner feeds. */
  const FEEDING: seq<Action> := [
    Tick(R.START),
    Receive(L.PaymentKey("strike", "1"), 1000),
    BeginFeed(1000, ID),
    SendPost,
    Spawn(0, ID, true),
    Advance(0, QUIET),
    Advance(0, QUIET),
    Advance(0, QUIET),
    Advance(0, DELIVERED),
    OwnerStep(O.ReceiveStep(O.Request(ID, R.START), true)),
    OwnerStep(O.ItemLandsStep),
    OwnerStep(O.ItemReadBackStep),
    OwnerStep(O.PersistLandsStep),
    OwnerStep(O.PersistReadBackStep),
    OwnerStep(O.SwitchOnStep(false)),
    Tick(1000),
    OwnerStep(O.TimerStep(0, true)),
    OwnerStep(O.ItemLandsStep),
    OwnerStep(O.ItemReadBackStep),
    OwnerStep(O.PersistLandsStep)
  ]

  const CREDITED: L.Tables :=
    L.Tables([L.Entry(L.PaymentKey("strike", "1"), 1000)], [], 0, [L.PaymentReceived(1000, 1000)])

  const ATTEMPTED: L.Tables := CREDITED.(attempts := [L.Attempt(ID, L.IntentCommitted, 1000)])

  const ADMITTED: S.Tables :=
    S.Tables([S.Request(ID, S.Pending, SECONDS, SECONDS)], map[], [S.Event(ID, S.ReservedEvent, SECONDS)])

  /** The world around the owner while the gateway waits for it. */
  const AWAITING: World :=
    World(R.START, ATTEMPTED, AwaitingPost(ID), {ID}, ADMITTED, map[0 := G.Await(ID)], [O.Request(ID, R.START)], {},
          O.INITIAL)

  /** The gateway with its one handler at a stage. */
  function Handling(task: G.Task): World { AWAITING.(gateway := S.EMPTY, commands := [], handlers := map[0 := task]) }

  /** The gateway waits while the owner has taken `k` steps of the late run. */
  function Pulsing(k: nat, clock: nat): World
    requires k <= |R.LATE_RUN|
  {
    AWAITING.(clock := clock, owner := R.LateState(k))
  }

  /** The world before each action. */
  function Before(k: nat): World
    requires k <= |FEEDING|
  {
    if k == 0 then INITIAL
    else if k == 1 then INITIAL.(clock := R.START)
    else if k == 2 then INITIAL.(clock := R.START, feed := CREDITED)
    else if k == 3 then INITIAL.(clock := R.START, feed := ATTEMPTED, worker := Posting(ID))
    else if k == 4 then AWAITING.(gateway := S.EMPTY, commands := [], handlers := map[])
    else if k == 5 then Handling(G.Lookup(ID, true))
    else if k == 6 then Handling(G.CheckSafety(ID))
    else if k == 7 then Handling(G.Admit(ID, false))
    else if k == 8 then Handling(G.Dispatch(ID)).(gateway := ADMITTED)
    else if k <= 15 then Pulsing(k - 9, R.START)
    else if k <= 19 then Pulsing(k - 10, R.START + 1000)
    else Pulsing(9, R.START + 1000).(owner := O.PersistLands(R.LateState(9), R.START + 1000))
  }

  ghost predicate Leads(k: nat)
    requires k < |FEEDING|
  {
    Apply(Before(k), LIMITS, FEEDING[k]) == Before(k + 1)
  }

  lemma Credits()
    ensures Leads(0) && Leads(1)
  {
    var entries := CREDITED.entries;
    assert entries[..0] == [] && L.FeedCredit(entries) == Ok(1000);
  }

  lemma Begins()
    ensures L.BeginAttempt(CREDITED, SECONDS, 1000, ID) == (ATTEMPTED, Ok(Some(ID)))
  {
    var entries, attempts := CREDITED.entries, CREDITED.attempts;
    assert entries[..0] == [];
    assert L.FeedCredit(entries) == Ok(1000);
    assert attempts == [] && L.FindUnresolved(attempts).None? && L.FindAttempt(attempts, ID).None?;
    assert attempts + [L.Attempt(ID, L.IntentCommitted, 1000)] == ATTEMPTED.attempts;
  }

  lemma Intends()
    ensures Leads(2)
  {
    Begins();
  }

  lemma Posts()
    ensures Leads(3)
  {
  }

  lemma Asks()
    ensures Leads(4)
  {
  }

  lemma Looks()
    ensures Leads(5)
  {
    assert S.Find(S.EMPTY.requests, ID).None?;
  }

  lemma Screens()
    ensures Leads(6)
  {
  }

  lemma Admits()
    ensures S.Begin(S.EMPTY, SECONDS, ID, LIMITS, false) == (ADMITTED, Ok(S.New))
  {
    var rows, events := S.EMPTY.requests, S.EMPTY.events;
    assert rows == [] && events == [];
    assert S.Find(rows, ID).None? && S.LatestUpdate(rows).None? && S.CountSince(rows, SECONDS - 3600) == 0;
    assert S.RefusalFor(rows, LIMITS, SECONDS, false).None?;
    assert rows + [S.Request(ID, S.Pending, SECONDS, SECONDS)] == ADMITTED.requests;
    assert events + [S.Event(ID, S.ReservedEvent, SECONDS)] == ADMITTED.events;
  }

  lemma Admission()
    ensures Leads(7)
  {
    Admits();
  }

  lemma Dispatches()
    ensures Leads(8)
  {
  }

  /** A step of the owner that needs no new command. */
  lemma OwnerActs(w: World, step: O.Step)
    requires step.ReceiveStep? ==> step.request in w.commands
    ensures Apply(w, LIMITS, OwnerStep(step)) == w.(owner := O.Apply(w.owner, w.clock, step))
  {
  }

  /** The owner takes the same steps as in the late run, up to the last. */
  lemma OwnerFollows(k: nat, clock: nat)
    requires k < |R.LATE_RUN| && clock == R.LATE_RUN[k].at
    ensures Apply(Pulsing(k, clock), LIMITS, OwnerStep(R.LATE_RUN[k].step)) == Pulsing(k + 1, clock)
  {
    R.LateStep(k);
    OwnerActs(Pulsing(k, clock), R.LATE_RUN[k].step);
  }

  lemma Pulses(k: nat)
    requires 9 <= k < 15
    ensures Leads(k)
  {
    OwnerFollows(k - 9, R.START);
    assert FEEDING[k] == OwnerStep(R.LATE_RUN[k - 9].step);
  }

  lemma Completes(k: nat)
    requires 16 <= k < 19
    ensures Leads(k)
  {
    OwnerFollows(k - 10, R.START + 1000);
    assert FEEDING[k] == OwnerStep(R.LATE_RUN[k - 10].step);
  }

  lemma Elapses()
    ensures Leads(15)
  {
  }

  lemma Lands()
    ensures Leads(19)
  {
  }

  lemma AllLead(k: nat)
    requires k < |FEEDING|
    ensures Leads(k)
  {
    if k < 2 {
      Credits();
    } else if k == 2 {
      Intends();
    } else if k == 3 {
      Posts();
    } else if k == 4 {
      Asks();
    } else if k == 5 {
      Looks();
    } else if k == 6 {
      Screens();
    } else if k == 7 {
      Admission();
    } else if k == 8 {
      Dispatches();
    } else if k < 15 {
      Pulses(k);
    } else if k == 15 {
      Elapses();
    } else if k == 19 {
      Lands();
    } else {
      Completes(k);
    }
  }

  ghost predicate Links(w: World, a: Action, v: World) { Apply(w, LIMITS, a) == v }

  lemma {:induction false} Traces(actions: seq<Action>, worlds: seq<World>, k: nat)
    requires |worlds| == |actions| + 1 && worlds[0] == INITIAL && k <= |actions|
    requires forall i | 0 <= i < |actions| :: Links(worlds[i], actions[i], worlds[i + 1])
    ensures Run(LIMITS, actions[..k]) == worlds[k]
  {
    if k > 0 {
      Traces(actions, worlds, k - 1);
      assert actions[..k][..k - 1] == actions[..k - 1];
      assert Links(worlds[k - 1], actions[k - 1], worlds[k]);
    }
  }

  lemma Ends()
    ensures Run(LIMITS, FEEDING) == Before(20)
  {
    var worlds := seq(21, k requires 0 <= k < 21 => Before(k));
    forall i | 0 <= i < |FEEDING| ensures Links(worlds[i], FEEDING[i], worlds[i + 1]) {
      AllLead(i);
    }
    Traces(FEEDING, worlds, 20);
    assert FEEDING[..20] == FEEDING;
  }

  /** The owner at the end: the completion shows in the item and in the newest row. */
  lemma Persists()
    ensures var w := Run(LIMITS, FEEDING);
            && w == AWAITING.(clock := R.START + 1000, owner := w.owner)
            && w.owner.item == Some(R.COMPLETE)
            && w.owner.history == R.ROWS + [O.Snapshot(R.START + 1000, R.COMPLETE)]
  {
    Ends();
  }

  predicate Meets(actions: seq<Action>) {
    StartsInRange(actions) && forall a | a in actions :: Legal(a)
  }

  lemma CompletionIsCertifiable(o: O.Owner)
    requires o.item == Some(R.COMPLETE)
    requires o.history == R.ROWS + [O.Snapshot(R.START + 1000, R.COMPLETE)]
    ensures Visible(o, ID) && Durable(o, ID)
  {
    assert O.IsComplete(o.history[2].ledger, ID) && o.history[2].at <= R.START + 1000 + R.WINDOW_MS;
    assert R.LandedInTime(o.history, ID, R.START + 1000);
    assert R.Certifiable(o, o.item, ID, R.START + 1000);
  }

  lemma FeedingMeets()
    ensures Meets(FEEDING)
  {
  }

  /** A reachable state in which the attempt waits and can be debited. */
  lemma FeedingIsDebitable()
    ensures Meets(FEEDING) && Waits(Run(LIMITS, FEEDING).feed, 0, ID) && Debitable(Run(LIMITS, FEEDING), ID)
  {
    FeedingMeets();
    Persists();
    CompletionIsCertifiable(Run(LIMITS, FEEDING).owner);
  }

  /** The same feeding, after a restart of the owner's host that does not restore the item. */
  const UNRESTORED: seq<Action> := FEEDING + [OwnerStep(O.RestartStep(None))]

  lemma UnrestoredState()
    ensures Meets(UNRESTORED)
    ensures var w := Run(LIMITS, UNRESTORED);
            && w == AWAITING.(clock := R.START + 1000, owner := w.owner)
            && w.owner.item == None && Durable(w.owner, ID)
  {
    var w, step := Run(LIMITS, FEEDING), O.RestartStep(None);
    FeedingMeets();
    Persists();
    CompletionIsCertifiable(w.owner);
    assert UNRESTORED[..|FEEDING|] == FEEDING;
    OwnerActs(w, step);
    DurableStays(w.owner, w.clock, step);
  }

  /** Without the item the waiting attempt is neither debitable nor releasable. */
  lemma WithoutItem(w: World)
    requires w == AWAITING.(clock := R.START + 1000, owner := w.owner) && w.owner.item == None
    ensures Waits(w.feed, 0, ID) && !Debitable(w, ID) && !Releasable(w, LIMITS, ID)
  {
    assert w.gateway.requests[0].id == ID;
  }

  /**
   The feeding is durably complete in time, yet no ordinary continuation debits or releases it, because
   every read of the item fails.
   */
  lemma UnrestoredItemStrands(more: seq<Action>)
    ensures var w := Run(LIMITS, UNRESTORED);
            && Meets(UNRESTORED) && Waits(w.feed, 0, ID) && Durable(w.owner, ID)
            && !Debitable(w, ID) && !Releasable(w, LIMITS, ID)
            && !Debits(w, LIMITS, more, ID) && !Releases(w, LIMITS, more, ID)
  {
    UnrestoredState();
    WithoutItem(Run(LIMITS, UNRESTORED));
    DebitableExactly(LIMITS, UNRESTORED, 0, ID);
    ReleasableExactly(LIMITS, UNRESTORED, 0, ID);
  }
}
