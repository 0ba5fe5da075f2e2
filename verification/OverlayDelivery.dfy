/**
 When a connected client is sent events and when it is reset, said of the log, the sizes and the times
 alone, and what follows for a log that loses nothing: every event arrives, in order and with no reset.
 */
module OverlayDelivery {
  import opened Wrappers
  import opened Overlay

  // --- One event -----------------------------------------------------------------------

  /** Weather is shown for five minutes after its observation, and up to half a minute before. */
  predicate Stale(e: DurableEvent, now: int) {
    e.weather && !(e.observedAt.Some? && -30 <= now - e.observedAt.value <= 300)
  }

  /** The text of an event, or the notice that it was skipped; none if it cannot be rendered. */
  function LengthOf(e: DurableEvent, r: Renderer, now: int): Option<nat> {
    if Stale(e, now) then Some(r.skip(e.number)) else r.text(e)
  }

  /** The entry carries the event's number and text, or the notice in its place. */
  predicate Carries(q: Queued, e: DurableEvent, r: Renderer, now: int) {
    && q.number == e.number && LengthOf(e, r, now) == Some(q.length)
    && q.content == (if Stale(e, now) then SkippedWeather else Shown(e))
    && q.observedAt == (if e.weather && !Stale(e, now) then e.observedAt else None)
  }

  function TotalLength(events: Log, r: Renderer, now: int): nat {
    if events == [] then 0
    else
      var last := LengthOf(events[|events| - 1], r, now);
      TotalLength(events[..|events| - 1], r, now) + if last.Some? then last.value else 0
  }

  /** Every event renders to at most 16 KiB, all of them to at most 512 KiB. */
  predicate Renders(events: Log, r: Renderer, now: int) {
    && (forall k | 0 <= k < |events| ::
          LengthOf(events[k], r, now).Some? && LengthOf(events[k], r, now).value <= 16_384)
    && TotalLength(events, r, now) <= 524_288
  }

  lemma OneIsExact(e: DurableEvent, r: Renderer, now: int)
    ensures RenderOne(e, r, now).Some? <==> LengthOf(e, r, now).Some?
    ensures RenderOne(e, r, now).Some? ==> Carries(RenderOne(e, r, now).value, e, r, now)
  {
  }

  lemma RendersGrows(front: Log, last: DurableEvent, r: Renderer, now: int)
    ensures Renders(front + [last], r, now) <==>
              && Renders(front, r, now) && LengthOf(last, r, now).Some? && LengthOf(last, r, now).value <= 16_384
              && TotalLength(front, r, now) + LengthOf(last, r, now).value <= 524_288
  {
    var events := front + [last];
    assert events[..|front|] == front && events[|front|] == last;
    if Renders(events, r, now) {
      forall k | 0 <= k < |front|
        ensures LengthOf(front[k], r, now).Some? && LengthOf(front[k], r, now).value <= 16_384
      {
        assert front[k] == events[k];
      }
    }
  }

  lemma {:induction false} RenderIsExact(events: Log, r: Renderer, now: int)
    ensures RenderAll(events, r, now).Some? <==> Renders(events, r, now)
    ensures RenderAll(events, r, now).Some? ==>
              var queue := RenderAll(events, r, now).value;
              && |queue| == |events| && Size(queue) == TotalLength(events, r, now)
              && forall k | 0 <= k < |queue| :: Carries(queue[k], events[k], r, now)
  {
    if events != [] {
      var front, last := events[..|events| - 1], events[|events| - 1];
      assert events == front + [last];
      RenderIsExact(front, r, now);
      OneIsExact(last, r, now);
      RendersGrows(front, last, r, now);
      if RenderAll(events, r, now).Some? {
        SizeGrows(RenderAll(front, r, now).value, RenderOne(last, r, now).value);
      }
    }
  }

  // --- One window ----------------------------------------------------------------------

  predicate Present(log: Log, number: nat) { exists i | 0 <= i < |log| :: log[i].number == number }

  /** The event with a number, where the log has one. */
  ghost predicate Records(log: Log, number: nat, e: DurableEvent) { e in log && e.number == number }

  /** The range can be sent: it is in order and short, every number is there, and all fits. */
  ghost predicate Deliverable(log: Log, after: nat, through: nat, r: Renderer, now: int) {
    && after <= through <= I64_MAX && through - after <= 1000
    && (forall s: nat | after < s <= through :: Present(log, s))
    && Bytes(Between(log, after, through)) <= 524_288
    && Renders(Between(log, after, through), r, now)
  }

  ghost predicate EntryFor(q: Queued, log: Log, number: nat, r: Renderer, now: int) {
    exists e :: Records(log, number, e) && Carries(q, e, r, now)
  }

  /** The queue is the range: one entry for each number, in order, carrying the log's event. */
  ghost predicate Spells(queue: seq<Queued>, log: Log, after: nat, through: nat, r: Renderer, now: int) {
    && |queue| == through - after
    && forall k | 0 <= k < |queue| :: EntryFor(queue[k], log, after + 1 + k, r, now)
  }

  /** What a window read and its rendering yield together. */
  function Rendered(log: Log, after: nat, through: nat, r: Renderer, now: int): Option<seq<Queued>> {
    match EventWindow(log, after, through)
    case None => None
    case Some(events) => RenderAll(events, r, now)
  }

  lemma CompleteIs(log: Log, after: nat, through: nat)
    ensures Complete(log, after, through) <==> forall s: nat | after < s <= through :: Present(log, s)
  {
    if Complete(log, after, through) {
      forall s: nat | after < s <= through ensures Present(log, s) {
        assert HasSeq(log, s);
      }
    }
    if forall s: nat | after < s <= through :: Present(log, s) {
      forall s: nat | after < s <= through ensures HasSeq(log, s) {
        assert Present(log, s);
      }
    }
  }

  lemma RenderedSpells(log: Log, after: nat, through: nat, r: Renderer, now: int)
    requires Ordered(log) && Rendered(log, after, through, r, now).Some?
    ensures Spells(Rendered(log, after, through, r, now).value, log, after, through, r, now)
  {
    var rows, queue := Between(log, after, through), Rendered(log, after, through, r, now).value;
    WindowIsContiguous(log, after, through);
    RenderIsExact(rows, r, now);
    forall k | 0 <= k < |queue| ensures EntryFor(queue[k], log, after + 1 + k, r, now) {
      assert Records(log, after + 1 + k, rows[k]) && Carries(queue[k], rows[k], r, now);
    }
  }

  lemma RenderedIsExact(log: Log, after: nat, through: nat, r: Renderer, now: int)
    requires Ordered(log)
    ensures Rendered(log, after, through, r, now).Some? <==> Deliverable(log, after, through, r, now)
    ensures Rendered(log, after, through, r, now).Some? ==>
              && Spells(Rendered(log, after, through, r, now).value, log, after, through, r, now)
              && Size(Rendered(log, after, through, r, now).value) == TotalLength(Between(log, after, through), r, now)
  {
    WindowExactlyWhenComplete(log, after, through);
    CompleteIs(log, after, through);
    RenderIsExact(Between(log, after, through), r, now);
    if Rendered(log, after, through, r, now).Some? {
      RenderedSpells(log, after, through, r, now);
    }
  }

  // --- A tick ----------------------------------------------------------------------------

  /** The newest number of an ordered log; nothing was ever numbered 0. */
  lemma LatestIsNewest(log: Log)
    requires Ordered(log)
    ensures log == [] ==> LatestSeq(log) == 0
    ensures log != [] ==> (exists i | 0 <= i < |log| :: log[i].number == LatestSeq(log))
    ensures forall i | 0 <= i < |log| :: log[i].number <= LatestSeq(log)
  {
    if log != [] {
      assert log[|log| - 1].number == LatestSeq(log);
    }
  }

  /**
   A tick that finds the log where the client is does nothing. Otherwise it queues the next events, at
   most 100 of them, if they can be sent, and one reset checkpoint if and only if they cannot.
   */
  lemma TickIsExact(s: Session, log: Log, window: Log, again: Log, length: nat, r: Renderer, now: int)
    requires Ordered(window) && s.queue == []
    ensures var latest, p := LatestSeq(log), Poll(s, log, window, again, length, r, now);
            var through := Min(latest, s.lastSeq + 100);
            && p.lastSeq == s.lastSeq && p.sent == s.sent
            && (latest == s.lastSeq ==> p == s)
            && (latest != s.lastSeq ==>
                  if Deliverable(window, s.lastSeq, through, r, now)
                  then through > s.lastSeq && Spells(p.queue, window, s.lastSeq, through, r, now)
                  else p.queue == [Queued(LatestSeq(again), Checkpoint(true), length, None)])
  {
    var through := Min(LatestSeq(log), s.lastSeq + 100);
    RenderedIsExact(window, s.lastSeq, through, r, now);
  }

  /** Events are never mistaken for a reset. */
  lemma SpelledIsNoReset(queue: seq<Queued>, log: Log, after: nat, through: nat, r: Renderer, now: int)
    requires Spells(queue, log, after, through, r, now)
    ensures forall k | 0 <= k < |queue| :: queue[k].number == after + 1 + k && !queue[k].content.Checkpoint?
  {
    forall k | 0 <= k < |queue| ensures queue[k].number == after + 1 + k && !queue[k].content.Checkpoint? {
      assert EntryFor(queue[k], log, after + 1 + k, r, now);
    }
  }

  // --- A connection ------------------------------------------------------------------------

  /** A request is understood in version 1 only, and a resume must name its stream. */
  predicate Understood(request: Resume) {
    && request.version in {None, Some(1)}
    && (request.after.Some? ==> request.after.value <= I64_MAX && request.version == Some(1) && request.stream.Some?)
  }

  /** The missed events fit in front of the checkpoint. */
  ghost predicate Resumable(
      request: Resume, stream: Uuid, window: Log, through: nat, length: nat, r: Renderer, now: int)
  {
    && request.after.Some? && request.stream == Some(stream)
    && Deliverable(window, request.after.value, through, r, now)
    && TotalLength(Between(window, request.after.value, through), r, now) + length <= 524_288
  }

  /** The replay in front of a checkpoint: the missed events, if they are resumable. */
  lemma ReplayIsExact(
      request: Resume, stream: Uuid, window: Log, through: nat, length: nat, r: Renderer, now: int)
    requires Ordered(window) && request.after.Some?
    ensures var replay := Replay(request, stream, Queued(through, Checkpoint(false), length, None), window, r, now);
            && (replay.Some? <==> Resumable(request, stream, window, through, length, r, now))
            && (replay.Some? ==> Spells(replay.value, window, request.after.value, through, r, now))
  {
    RenderedIsExact(window, request.after.value, through, r, now);
  }

  /**
   A new client gets a checkpoint. A resuming one gets the events it missed and then the checkpoint if
   and only if they can be sent in front of it, and a reset checkpoint otherwise.
   */
  lemma ConnectIsExact(
      request: Resume, stream: Uuid, first: Log, window: Log, again: Log, length: nat, r: Renderer, now: int)
    requires Ordered(window)
    ensures var result := Connect(request, stream, first, window, again, length, r, now);
            var through := LatestSeq(first);
            && (result.Ok? <==> Understood(request))
            && (result.Ok? && request.after.None? ==>
                  result.value == Session(through, [Queued(through, Checkpoint(false), length, None)], []))
            && (result.Ok? && request.after.Some? ==>
                  var after := request.after.value;
                  if Resumable(request, stream, window, through, length, r, now) then
                    && result.value.lastSeq == after && result.value.sent == [Resumed(after, through)]
                    && |result.value.queue| == through - after + 1
                    && Spells(result.value.queue[..through - after], window, after, through, r, now)
                    && result.value.queue[through - after] == Queued(through, Checkpoint(false), length, None)
                  else
                    result.value
                    == Session(LatestSeq(again), [Queued(LatestSeq(again), Checkpoint(true), length, None)], []))
  {
    if request.after.Some? {
      var after, through := request.after.value, LatestSeq(first);
      var checkpoint := Queued(through, Checkpoint(false), length, None);
      ReplayIsExact(request, stream, window, through, length, r, now);
      var replay := Replay(request, stream, checkpoint, window, r, now);
      if replay.Some? {
        assert (replay.value + [checkpoint])[..through - after] == replay.value;
      }
    }
  }

  // --- Sending -------------------------------------------------------------------------------

  /** The head is sent, replaced by a notice if its weather went stale while it waited. */
  lemma SendIsExact(s: Session, now: int)
    requires s.queue != []
    ensures var p, q := SendNext(s, now), s.queue[0];
            var shown := if q.observedAt.Some? && !(-30 <= now - q.observedAt.value <= 300) then SkippedWeather
                         else q.content;
            p == Session(q.number, s.queue[1..], s.sent + [Delivered(q.number, shown, now)])
  {
  }

  // --- A log that loses nothing ----------------------------------------------------------------

  /** The poll sees a log that has everything since the client's cursor and can send it. */
  ghost predicate Steady(step: Step, lastSeq: nat) {
    step.PollStep? ==>
      && Ordered(step.window) && lastSeq <= LatestSeq(step.log)
      && Deliverable(step.window, lastSeq, Min(LatestSeq(step.log), lastSeq + 100), step.r, step.now)
  }

  /** Every poll of the run that finds the queue empty is steady. */
  ghost predicate AllSteady(s: Session, steps: seq<Step>) {
    steps == []
    || var front, last := steps[..|steps| - 1], steps[|steps| - 1];
       AllSteady(s, front) && (RunFrom(s, front).queue == [] ==> Steady(last, RunFrom(s, front).lastSeq))
  }

  /** The frames from `n` on are the events from `cursor` on, one each, and the queue goes on from there. */
  ghost predicate Streams(s: Session, n: nat, cursor: nat) {
    && n <= |s.sent| && s.lastSeq == cursor + (|s.sent| - n)
    && (forall k | n <= k < |s.sent| ::
          && s.sent[k].Delivered? && s.sent[k].number == cursor + 1 + (k - n)
          && !s.sent[k].content.Checkpoint?)
    && forall k | 0 <= k < |s.queue| :: s.queue[k].number == s.lastSeq + 1 + k && !s.queue[k].content.Checkpoint?
  }

  lemma SendStreams(s: Session, now: int, n: nat, cursor: nat)
    requires Streams(s, n, cursor) && s.queue != []
    ensures Streams(SendNext(s, now), n, cursor)
  {
    var p := SendNext(s, now);
    forall k | 0 <= k < |p.queue|
      ensures p.queue[k].number == p.lastSeq + 1 + k && !p.queue[k].content.Checkpoint?
    {
      assert p.queue[k] == s.queue[k + 1];
    }
  }

  lemma PollStreams(s: Session, step: Step, n: nat, cursor: nat)
    requires Streams(s, n, cursor) && s.queue == [] && step.PollStep? && Steady(step, s.lastSeq)
    ensures Streams(Apply(s, step), n, cursor)
    ensures LatestSeq(step.log) > s.lastSeq ==> Apply(s, step).queue != []
  {
    TickIsExact(s, step.log, step.window, step.again, step.length, step.r, step.now);
    if LatestSeq(step.log) != s.lastSeq {
      SpelledIsNoReset(Apply(s, step).queue, step.window, s.lastSeq,
                       Min(LatestSeq(step.log), s.lastSeq + 100), step.r, step.now);
    }
  }

  lemma {:induction false} SteadyRunStreams(s: Session, steps: seq<Step>, n: nat, cursor: nat)
    requires Streams(s, n, cursor) && AllSteady(s, steps)
    ensures Streams(RunFrom(s, steps), n, cursor)
  {
    if steps != [] {
      var front, last := steps[..|steps| - 1], steps[|steps| - 1];
      SteadyRunStreams(s, front, n, cursor);
      var before := RunFrom(s, front);
      match last
      case SendStep(now) =>
        if before.queue != [] {
          SendStreams(before, now, n, cursor);
        }
      case PollStep(_, _, _, _, _, _) =>
        if before.queue == [] {
          PollStreams(before, last, n, cursor);
        }
    }
  }

  /**
   A client that connects to a log that loses nothing and renders is never reset: after its checkpoint it
   receives every event, one frame for each number in order, for as long as it stays connected.
   */
  lemma EveryEventArrives(
      request: Resume, stream: Uuid, first: Log, window: Log, again: Log, length: nat, r: Renderer, now: int, at: int,
      steps: seq<Step>)
    requires request.after.None? && Understood(request) && Ordered(window)
    requires var s := SendNext(Connect(request, stream, first, window, again, length, r, now).value, at);
             AllSteady(s, steps)
    ensures var s := SendNext(Connect(request, stream, first, window, again, length, r, now).value, at);
            var after := RunFrom(s, steps);
            && |after.sent| >= 1 && after.sent[0] == Delivered(LatestSeq(first), Checkpoint(false), at)
            && after.lastSeq == LatestSeq(first) + |after.sent| - 1
            && forall k | 1 <= k < |after.sent| ::
                 && after.sent[k].Delivered? && after.sent[k].number == LatestSeq(first) + k
                 && !after.sent[k].content.Checkpoint?
  {
    ConnectIsExact(request, stream, first, window, again, length, r, now);
    var s := SendNext(Connect(request, stream, first, window, again, length, r, now).value, at);
    SteadyRunStreams(s, steps, 1, LatestSeq(first));
    SentStays(s, steps);
  }

  lemma {:induction false} SentStays(s: Session, steps: seq<Step>)
    ensures s.sent <= RunFrom(s, steps).sent
  {
    if steps != [] {
      SentStays(s, steps[..|steps| - 1]);
    }
  }

  /** While the log is ahead no steady poll leaves the client waiting: it either has a queue or gets one. */
  lemma SteadyPollAdvances(s: Session, step: Step, n: nat, cursor: nat)
    requires Streams(s, n, cursor) && step.PollStep? && (s.queue == [] ==> Steady(step, s.lastSeq))
    requires LatestSeq(step.log) > s.lastSeq
    ensures Apply(s, step).queue != [] && Apply(s, step).queue[0].number == s.lastSeq + 1
  {
    if s.queue == [] {
      PollStreams(s, step, n, cursor);
    }
  }
}
