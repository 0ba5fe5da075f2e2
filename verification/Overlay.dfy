/**
 The overlay stream of one connected client (src/overlay.rs) over the event log
 (src/ledger/overlay.rs, src/ledger/events.rs).

 The log may grow between any two reads and old rows may have been removed, so every read is its own
 `Log`. Rendering is a parameter: the length of the text or a failure.
 */
module Overlay {
  import opened Wrappers

  const MAX_MESSAGE: nat := 16 * 1024
  const MAX_QUEUE: nat := 512 * 1024
  const MAX_WINDOW: nat := 1000
  const POLL_WINDOW: nat := 100

  datatype DurableEvent = DurableEvent(number: nat, weather: bool, observedAt: Option<int>, bytes: nat)

  type Log = seq<DurableEvent>

  /** Sequence numbers are an AUTOINCREMENT key. */
  predicate Ordered(log: Log) {
    && (forall i | 0 <= i < |log| :: 1 <= log[i].number <= I64_MAX)
    && (forall i, j | 0 <= i < j < |log| :: log[i].number < log[j].number)
  }

  function LatestSeq(log: Log): nat { if log == [] then 0 else log[|log| - 1].number }

  /** `WHERE seq>after AND seq<=through ORDER BY seq`. */
  function Between(log: Log, after: nat, through: nat): Log {
    if log == [] then []
    else
      var front, last := Between(log[..|log| - 1], after, through), log[|log| - 1];
      if after < last.number <= through then front + [last] else front
  }

  function Bytes(events: Log): nat {
    if events == [] then 0 else Bytes(events[..|events| - 1]) + events[|events| - 1].bytes
  }

  function EventWindow(log: Log, after: nat, through: nat): Option<Log> {
    if through < after || through - after > MAX_WINDOW || through > I64_MAX then None
    else
      var rows := Between(log, after, through);
      if |rows| != through - after || Bytes(rows) > MAX_QUEUE then None else Some(rows)
  }

  // --- Windows ---------------------------------------------------------------------

  lemma AppendOrdered(rows: Log, last: DurableEvent)
    requires Ordered(rows) && 1 <= last.number <= I64_MAX && forall e | e in rows :: e.number < last.number
    ensures Ordered(rows + [last])
  {
    forall i | 0 <= i < |rows| ensures rows[i].number < last.number {
      assert rows[i] in rows;
    }
  }

  lemma {:induction false} BetweenIs(log: Log, after: nat, through: nat)
    requires Ordered(log)
    ensures Ordered(Between(log, after, through))
    ensures forall e :: e in Between(log, after, through) <==> e in log && after < e.number <= through
  {
    if log != [] {
      var front, last := log[..|log| - 1], log[|log| - 1];
      BetweenIs(front, after, through);
      assert log == front + [last];
      var rows := Between(front, after, through);
      forall e | e in rows ensures e.number < last.number {
        assert e in front;
      }
      if after < last.number <= through {
        AppendOrdered(rows, last);
      }
    }
  }

  /** Ordered rows in a range as wide as their number are contiguous. */
  lemma {:induction false} OrderedGrows(rows: Log, i: nat, j: nat)
    requires Ordered(rows) && i <= j < |rows|
    ensures rows[j].number - rows[i].number >= j - i
  {
    if i < j {
      OrderedGrows(rows, i, j - 1);
    }
  }

  /** Counting is enough: a window whose row count equals its width is exactly the numbers in it, in order. */
  lemma WindowIsContiguous(log: Log, after: nat, through: nat)
    requires Ordered(log) && EventWindow(log, after, through).Some?
    ensures var rows := EventWindow(log, after, through).value;
            && |rows| == through - after
            && forall k | 0 <= k < |rows| :: rows[k].number == after + 1 + k && rows[k] in log
  {
    BetweenIs(log, after, through);
    var rows := Between(log, after, through);
    forall k | 0 <= k < |rows| ensures rows[k].number == after + 1 + k && rows[k] in log {
      assert rows[k] in rows && rows[0] in rows && rows[|rows| - 1] in rows;
      OrderedGrows(rows, 0, k);
      OrderedGrows(rows, k, |rows| - 1);
    }
  }

  predicate Complete(log: Log, after: nat, through: nat) {
    forall s: nat | after < s <= through :: HasSeq(log, s)
  }

  predicate HasSeq(log: Log, s: nat) { exists i | 0 <= i < |log| :: log[i].number == s }

  lemma {:induction false} CompleteRowsAreContiguous(rows: Log, after: nat, through: nat, k: nat)
    requires Ordered(rows) && Complete(rows, after, through) && (forall e | e in rows :: after < e.number <= through)
    requires k < through - after
    ensures k < |rows| && rows[k].number == after + 1 + k
  {
    if k > 0 {
      CompleteRowsAreContiguous(rows, after, through, k - 1);
    }
    assert HasSeq(rows, after + 1 + k);
    var i :| 0 <= i < |rows| && rows[i].number == after + 1 + k;
    if k < |rows| {
      assert rows[k] in rows;
    }
    assert i >= k by {
      if 0 < k && i <= k - 1 {
        OrderedGrows(rows, i, k - 1);
      }
    }
    if k > 0 {
      OrderedGrows(rows, k - 1, k);
    }
    OrderedGrows(rows, k, i);
  }

  /** A window is served exactly when its range is acceptable, no number in it is missing and it is small enough. */
  lemma {:induction false} WindowExactlyWhenComplete(log: Log, after: nat, through: nat)
    requires Ordered(log)
    ensures EventWindow(log, after, through).Some? <==>
              && after <= through <= I64_MAX && through - after <= MAX_WINDOW
              && Complete(log, after, through) && Bytes(Between(log, after, through)) <= MAX_QUEUE
  {
    var rows := Between(log, after, through);
    BetweenIs(log, after, through);
    if EventWindow(log, after, through).Some? {
      WindowIsContiguous(log, after, through);
      forall s: nat | after < s <= through ensures HasSeq(log, s) {
        var e := rows[s - after - 1];
        var i :| 0 <= i < |log| && log[i] == e;
        assert log[i].number == s;
      }
    } else if after <= through && Complete(log, after, through) {
      forall s: nat | after < s <= through ensures HasSeq(rows, s) {
        assert HasSeq(log, s);
        var i :| 0 <= i < |log| && log[i].number == s;
        assert log[i] in rows;
        var j :| 0 <= j < |rows| && rows[j] == log[i];
      }
      if |rows| > through - after {
        assert rows[0] in rows && rows[|rows| - 1] in rows;
        OrderedGrows(rows, 0, |rows| - 1);
        assert false;
      }
      if through > after {
        CompleteRowsAreContiguous(rows, after, through, through - after - 1);
      }
    }
  }

  // --- Rendering -------------------------------------------------------------------

  datatype Renderer = Renderer(text: DurableEvent -> Option<nat>, skip: nat -> nat)

  datatype Content = Shown(event: DurableEvent) | SkippedWeather | Checkpoint(reset: bool)

  datatype Queued = Queued(number: nat, content: Content, length: nat, observedAt: Option<int>)

  /** `fresh_observation`: at most 300 seconds old and at most 30 in the future. */
  predicate FreshObservation(observedAt: Option<int>, now: int) {
    observedAt.Some? && observedAt.value - now <= 30 && now - observedAt.value <= 300
  }

  /** `durable_event_message` and the queue entry made from it. */
  function RenderOne(e: DurableEvent, r: Renderer, now: int): Option<Queued> {
    if e.weather && !FreshObservation(e.observedAt, now) then
      Some(Queued(e.number, SkippedWeather, r.skip(e.number), None))
    else match r.text(e)
      case None => None
      case Some(length) => Some(Queued(e.number, Shown(e), length, if e.weather then e.observedAt else None))
  }

  function Size(queue: seq<Queued>): nat {
    if queue == [] then 0 else Size(queue[..|queue| - 1]) + queue[|queue| - 1].length
  }

  function RenderAll(events: Log, r: Renderer, now: int): Option<seq<Queued>> {
    if events == [] then Some([])
    else match RenderAll(events[..|events| - 1], r, now)
      case None => None
      case Some(queue) =>
        match RenderOne(events[|events| - 1], r, now)
        case None => None
        case Some(item) =>
          if item.length > MAX_MESSAGE || Size(queue) + item.length > MAX_QUEUE then None else Some(queue + [item])
  }

  lemma RenderedPrefix(events: Log, n: nat, r: Renderer, now: int)
    requires n < |events|
    ensures RenderAll(events[..n + 1], r, now)
            == match RenderAll(events[..n], r, now)
               case None => None
               case Some(queue) =>
                 match RenderOne(events[n], r, now)
                 case None => None
                 case Some(item) =>
                   if item.length > MAX_MESSAGE || Size(queue) + item.length > MAX_QUEUE then None
                   else Some(queue + [item])
  {
    assert events[..n + 1][..n] == events[..n];
  }

  lemma {:induction false} FailureSpreads(events: Log, n: nat, r: Renderer, now: int)
    requires n <= |events| && RenderAll(events[..n], r, now).None?
    ensures RenderAll(events, r, now).None?
    decreases |events| - n
  {
    if n < |events| {
      RenderedPrefix(events, n, r, now);
      FailureSpreads(events, n + 1, r, now);
    } else {
      assert events[..n] == events;
    }
  }

  lemma SizeGrows(queue: seq<Queued>, item: Queued)
    ensures Size(queue + [item]) == Size(queue) + item.length
  {
    assert (queue + [item])[..|queue|] == queue;
  }

  /** One numbered entry per event, within both bounds. */
  predicate Fits(queue: seq<Queued>, events: Log) {
    && |queue| == |events|
    && Size(queue) <= MAX_QUEUE
    && forall k | 0 <= k < |events| :: queue[k].number == events[k].number && queue[k].length <= MAX_MESSAGE
  }

  lemma FitsGrows(queue: seq<Queued>, events: Log, item: Queued, e: DurableEvent)
    requires Fits(queue, events) && item.number == e.number
    requires item.length <= MAX_MESSAGE && Size(queue) + item.length <= MAX_QUEUE
    ensures Fits(queue + [item], events + [e])
  {
    SizeGrows(queue, item);
  }

  lemma {:induction false} RenderedFits(events: Log, r: Renderer, now: int)
    ensures RenderAll(events, r, now).Some? ==> Fits(RenderAll(events, r, now).value, events)
  {
    if events != [] && RenderAll(events, r, now).Some? {
      var front, last := events[..|events| - 1], events[|events| - 1];
      RenderedFits(front, r, now);
      FitsGrows(RenderAll(front, r, now).value, front, RenderOne(last, r, now).value, last);
      assert events == front + [last];
    }
  }

  method RenderWindow(events: Log, r: Renderer, now: int) returns (result: Option<seq<Queued>>)
    ensures result == RenderAll(events, r, now)
    ensures result.Some? ==> Fits(result.value, events)
  {
    var queue, size := [], 0;
    RenderedFits(events, r, now);
    for i := 0 to |events|
      invariant RenderAll(events[..i], r, now) == Some(queue)
      invariant size == Size(queue)
    {
      RenderedPrefix(events, i, r, now);
      var item := RenderOne(events[i], r, now);
      if item.None? || item.value.length > MAX_MESSAGE || size + item.value.length > MAX_QUEUE {
        FailureSpreads(events, i + 1, r, now);
        return None;
      }
      SizeGrows(queue, item.value);
      size := size + item.value.length;
      queue := queue + [item.value];
    }
    assert events[..|events|] == events;
    result := Some(queue);
  }

  // --- One connection --------------------------------------------------------------

  datatype Resume = Resume(version: Option<nat>, stream: Option<Uuid>, after: Option<nat>)

  predicate Supported(r: Resume) {
    && (r.version.Some? ==> r.version.value == 1)
    && (r.after.Some? ==> r.after.value <= I64_MAX && r.version == Some(1) && r.stream.Some?)
  }

  datatype Frame =
    | Resumed(after: nat, through: nat)
    | Delivered(number: nat, content: Content, at: int)

  /** `last_seq`, `queue` and everything sent so far. */
  datatype Session = Session(lastSeq: nat, queue: seq<Queued>, sent: seq<Frame>)

  function Snapshot(log: Log, reset: bool, length: nat): Queued {
    Queued(LatestSeq(log), Checkpoint(reset), length, None)
  }

  /** The replay of a resume request, if one can be served. */
  function Replay(
      request: Resume, stream: Uuid, checkpoint: Queued, log: Log, r: Renderer, now: int): Option<seq<Queued>>
    requires request.after.Some?
  {
    if request.stream != Some(stream) then None
    else match EventWindow(log, request.after.value, checkpoint.number)
      case None => None
      case Some(events) =>
        match RenderAll(events, r, now)
        case None => None
        case Some(queue) => if Size(queue) + checkpoint.length <= MAX_QUEUE then Some(queue) else None
  }

  /** The start of `serve_with_timing`: `first`, `window` and `again` are the log at its three reads. */
  function Connect(
      request: Resume, stream: Uuid, first: Log, window: Log, again: Log, length: nat, r: Renderer, now: int)
    : Result<Session>
  {
    if !Supported(request) then Err
    else
      var checkpoint := Snapshot(first, false, length);
      match request.after
      case None => Ok(Session(checkpoint.number, [checkpoint], []))
      case Some(after) =>
        match Replay(request, stream, checkpoint, window, r, now)
        case Some(replay) => Ok(Session(after, replay + [checkpoint], [Resumed(after, checkpoint.number)]))
        case None => Ok(Session(LatestSeq(again), [Snapshot(again, true, length)], []))
  }

  /** `Queued::current_body`: weather that went stale in the queue is not shown, the number stays. */
  function CurrentContent(q: Queued, now: int): Content {
    if q.observedAt.Some? && !FreshObservation(q.observedAt, now) then SkippedWeather else q.content
  }

  function SendNext(s: Session, now: int): Session
    requires s.queue != []
  {
    var next := s.queue[0];
    Session(next.number, s.queue[1..], s.sent + [Delivered(next.number, CurrentContent(next, now), now)])
  }

  function Poll(s: Session, log: Log, window: Log, again: Log, length: nat, r: Renderer, now: int): Session
    requires s.queue == []
  {
    var latest := LatestSeq(log);
    if latest == s.lastSeq then s
    else
      var through := Min(latest, s.lastSeq + POLL_WINDOW);
      var queue :=
        match EventWindow(window, s.lastSeq, through)
        case None => None
        case Some(events) => RenderAll(events, r, now);
      s.(queue := match queue case Some(messages) => messages case None => [Snapshot(again, true, length)])
  }

  /** The loop's variables; the select's branches are its methods. */
  class Connection {
    var lastSeq: nat
    var queue: seq<Queued>
    var sent: seq<Frame>

    function State(): Session
      reads this
    {
      Session(lastSeq, queue, sent)
    }

    constructor ()
      ensures State() == Session(0, [], [])
    {
      lastSeq, queue, sent := 0, [], [];
    }

    method Serve(
        request: Resume, stream: Uuid, first: Log, window: Log, again: Log, length: nat, r: Renderer, now: int)
      returns (accepted: bool)
      requires State() == Session(0, [], [])
      modifies this
      ensures accepted <==> Connect(request, stream, first, window, again, length, r, now).Ok?
      ensures accepted ==> State() == Connect(request, stream, first, window, again, length, r, now).value
      ensures !accepted ==> State() == old(State())
    {
      if !Supported(request) {
        return false;
      }
      var checkpoint := Snapshot(first, false, length);
      lastSeq := checkpoint.number;
      if request.after.Some? {
        var replay := None;
        if request.stream == Some(stream) {
          var events := EventWindow(window, request.after.value, checkpoint.number);
          if events.Some? {
            replay := RenderWindow(events.value, r, now);
          }
        }
        if replay.Some? && Size(replay.value) + checkpoint.length <= MAX_QUEUE {
          sent := sent + [Resumed(request.after.value, checkpoint.number)];
          lastSeq := request.after.value;
          queue := replay.value;
        } else {
          checkpoint := Snapshot(again, true, length);
          lastSeq := checkpoint.number;
        }
      }
      queue := queue + [checkpoint];
      accepted := true;
    }

    method Send(now: int)
      requires queue != []
      modifies this
      ensures State() == SendNext(old(State()), now)
    {
      var next := queue[0];
      queue := queue[1..];
      lastSeq := next.number;
      sent := sent + [Delivered(next.number, CurrentContent(next, now), now)];
    }

    method Tick(log: Log, window: Log, again: Log, length: nat, r: Renderer, now: int)
      requires queue == []
      modifies this
      ensures State() == Poll(old(State()), log, window, again, length, r, now)
    {
      var latest := LatestSeq(log);
      if latest == lastSeq {
        return;
      }
      var events := EventWindow(window, lastSeq, Min(latest, lastSeq + POLL_WINDOW));
      var messages := None;
      if events.Some? {
        messages := RenderWindow(events.value, r, now);
      }
      queue := if messages.Some? then messages.value else [Snapshot(again, true, length)];
    }
  }

  // --- What a client sees ------------------------------------------------------------

  /** The cursor a client keeps: the number of the last frame. */
  function Cursor(sent: seq<Frame>): nat
    requires sent != []
  {
    match sent[|sent| - 1]
    case Resumed(after, _) => after
    case Delivered(number, _, _) => number
  }

  /**
   `frame` may follow: an event carries the next number, the closing checkpoint of a replay does not
   move the cursor, and only a reset, or the first frame of the connection, may jump.
   */
  predicate Follows(sent: seq<Frame>, frame: Frame) {
    match frame
    case Resumed(_, _) => sent == []
    case Delivered(number, Checkpoint(reset), _) => reset || sent == [] || number == Cursor(sent)
    case Delivered(number, _, _) => sent != [] && number == Cursor(sent) + 1
  }

  predicate Consecutive(sent: seq<Frame>) {
    forall k | 0 <= k < |sent| :: Follows(sent[..k], sent[k])
  }

  /** Events shown are events of the log, never stale weather. */
  ghost predicate Genuine(sent: seq<Frame>, history: set<DurableEvent>) {
    forall k | 0 <= k < |sent| && sent[k].Delivered? && sent[k].content.Shown? ::
      var e := sent[k].content.event;
      e in history && e.number == sent[k].number && (e.weather ==> FreshObservation(e.observedAt, sent[k].at))
  }

  ghost predicate ItemGenuine(q: Queued, history: set<DurableEvent>) {
    match q.content
    case Shown(e) =>
      && e in history && e.number == q.number
      && (if e.weather then q.observedAt == e.observedAt && q.observedAt.Some? else q.observedAt.None?)
    case _ => q.observedAt.None?
  }

  /** A queue that continues from `cursor`; `first` when nothing was sent yet. */
  predicate Continues(queue: seq<Queued>, cursor: nat) {
    queue == [] ||
    var q := queue[0];
    && (match q.content case Checkpoint(reset) => reset || q.number == cursor case _ => q.number == cursor + 1)
    && Continues(queue[1..], q.number)
  }

  ghost predicate Inv(s: Session, history: set<DurableEvent>) {
    && Consecutive(s.sent) && Genuine(s.sent, history)
    && (forall q | q in s.queue :: ItemGenuine(q, history))
    && Continues(s.queue, s.lastSeq)
    && (if s.sent == [] then |s.queue| == 1 && s.queue[0].content.Checkpoint? && s.queue[0].number == s.lastSeq
        else s.lastSeq == Cursor(s.sent))
  }

  lemma {:induction false} RenderedItems(events: Log, r: Renderer, now: int, history: set<DurableEvent>)
    requires RenderAll(events, r, now).Some? && forall e | e in events :: e in history
    ensures var queue := RenderAll(events, r, now).value;
            && |queue| == |events|
            && (forall k | 0 <= k < |queue| :: queue[k].number == events[k].number && !queue[k].content.Checkpoint?)
            && (forall q | q in queue :: ItemGenuine(q, history))
  {
    if events != [] {
      var front, last := events[..|events| - 1], events[|events| - 1];
      assert events == front + [last];
      RenderedItems(front, r, now, history);
      assert last in events;
    }
  }

  lemma {:induction false} NumberedContinues(queue: seq<Queued>, tail: seq<Queued>, cursor: nat)
    requires forall k | 0 <= k < |queue| :: queue[k].number == cursor + 1 + k && !queue[k].content.Checkpoint?
    requires Continues(tail, cursor + |queue|)
    ensures Continues(queue + tail, cursor)
  {
    if queue != [] {
      NumberedContinues(queue[1..], tail, cursor + 1);
      assert (queue + tail)[1..] == queue[1..] + tail;
    } else {
      assert queue + tail == tail;
    }
  }

  /** Logs read by the connection are ordered and hold only events of the history. */
  ghost predicate Read(log: Log, history: set<DurableEvent>) {
    Ordered(log) && forall e | e in log :: e in history
  }

  /** A rendered window continues from its start, up to its end. */
  lemma WindowContinues(
      log: Log, after: nat, through: nat, r: Renderer, now: int, history: set<DurableEvent>, tail: seq<Queued>)
    requires Read(log, history) && EventWindow(log, after, through).Some?
    requires RenderAll(EventWindow(log, after, through).value, r, now).Some?
    requires Continues(tail, through)
    ensures var queue := RenderAll(EventWindow(log, after, through).value, r, now).value;
            && |queue| == through - after && Continues(queue + tail, after)
            && (forall q | q in queue :: ItemGenuine(q, history))
  {
    var events := EventWindow(log, after, through).value;
    WindowIsContiguous(log, after, through);
    RenderedItems(events, r, now, history);
    NumberedContinues(RenderAll(events, r, now).value, tail, after);
  }

  lemma ConnectInv(
      request: Resume, stream: Uuid, first: Log, window: Log, again: Log, length: nat, r: Renderer, now: int,
      history: set<DurableEvent>)
    requires Read(first, history) && Read(window, history) && Read(again, history)
    requires Connect(request, stream, first, window, again, length, r, now).Ok?
    ensures Inv(Connect(request, stream, first, window, again, length, r, now).value, history)
  {
    var checkpoint := Snapshot(first, false, length);
    if request.after.Some? && Replay(request, stream, checkpoint, window, r, now).Some? {
      WindowContinues(window, request.after.value, checkpoint.number, r, now, history, [checkpoint]);
    }
  }

  lemma AppendFrame(sent: seq<Frame>, frame: Frame)
    requires Consecutive(sent) && Follows(sent, frame)
    ensures Consecutive(sent + [frame]) && Cursor(sent + [frame]) == Cursor([frame])
  {
    var after := sent + [frame];
    assert after[..|sent|] == sent;
    forall k | 0 <= k < |sent| ensures Follows(after[..k], after[k]) {
      assert after[..k] == sent[..k];
    }
  }

  lemma SendKeepsInv(s: Session, now: int, history: set<DurableEvent>)
    requires Inv(s, history) && s.queue != []
    ensures Inv(SendNext(s, now), history)
  {
    var next := s.queue[0];
    assert next in s.queue && ItemGenuine(next, history);
    AppendFrame(s.sent, Delivered(next.number, CurrentContent(next, now), now));
  }

  /** A rendered window queues what follows the cursor, and it is not empty. */
  lemma PolledWindow(s: Session, window: Log, through: nat, r: Renderer, now: int, history: set<DurableEvent>)
    requires Read(window, history) && s.lastSeq < through
    requires EventWindow(window, s.lastSeq, through).Some?
    requires RenderAll(EventWindow(window, s.lastSeq, through).value, r, now).Some?
    ensures var queue := RenderAll(EventWindow(window, s.lastSeq, through).value, r, now).value;
            && queue != [] && Continues(queue, s.lastSeq)
            && (forall q | q in queue :: ItemGenuine(q, history))
  {
    WindowContinues(window, s.lastSeq, through, r, now, history, []);
    var queue := RenderAll(EventWindow(window, s.lastSeq, through).value, r, now).value;
    assert queue + [] == queue;
  }

  lemma PollKeepsInv(
      s: Session, log: Log, window: Log, again: Log, length: nat, r: Renderer, now: int, history: set<DurableEvent>)
    requires Inv(s, history) && s.queue == [] && Read(window, history)
    ensures Inv(Poll(s, log, window, again, length, r, now), history)
    ensures LatestSeq(log) != s.lastSeq ==> Poll(s, log, window, again, length, r, now).queue != []
  {
    var through := Min(LatestSeq(log), s.lastSeq + POLL_WINDOW);
    if LatestSeq(log) != s.lastSeq {
      var events := EventWindow(window, s.lastSeq, through);
      if events.Some? && RenderAll(events.value, r, now).Some? {
        PolledWindow(s, window, through, r, now, history);
      }
    }
  }

  datatype Step =
    | SendStep(now: int)
    | PollStep(log: Log, window: Log, again: Log, length: nat, r: Renderer, now: int)

  /** A branch of the select runs only when its guard holds. */
  function Apply(s: Session, step: Step): Session {
    match step
    case SendStep(now) => if s.queue == [] then s else SendNext(s, now)
    case PollStep(log, window, again, length, r, now) =>
      if s.queue != [] then s else Poll(s, log, window, again, length, r, now)
  }

  function RunFrom(s: Session, steps: seq<Step>): Session {
    if steps == [] then s else Apply(RunFrom(s, steps[..|steps| - 1]), steps[|steps| - 1])
  }

  ghost predicate Legal(step: Step, history: set<DurableEvent>) {
    step.PollStep? ==> Read(step.log, history) && Read(step.window, history) && Read(step.again, history)
  }

  lemma {:induction false} RunKeepsInv(s: Session, steps: seq<Step>, history: set<DurableEvent>)
    requires Inv(s, history) && forall step | step in steps :: Legal(step, history)
    ensures Inv(RunFrom(s, steps), history)
  {
    if steps != [] {
      var front, last := steps[..|steps| - 1], steps[|steps| - 1];
      RunKeepsInv(s, front, history);
      var before := RunFrom(s, front);
      assert Legal(last, history);
      match last
      case SendStep(now) =>
        if before.queue != [] {
          SendKeepsInv(before, now, history);
        }
      case PollStep(log, window, again, length, r, now) =>
        if before.queue == [] {
          PollKeepsInv(before, log, window, again, length, r, now, history);
        }
    }
  }

  /**
   Under any concurrent appends and removals, a client sees consecutive event numbers with no gap or
   repeat between explicit resets, a replay's closing checkpoint leaves the cursor where it is, and
   every event shown is the log's, with no stale weather.
   */
  lemma {:induction false} StreamIsGapFree(
      request: Resume, stream: Uuid, first: Log, window: Log, again: Log, length: nat, r: Renderer, now: int,
      steps: seq<Step>, history: set<DurableEvent>)
    requires Read(first, history) && Read(window, history) && Read(again, history)
    requires forall step | step in steps :: Legal(step, history)
    requires Connect(request, stream, first, window, again, length, r, now).Ok?
    ensures var s := RunFrom(Connect(request, stream, first, window, again, length, r, now).value, steps);
            Consecutive(s.sent) && Genuine(s.sent, history)
  {
    ConnectInv(request, stream, first, window, again, length, r, now, history);
    RunKeepsInv(Connect(request, stream, first, window, again, length, r, now).value, steps, history);
  }

  predicate IsEvent(f: Frame) { f.Delivered? && !f.content.Checkpoint? }

  predicate IsReset(f: Frame) { f.Delivered? && f.content == Checkpoint(true) }

  function EventCount(sent: seq<Frame>): nat {
    if sent == [] then 0 else EventCount(sent[..|sent| - 1]) + if IsEvent(sent[|sent| - 1]) then 1 else 0
  }

  /** Between two frames with no reset in between, the cursor advances by exactly the events delivered. */
  lemma {:induction false} NothingSkippedOrRepeated(sent: seq<Frame>, i: nat, j: nat)
    requires Consecutive(sent) && 0 < i <= j <= |sent|
    requires forall k | i <= k < j :: !IsReset(sent[k])
    ensures Cursor(sent[..j]) == Cursor(sent[..i]) + EventCount(sent[..j]) - EventCount(sent[..i])
  {
    if i < j {
      NothingSkippedOrRepeated(sent, i, j - 1);
      assert sent[..j][..j - 1] == sent[..j - 1];
      assert Follows(sent[..j - 1], sent[j - 1]);
    }
  }
}
