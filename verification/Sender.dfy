/** Producers and the one sender of ipc.Client (internal/ipc/client.go), interleaved at will. */
module Senders {
  import opened Packets
  import opened Rings
  import opened Subsequences

  /** Where the sender goroutine is. */
  datatype Position<T> = Idle | Popping | Sending(frame: T) | Reconnecting | Stopped

  /** What happened so far: frames enqueued, frames delivered, frames dropped from a full ring, which of the enqueued
      frames were delivered and which one is in flight, whether a frame was ever put back on a full ring, and how often
      a connection was made. */
  datatype History<T> = History(
    sent: seq<T>, delivered: seq<T>, dropped: nat, at: seq<nat>, flight: nat, overfull: bool, connections: nat)

  /** signalling counts the producers between their enqueue and their signal. */
  datatype State<T> = State(
    ring: Ring<T>, sender: Position<T>, token: bool, signalling: nat, closed: bool, connected: bool,
    history: History<T>)

  datatype Event<T> =
    | EnqueueFrame(frame: T)   // Send, under the lock
    | Signal                   // Send, after the lock
    | Wake                     // the sender takes the token
    | PopFrame                 // processBuffer
    | Deliver                  // sendFrame succeeds
    | Fail                     // sendFrame fails: pushFront, then reconnect
    | Reconnected              // reconnect succeeds, signals and returns
    | GiveUp                   // reconnect finds the client closed
    | Close
    | Stop                     // the sender finds the client closed

  function Start<T>(size: nat): State<T> {
    State(EmptyRing(size), Idle, false, 0, false, false, History([], [], 0, [], 0, false, 0))
  }

  predicate Enabled<T>(s: State<T>, e: Event<T>) {
    match e
    case EnqueueFrame(_) => true
    case Signal => s.signalling > 0
    case Wake => s.sender.Idle? && s.token
    case PopFrame => s.sender.Popping?
    case Deliver => s.sender.Sending? && s.connected
    case Fail => s.sender.Sending?
    case Reconnected => s.sender.Reconnecting?
    case GiveUp => s.sender.Reconnecting? && s.closed
    case Close => !s.closed
    case Stop => s.sender.Idle? && s.closed
  }

  function Next<T>(s: State<T>, e: Event<T>): State<T>
    requires Shaped(s.ring)
    requires (e.Deliver? || e.Fail?) ==> s.sender.Sending?
    requires e.Signal? ==> s.signalling > 0
  {
    var h := s.history;
    match e
    case EnqueueFrame(frame) =>
      var lost := if s.ring.count >= |s.ring.slots| then 1 else 0;
      s.(ring := Enqueue(s.ring, frame), signalling := s.signalling + 1,
         history := h.(sent := h.sent + [frame], dropped := h.dropped + lost))
    case Signal => s.(signalling := s.signalling - 1, token := true)
    case Wake => s.(token := false, sender := Popping)
    case PopFrame =>
      var (frame, ring) := Pop(s.ring);
      if frame.None? then s.(ring := ring, sender := Idle)
      else s.(ring := ring, sender := Sending(frame.value),
              history := h.(flight := if |h.sent| >= s.ring.count then |h.sent| - s.ring.count else 0))
    case Deliver =>
      s.(sender := Popping, history := h.(delivered := h.delivered + [s.sender.frame], at := h.at + [h.flight]))
    case Fail =>
      s.(ring := PushFront(s.ring, s.sender.frame), sender := Reconnecting, connected := false,
         history := h.(overfull := h.overfull || s.ring.count >= |s.ring.slots|))
    case Reconnected =>
      s.(connected := true, token := true, sender := Idle, history := h.(connections := h.connections + 1))
    case GiveUp => s.(sender := Idle)
    case Close => s.(closed := true)
    case Stop => s.(sender := Stopped)
  }

  /** The state the events lead to, if each is enabled in its turn. */
  function Run<T>(s: State<T>, events: seq<Event<T>>): Option<State<T>>
    decreases |events|
  {
    if events == [] then Some(s)
    else if Shaped(s.ring) && Enabled(s, events[0]) then Run(Next(s, events[0]), events[1..])
    else None
  }

  // ---------------------------------------------------------------- alignment, in every run

  ghost predicate AlignedState<T>(s: State<T>, size: nat) {
    && |s.ring.slots| == size && Aligned(s.ring)
    && (s.sender.Sending? ==> s.ring.count <= size)
  }

  /** However producers interleave and whatever fails, tail == (head + count) mod size, and there are never more than
      size + 1 frames counted, nor more than size while one is in flight. */
  lemma Alignment<T>(size: nat, events: seq<Event<T>>)
    requires size > 0 && Run(Start<T>(size), events).Some?
    ensures AlignedState(Run(Start<T>(size), events).value, size)
  {
    Mod(0, size);
    AlignedRun(Start<T>(size), events, size);
  }

  lemma {:induction false} AlignedRun<T>(s: State<T>, events: seq<Event<T>>, size: nat)
    requires size > 0 && AlignedState(s, size) && Run(s, events).Some?
    ensures AlignedState(Run(s, events).value, size)
    decreases |events|
  {
    if events == [] {
    } else {
      AlignedNext(s, events[0], size);
      hide Next, AlignedState;
      AlignedRun(Next(s, events[0]), events[1..], size);
    }
  }

  lemma AlignedNext<T>(s: State<T>, e: Event<T>, size: nat)
    requires size > 0 && AlignedState(s, size) && Enabled(s, e)
    ensures AlignedState(Next(s, e), size)
  {
    assert Shaped(s.ring);
    hide Enqueue, Pop, PushFront, Aligned;
    if e.EnqueueFrame? { EnqueueAligned(s.ring, e.frame); KeepsSlots(s.ring, e.frame); }
    if e.PopFrame? { PopAligned(s.ring); KeepsSlots2(s.ring); CountBound(s.ring); }
    if e.Fail? { PushFrontAligned(s.ring, s.sender.frame); KeepsSlots(s.ring, s.sender.frame); }
  }

  lemma CountBound<T>(r: Ring<T>)
    ensures Aligned(r) ==> r.count <= |r.slots| + 1
  {
  }

  lemma KeepsSlots<T>(r: Ring<T>, frame: T)
    requires Shaped(r)
    ensures |Enqueue(r, frame).slots| == |r.slots| && |PushFront(r, frame).slots| == |r.slots|
  {
  }

  lemma KeepsSlots2<T>(r: Ring<T>)
    requires Shaped(r)
    ensures |Pop(r).1.slots| == |r.slots|
    ensures Pop(r).0.Some? ==> r.count > 0
  {
  }

  // ---------------------------------------------------------------- the queue, while no put-back meets a full ring

  /** The first of the frames still in the ring. */
  function Oldest<T>(s: State<T>): int {
    |s.history.sent| - s.ring.count
  }

  /** The ring holds the last frames sent; the frame in flight and before it those delivered come earlier, and while
      there is room nothing lies between the one in flight and the ring. */
  ghost predicate Ordered<T>(s: State<T>) {
    var h := s.history;
    && Sound(s.ring) && 0 <= Oldest(s) && Queue(s.ring) == h.sent[Oldest(s)..]
    && (s.sender.Sending? ==>
          && h.flight < Oldest(s) && h.sent[h.flight] == s.sender.frame
          && (s.ring.count < |s.ring.slots| ==> h.flight + 1 == Oldest(s)))
    && Positions(h.at, if s.sender.Sending? then h.flight else Oldest(s))
    && Pick(h.sent, h.at) == h.delivered
    && |h.sent| == |h.delivered| + InFlight(s) + s.ring.count + h.dropped
  }

  function InFlight<T>(s: State<T>): nat {
    if s.sender.Sending? then 1 else 0
  }

  /** An idle sender with work to do is about to be woken. */
  predicate NoLostWakeup<T>(s: State<T>) {
    s.sender.Idle? && !s.closed && s.ring.count > 0 ==> s.token || s.signalling > 0
  }

  lemma SuffixGrows<T>(sent: seq<T>, k: nat, frame: T)
    requires k <= |sent|
    ensures (sent + [frame])[k..] == sent[k..] + [frame]
    ensures k < |sent| ==> (sent + [frame])[k + 1..] == sent[k..][1..] + [frame]
  {
  }

  lemma PickGrows<T>(sent: seq<T>, at: seq<nat>, n: nat, frame: T)
    requires Positions(at, n) && n <= |sent|
    ensures Positions(at, n + 1) && Pick(sent + [frame], at) == Pick(sent, at)
  {
  }

  lemma SoundBounds<T>(r: Ring<T>)
    requires Sound(r)
    ensures Shaped(r) && r.count <= |r.slots|
  {
  }

  /** The ring still holds the last frames sent. */
  lemma SuffixEnqueued<T>(s: State<T>, frame: T)
    requires Sound(s.ring) && 0 <= Oldest(s) && Queue(s.ring) == s.history.sent[Oldest(s)..]
    ensures var s' := Next(s, EnqueueFrame(frame));
            && Sound(s'.ring) && |s'.ring.slots| == |s.ring.slots|
            && Oldest(s') == Oldest(s) + (if s.ring.count == |s.ring.slots| then 1 else 0)
            && Queue(s'.ring) == s'.history.sent[Oldest(s')..]
  {
    hide Enqueue, Queue, Sound, Shaped;
    SoundBounds(s.ring);
    EnqueueQueue(s.ring, frame);
    EnqueueCount(s.ring, frame);
    KeepsSlots(s.ring, frame);
    SuffixGrows(s.history.sent, Oldest(s), frame);
  }

  lemma EnqueueCount<T>(r: Ring<T>, frame: T)
    requires Sound(r)
    ensures Enqueue(r, frame).count == if r.count == |r.slots| then r.count else r.count + 1
  {
    EnqueueAligned(r, frame);
  }

  lemma OrderedEnqueue<T>(s: State<T>, frame: T)
    requires Ordered(s)
    ensures Ordered(Next(s, EnqueueFrame(frame)))
  {
    hide Enqueue, Queue, Sound, Shaped, Positions, Pick;
    SoundBounds(s.ring);
    SuffixEnqueued(s, frame);
    PickGrows(s.history.sent, s.history.at, if s.sender.Sending? then s.history.flight else Oldest(s), frame);
  }

  lemma OrderedPop<T>(s: State<T>)
    requires Ordered(s) && s.sender.Popping?
    ensures Ordered(Next(s, PopFrame))
    ensures Next(s, PopFrame).sender.Idle? ==> s.ring.count == 0
  {
    if s.ring.count > 0 {
      PopQueue(s.ring);
      PopAligned(s.ring);
      KeepsSlots2(s.ring);
      var s' := Next(s, PopFrame);
      hide Pop, Queue, Sound, Aligned;
      assert s'.ring.count < |s'.ring.slots|;
    }
  }

  lemma OrderedDeliver<T>(s: State<T>)
    requires Ordered(s) && s.sender.Sending?
    ensures Ordered(Next(s, Deliver))
  {
    var s' := Next(s, Deliver);
    hide Queue, Sound;
    var h, h' := s.history, s'.history;
    assert Pick(h'.sent, h'.at) == Pick(h.sent, h.at) + [s.sender.frame];
  }

  lemma OrderedFail<T>(s: State<T>)
    requires Ordered(s) && s.sender.Sending? && s.ring.count < |s.ring.slots|
    ensures Ordered(Next(s, Fail))
  {
    PushFrontQueue(s.ring, s.sender.frame);
    var s' := Next(s, Fail);
    assert s'.ring.count == s.ring.count + 1;
    hide PushFront, Queue, Sound;
    var h := s.history;
    assert h.sent[Oldest(s')..] == [h.sent[h.flight]] + h.sent[Oldest(s)..];
  }

  lemma OrderedNext<T>(s: State<T>, e: Event<T>)
    requires Ordered(s) && NoLostWakeup(s) && Enabled(s, e)
    requires !Next(s, e).history.overfull
    ensures Ordered(Next(s, e)) && NoLostWakeup(Next(s, e))
  {
    match e
    case EnqueueFrame(frame) => OrderedEnqueue(s, frame);
    case PopFrame => OrderedPop(s);
    case Deliver => OrderedDeliver(s);
    case Fail => OrderedFail(s);
    case _ => hide Queue, Sound;
  }

  lemma {:induction false} OverfullStays<T>(s: State<T>, events: seq<Event<T>>)
    requires s.history.overfull && Run(s, events).Some?
    ensures Run(s, events).value.history.overfull
    decreases |events|
  {
    if events == [] {
    } else {
      hide Pop, Enqueue, PushFront;
      OverfullStays(Next(s, events[0]), events[1..]);
    }
  }

  lemma {:induction false} OrderedRun<T>(s: State<T>, events: seq<Event<T>>)
    requires Ordered(s) && NoLostWakeup(s)
    requires Run(s, events).Some? && !Run(s, events).value.history.overfull
    ensures var t := Run(s, events).value; Ordered(t) && NoLostWakeup(t)
    decreases |events|
  {
    if events == [] {
    } else {
      hide Next, Ordered, NoLostWakeup;
      var next := Next(s, events[0]);
      if next.history.overfull { OverfullStays(next, events[1..]); }
      OrderedNext(s, events[0]);
      OrderedRun(next, events[1..]);
    }
  }

  lemma OrderedStart<T>(size: nat)
    requires size > 0
    ensures Ordered(Start<T>(size)) && NoLostWakeup(Start<T>(size))
  {
    Mod(0, size);
    var s := Start<T>(size);
    assert Queue(s.ring) == [];
  }

  /** s ends a run from the start in which no frame was put back on a full ring. */
  predicate Reaches<T(==)>(size: nat, events: seq<Event<T>>, s: State<T>) {
    size > 0 && Run(Start(size), events) == Some(s) && !s.history.overfull
  }

  /** In every run in which no frame is put back on a full ring: the ring is a suffix of what was sent, what was
      delivered, is in flight and is queued comes in the order sent, and every frame is accounted for. */
  lemma RefinesQueue<T>(size: nat, events: seq<Event<T>>, s: State<T>)
    requires Reaches(size, events, s)
    ensures Sound(s.ring) && s.ring.count <= |s.history.sent|
    ensures Queue(s.ring) == s.history.sent[|s.history.sent| - s.ring.count..]
    ensures var flying := if s.sender.Sending? then [s.sender.frame] else [];
            Subsequence(s.history.delivered + flying + Queue(s.ring), s.history.sent)
    ensures |s.history.sent| == |s.history.delivered| + InFlight(s) + s.ring.count + s.history.dropped
  {
    hide Run, Sound, Queue, Subsequence;
    OrderedStart<T>(size);
    OrderedRun(Start(size), events);
    InOrder(s);
  }

  lemma InOrder<T>(s: State<T>)
    requires Ordered(s)
    ensures var flying := if s.sender.Sending? then [s.sender.frame] else [];
            Subsequence(s.history.delivered + flying + Queue(s.ring), s.history.sent)
  {
    var h := s.history;
    hide Sound, Queue;
    var at := if s.sender.Sending? then h.at + [h.flight] else h.at;
    assert Pick(h.sent, at) == h.delivered + if s.sender.Sending? then [s.sender.frame] else [];
    WithSuffix(h.sent, at, Oldest(s));
  }

  /** No lost wakeup, in every such run. */
  lemma NeverStranded<T>(size: nat, events: seq<Event<T>>, s: State<T>)
    requires Reaches(size, events, s)
    ensures s.sender.Idle? && !s.closed && s.ring.count > 0 ==> s.token || s.signalling > 0
  {
    OrderedStart<T>(size);
    OrderedRun(Start(size), events);
  }

  /** At rest, every frame was delivered or dropped; without drops all of them were delivered, in order. */
  lemma AtRest<T>(size: nat, events: seq<Event<T>>, s: State<T>)
    requires Reaches(size, events, s)
    requires s.sender.Idle? && !s.closed && !s.token && s.signalling == 0
    ensures |s.history.sent| == |s.history.delivered| + s.history.dropped
    ensures Subsequence(s.history.delivered, s.history.sent)
    ensures s.history.dropped == 0 ==> s.history.delivered == s.history.sent
  {
    OrderedStart<T>(size);
    OrderedRun(Start(size), events);
    RefinesQueue(size, events, s);
    assert s.history.delivered + [] + Queue(s.ring) == s.history.delivered;
    Shorter(s.history.delivered, s.history.sent);
  }

  /** Nothing is delivered before a connection was made, and the sender stops only when the client is closed. */
  lemma {:induction false} ConnectedFirst<T>(s: State<T>, events: seq<Event<T>>)
    requires s.history.connections == 0 ==> !s.connected && s.history.delivered == []
    requires s.sender.Stopped? ==> s.closed
    requires Run(s, events).Some?
    ensures var t := Run(s, events).value;
            && (t.history.connections == 0 ==> !t.connected && t.history.delivered == [])
            && (t.sender.Stopped? ==> t.closed)
    decreases |events|
  {
    if events == [] {
    } else {
      var next := Next(s, events[0]);
      assert next.history.connections == 0 ==> !next.connected && next.history.delivered == [];
      assert next.sender.Stopped? ==> next.closed;
      hide Next, Enabled;
      ConnectedFirst(next, events[1..]);
    }
  }

  // ---------------------------------------------------------------- and when one does

  /** The ring counts more frames than it has slots at some point exactly when a frame was put back on a full ring. */
  lemma OverfullIff<T>(size: nat, events: seq<Event<T>>)
    requires size > 0 && Run(Start<T>(size), events).Some?
    ensures Run(Start<T>(size), events).value.history.overfull
       <==> exists k :: 0 <= k <= |events| && Exceeds(Start(size), events[..k])
  {
    OverfullPoint(Start<T>(size), events);
    Mod(0, size);
  }

  predicate Exceeds<T>(s: State<T>, events: seq<Event<T>>) {
    var t := Run(s, events);
    t.Some? && t.value.ring.count > |t.value.ring.slots|
  }

  lemma {:induction false} OverfullPoint<T>(s: State<T>, events: seq<Event<T>>)
    requires AlignedState(s, |s.ring.slots|) && s.ring.count <= |s.ring.slots| && !s.history.overfull
    requires Run(s, events).Some?
    ensures Run(s, events).value.history.overfull <==> exists k :: 0 <= k <= |events| && Exceeds(s, events[..k])
    decreases |events|
  {
    if events == [] {
      assert forall k :: 0 <= k <= |events| ==> events[..k] == [];
    } else {
      var e, later := events[0], events[1..];
      var next := Next(s, e);
      AlignedNext(s, e, |s.ring.slots|);
      OverfullNext(s, e);
      hide Next, Enabled, AlignedState;
      forall k | 0 < k <= |events| ensures Exceeds(s, events[..k]) == Exceeds(next, later[..k - 1]) {
        assert events[..k][0] == e && events[..k][1..] == later[..k - 1];
      }
      assert events[..0] == [] && !Exceeds(s, events[..0]);
      if next.history.overfull {
        OverfullStays(next, later);
        assert later[..0] == [] && Exceeds(next, later[..0]);
        assert Exceeds(s, events[..1]);
      } else {
        OverfullPoint(next, later);
        if k :| 0 <= k <= |later| && Exceeds(next, later[..k]) {
          assert Exceeds(s, events[..k + 1]);
        }
      }
    }
  }

  lemma OverfullNext<T>(s: State<T>, e: Event<T>)
    requires AlignedState(s, |s.ring.slots|) && s.ring.count <= |s.ring.slots| && !s.history.overfull && Enabled(s, e)
    ensures var s' := Next(s, e);
            |s'.ring.slots| == |s.ring.slots| && (s'.history.overfull <==> s'.ring.count > |s'.ring.slots|)
  {
    if e.EnqueueFrame? { EnqueueAligned(s.ring, e.frame); }
    if e.PopFrame? { PopAligned(s.ring); }
  }

  lemma {:induction false} RunSplit<T>(s: State<T>, a: seq<Event<T>>, b: seq<Event<T>>)
    ensures Run(s, a + b) == if Run(s, a).Some? then Run(Run(s, a).value, b) else None
    decreases |a|
  {
    if a == [] {
      assert a + b == b;
    } else if Shaped(s.ring) && Enabled(s, a[0]) {
      var next := Next(s, a[0]);
      hide Next;
      assert (a + b)[0] == a[0] && (a + b)[1..] == a[1..] + b;
      RunSplit(next, a[1..], b);
    }
  }

  /** What RefinesQueue says of a state. */
  ghost predicate Orderly<T>(s: State<T>) {
    var h := s.history;
    var flying := if s.sender.Sending? then [s.sender.frame] else [];
    && Sound(s.ring) && s.ring.count <= |h.sent|
    && Queue(s.ring) == h.sent[|h.sent| - s.ring.count..]
    && Subsequence(h.delivered + flying + Queue(s.ring), h.sent)
    && |h.sent| == |h.delivered| + InFlight(s) + s.ring.count + h.dropped
  }

  ghost predicate OrderlyAfter<T(!new)>(s: State<T>, events: seq<Event<T>>) {
    Run(s, events).Some? && Orderly(Run(s, events).value)
  }

  /** Order and accounting hold all along a run exactly when it puts no frame back on a full ring. */
  lemma OrderlyIff<T(!new)>(size: nat, events: seq<Event<T>>)
    requires size > 0 && Run(Start<T>(size), events).Some?
    ensures (forall k :: 0 <= k <= |events| ==> OrderlyAfter(Start(size), events[..k]))
       <==> !Run(Start<T>(size), events).value.history.overfull
  {
    hide Run, Orderly;
    var start := Start<T>(size);
    if Run(start, events).value.history.overfull {
      OverfullIff(size, events);
      var k :| 0 <= k <= |events| && Exceeds(start, events[..k]);
      ExceedsDisorder(start, events[..k]);
    } else {
      forall k | 0 <= k <= |events| ensures OrderlyAfter(start, events[..k]) {
        assert events == events[..k] + events[k..];
        RunSplit(start, events[..k], events[k..]);
        var s := Run(start, events[..k]).value;
        if s.history.overfull { OverfullStays(s, events[k..]); }
        ReachesOrderly(size, events[..k], s);
      }
    }
  }

  lemma ExceedsDisorder<T(!new)>(s: State<T>, events: seq<Event<T>>)
    requires Exceeds(s, events)
    ensures !OrderlyAfter(s, events)
  {
  }

  lemma ReachesOrderly<T(!new)>(size: nat, events: seq<Event<T>>, s: State<T>)
    requires Reaches(size, events, s)
    ensures Orderly(s)
  {
    RefinesQueue(size, events, s);
    hide Reaches, Sound, Queue, Subsequence;
  }

  // --- two such runs, event by event

  lemma Step<T>(start: State<T>, events: seq<Event<T>>, s: State<T>, e: Event<T>)
    returns (events': seq<Event<T>>, s': State<T>)
    requires Run(start, events) == Some(s) && Shaped(s.ring) && Enabled(s, e)
    ensures Run(start, events') == Some(s') && s' == Next(s, e)
  {
    RunSplit(start, events, [e]);
    events', s' := events + [e], Next(s, e);
    assert Run(s, [e]) == Run(s', []);
    hide Next, Run;
  }

  lemma NoStep<T>(s: State<T>)
    ensures Run(s, []) == Some(s)
  {
  }

  lemma PutBackOnOne<T>(a: T, b: T) returns (events: seq<Event<T>>, s: State<T>)
    ensures Run(Start(1), events) == Some(s)
    ensures s.ring == Ring([Some(a)], 0, 0, 2) && s.sender.Reconnecting? && s.token && s.signalling == 0 && !s.closed
    ensures s.history.sent == [a, b] && s.history.delivered == [] && s.history.dropped == 0
  {
    hide Run;
    var start := Start<T>(1);
    NoStep(start);
    events, s := Step(start, [], start, EnqueueFrame(a));
    events, s := Step(start, events, s, Signal);
    events, s := Step(start, events, s, Wake);
    events, s := Step(start, events, s, PopFrame);
    assert s.ring == Ring([None], 0, 0, 0) && s.history.sent == [a];
    events, s := Step(start, events, s, EnqueueFrame(b));
    assert s.ring == Ring([Some(b)], 0, 0, 1) && s.history.sent == [a, b];
    events, s := Step(start, events, s, Signal);
    events, s := Step(start, events, s, Fail);
    assert s.ring == Ring([Some(a)], 0, 0, 2);
  }

  /** A frame vanishes: it is neither delivered nor counted as dropped, and everything is at rest. */
  lemma Vanished<T>(a: T, b: T) returns (events: seq<Event<T>>, s: State<T>)
    ensures Run(Start(1), events) == Some(s)
    ensures s.history.sent == [a, b] && s.history.delivered == [a] && s.history.dropped == 0 && s.ring.count == 0
    ensures s.sender.Idle? && !s.closed && !s.token && s.signalling == 0
  {
    hide Run;
    var start := Start<T>(1);
    events, s := PutBackOnOne(a, b);
    events, s := Step(start, events, s, Reconnected);
    events, s := Step(start, events, s, Wake);
    events, s := Step(start, events, s, PopFrame);
    assert s.ring == Ring([None], 0, 0, 1);
    events, s := Step(start, events, s, Deliver);
    assert s.history.delivered == [a];
    events, s := Step(start, events, s, PopFrame);
  }

  lemma FillsBehind<T>(a: T, b: T, c: T) returns (events: seq<Event<T>>, s: State<T>)
    ensures Run(Start(2), events) == Some(s)
    ensures s.ring == Ring([Some(c), Some(b)], 1, 1, 2) && s.sender == Sending(a)
    ensures s.history.sent == [a, b, c] && s.history.delivered == [] && s.signalling > 0
  {
    hide Run;
    var start := Start<T>(2);
    NoStep(start);
    events, s := Step(start, [], start, EnqueueFrame(a));
    events, s := Step(start, events, s, Signal);
    events, s := Step(start, events, s, Wake);
    events, s := Step(start, events, s, PopFrame);
    assert s.ring == Ring([None, None], 1, 1, 0) && s.history.sent == [a];
    events, s := Step(start, events, s, EnqueueFrame(b));
    assert s.ring == Ring([None, Some(b)], 1, 0, 1) && s.history.sent == [a, b];
    events, s := Step(start, events, s, EnqueueFrame(c));
  }

  /** Frames are delivered out of order. */
  lemma OutOfOrder<T>(a: T, b: T, c: T, d: T) returns (events: seq<Event<T>>, s: State<T>)
    ensures Run(Start(2), events) == Some(s)
    ensures s.history.sent == [a, b, c, d] && s.history.delivered == [d, a] && s.history.overfull
  {
    hide Run;
    var start := Start<T>(2);
    events, s := FillsBehind(a, b, c);
    events, s := Step(start, events, s, Fail);
    assert s.ring == Ring([Some(a), Some(b)], 0, 1, 3);
    events, s := Step(start, events, s, EnqueueFrame(d));
    assert s.ring == Ring([Some(a), Some(d)], 1, 0, 3) && s.history.sent == [a, b, c, d];
    events, s := Step(start, events, s, Reconnected);
    events, s := Step(start, events, s, Signal);
    events, s := Step(start, events, s, Wake);
    events, s := Step(start, events, s, PopFrame);
    assert s.ring == Ring([Some(a), None], 0, 0, 2);
    events, s := Step(start, events, s, Deliver);
    assert s.history.delivered == [d];
    events, s := Step(start, events, s, PopFrame);
    assert s.ring == Ring([None, None], 1, 0, 1);
    events, s := Step(start, events, s, Deliver);
  }
}
