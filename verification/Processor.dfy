/** How frames become workers, channels and map entries (internal/analyzer/processor.go), and how a worker takes the
    chunks of its channel (internal/analyzer/worker.go), interleaved at will. */
module Processors {
  import opened Bytes
  import opened Packets
  import opened Frames
  import opened Subsequences

  // ---------------------------------------------------------------- a channel and its worker

  /** What was done to a channel. The runtime panics on closing twice and on sending after closing. */
  datatype Op = Sent(chunk: RawChunk) | Dropped(chunk: RawChunk) | Closed

  datatype Phase = Running | Draining | Done(timedOut: bool)

  /** owner: the connection it was made for; since: how many frames had been handled before. */
  datatype Channel = Channel(
    owner: uint64, since: nat, ops: seq<Op>, queue: seq<RawChunk>, taken: seq<RawChunk>, cancelled: bool, phase: Phase)
  {
    predicate IsClosed() { Closed in ops }

    /** The non-blocking send of handleData. */
    function Offer(chunk: RawChunk, capacity: nat): Channel {
      if |queue| < capacity then this.(ops := ops + [Sent(chunk)], queue := queue + [chunk])
      else this.(ops := ops + [Dropped(chunk)])
    }

    /** close(chunkChan) and worker.Close(). */
    function Shut(): Channel {
      this.(ops := ops + [Closed], cancelled := true)
    }
  }

  function SentChunks(ops: seq<Op>): seq<RawChunk> {
    if ops == [] then []
    else
      var last := |ops| - 1;
      SentChunks(ops[..last]) + if ops[last].Sent? then [ops[last].chunk] else []
  }

  function OfferedChunks(ops: seq<Op>): seq<RawChunk> {
    if ops == [] then []
    else
      var last := |ops| - 1;
      OfferedChunks(ops[..last]) + if ops[last].Closed? then [] else [ops[last].chunk]
  }

  lemma OpsSnoc(ops: seq<Op>, op: Op)
    ensures SentChunks(ops + [op]) == SentChunks(ops) + if op.Sent? then [op.chunk] else []
    ensures OfferedChunks(ops + [op]) == OfferedChunks(ops) + if op.Closed? then [] else [op.chunk]
  {
    assert (ops + [op])[..|ops|] == ops;
  }

  lemma OfferOne(c: Channel, chunk: RawChunk, capacity: nat)
    ensures var c' := c.Offer(chunk, capacity);
            c'.owner == c.owner && c'.since == c.since && OfferedChunks(c'.ops) == OfferedChunks(c.ops) + [chunk]
  {
    OpsSnoc(c.ops, Sent(chunk));
    OpsSnoc(c.ops, Dropped(chunk));
    hide OfferedChunks;
  }

  /** What a channel accepted is what it was offered, less what was dropped. */
  lemma {:induction false} SentOfOffered(ops: seq<Op>)
    ensures Subsequence(SentChunks(ops), OfferedChunks(ops))
  {
    if ops == [] {
      Empty<RawChunk>([]);
    } else {
      var last := |ops| - 1;
      SentOfOffered(ops[..last]);
      var sent, offered := SentChunks(ops[..last]), OfferedChunks(ops[..last]);
      hide Subsequence;
      match ops[last]
      case Closed => assert sent + [] == sent && offered + [] == offered;
      case Sent(chunk) => Grow(sent, offered, chunk);
      case Dropped(chunk) =>
        assert sent + [] == sent;
        Grow(sent, offered, chunk);
    }
  }

  lemma {:induction false} SentIsOffered(ops: seq<Op>)
    requires forall i :: 0 <= i < |ops| ==> !ops[i].Dropped?
    ensures SentChunks(ops) == OfferedChunks(ops)
  {
    if ops == [] {
    } else {
      SentIsOffered(ops[..|ops| - 1]);
    }
  }

  /** Closed at most once and nothing after it; what was accepted was taken or is queued, in order; a worker that is
      done without a timeout leaves nothing in a closed channel. */
  ghost predicate Sane(c: Channel) {
    && (forall i :: 0 <= i < |c.ops| - 1 ==> c.ops[i] != Closed)
    && SentChunks(c.ops) == c.taken + c.queue
    && (c.phase == Done(false) ==> c.IsClosed() && c.queue == [])
  }

  // ---------------------------------------------------------------- the processor

  datatype ConnectionInfo = ConnectionInfo(id: uint64, clientAddr: seq<byte>, serverAddr: seq<byte>)

  /** channels are all that were ever made, and workers says which of them serves a connection now. handled are the
      frames so far; displaced tells whether an Open ever met a live worker of its id. */
  datatype State = State(
    workers: map<uint64, nat>, connections: map<uint64, ConnectionInfo>, channels: seq<Channel>, cleanedUp: bool,
    handled: seq<Frame>, displaced: bool)

  const START := State(map[], map[], [], false, [], false)

  function Make(s: State, f: Frame): State {
    var id := f.connectionId;
    s.(connections := s.connections[id := ConnectionInfo(id, f.clientAddr, f.serverAddr)],
       channels := s.channels + [Channel(id, |s.handled|, [], [], [], false, Running)],
       workers := s.workers[id := |s.channels|])
  }

  predicate Serves(workers: map<uint64, nat>, channels: seq<Channel>, k: nat)
    requires k < |channels|
  {
    channels[k].owner in workers && workers[channels[k].owner] == k
  }

  /** Every channel that serves a connection is closed. */
  function ShutServing(workers: map<uint64, nat>, channels: seq<Channel>): (r: seq<Channel>)
    ensures |r| == |channels|
  {
    seq(|channels|, k requires 0 <= k < |channels| =>
      if Serves(workers, channels, k) then channels[k].Shut() else channels[k])
  }

  function HandleConnOpen(s: State, f: Frame): State {
    Make(s, f).(displaced := s.displaced || f.connectionId in s.workers)
  }

  function HandleConnClose(s: State, f: Frame): State {
    var id := f.connectionId;
    var channels :=
      if id in s.workers && s.workers[id] < |s.channels| then
        s.channels[s.workers[id] := s.channels[s.workers[id]].Shut()]
      else s.channels;
    s.(channels := channels, workers := s.workers - {id}, connections := s.connections - {id})
  }

  /** A worker is made first if there is none. */
  function HandleData(s: State, f: Frame, capacity: nat): State {
    Deliver(if f.connectionId in s.workers then s else Make(s, f), f, capacity)
  }

  function Deliver(s: State, f: Frame, capacity: nat): State
    requires f.connectionId in s.workers
  {
    var k := s.workers[f.connectionId];
    if k >= |s.channels| then s
    else s.(channels := s.channels[k := s.channels[k].Offer(f.ToRawChunk(), capacity)])
  }

  function HandleIPCDisconnect(s: State): State {
    s.(channels := ShutServing(s.workers, s.channels), connections := s.connections - s.workers.Keys, workers := map[])
  }

  function HandleFrame(s: State, f: Frame, capacity: nat): State {
    var s' :=
      if f.frameType == FRAME_TYPE_CONN_OPEN then HandleConnOpen(s, f)
      else if f.frameType == FRAME_TYPE_CONN_CLOSE then HandleConnClose(s, f)
      else if f.frameType == FRAME_TYPE_DATA then HandleData(s, f, capacity)
      else if f.frameType == FRAME_TYPE_IPC_DISCONNECT then HandleIPCDisconnect(s)
      else s;
    s'.(handled := s.handled + [f])
  }

  function Cleanup(s: State): State {
    if s.cleanedUp then s
    else s.(cleanedUp := true, channels := ShutServing(s.workers, s.channels), workers := map[])
  }

  datatype Event =
    | Handle(frame: Frame)   // processLoop
    | CleanUp                // cleanupAllWorkers
    | CancelAll              // the context of the processor ends
    | Take(k: nat)           // a worker receives from its channel, in its loop or draining
    | SeeCancelled(k: nat)
    | SeeClosed(k: nat)
    | Finish(k: nat)         // draining meets the closed and empty channel
    | TimeOut(k: nat)        // draining lasted half a second

  predicate Enabled(s: State, e: Event) {
    match e
    case Handle(_) => !s.cleanedUp
    case CleanUp => true
    case CancelAll => true
    case Take(k) => k < |s.channels| && !s.channels[k].phase.Done? && s.channels[k].queue != []
    case SeeCancelled(k) => k < |s.channels| && s.channels[k].phase == Running && s.channels[k].cancelled
    case SeeClosed(k) =>
      k < |s.channels| && s.channels[k].phase == Running && s.channels[k].IsClosed() && s.channels[k].queue == []
    case Finish(k) =>
      k < |s.channels| && s.channels[k].phase == Draining && s.channels[k].IsClosed() && s.channels[k].queue == []
    case TimeOut(k) => k < |s.channels| && s.channels[k].phase == Draining
  }

  /** The channel of a worker after the worker's own step. */
  function WorkerStep(c: Channel, e: Event): Channel {
    if e.Take? && c.queue != [] then c.(queue := c.queue[1..], taken := c.taken + [c.queue[0]])
    else if e.SeeCancelled? || e.SeeClosed? then c.(phase := Draining)
    else if e.Finish? then c.(phase := Done(false))
    else if e.TimeOut? then c.(phase := Done(true))
    else c
  }

  function Next(s: State, e: Event, capacity: nat): State
    requires Enabled(s, e)
  {
    match e
    case Handle(frame) => HandleFrame(s, frame, capacity)
    case CleanUp => Cleanup(s)
    case CancelAll =>
      s.(channels := seq(|s.channels|, k requires 0 <= k < |s.channels| => s.channels[k].(cancelled := true)))
    case _ => s.(channels := s.channels[e.k := WorkerStep(s.channels[e.k], e)])
  }

  function Run(s: State, events: seq<Event>, capacity: nat): Option<State>
    decreases |events|
  {
    if events == [] then Some(s)
    else if Enabled(s, events[0]) then Run(Next(s, events[0], capacity), events[1..], capacity)
    else None
  }

  // ---------------------------------------------------------------- invariant, whatever frames arrive

  ghost predicate Keys(s: State) {
    if s.cleanedUp then s.workers == map[] else s.workers.Keys == s.connections.Keys
  }

  /** A worker has an open channel of its own: made for its connection, so no two connections share one. */
  ghost predicate OpenAndOwn(s: State) {
    forall id <- s.workers :: Owns(s, id)
  }

  ghost predicate Owns(s: State, id: uint64) {
    id in s.workers && s.workers[id] < |s.channels| &&
    s.channels[s.workers[id]].owner == id && !s.channels[s.workers[id]].IsClosed()
  }

  ghost predicate AllSane(s: State) {
    forall k :: 0 <= k < |s.channels| ==> Sane(s.channels[k])
  }

  predicate Kept(s: State, k: nat) {
    k < |s.channels| && (Serves(s.workers, s.channels, k) || s.channels[k].IsClosed())
  }

  /** No channel is forgotten open. */
  ghost predicate LeakFree(s: State) {
    forall k :: 0 <= k < |s.channels| ==> Kept(s, k)
  }

  function ChunksOf(frames: seq<Frame>, id: uint64): seq<RawChunk> {
    if frames == [] then []
    else
      var last := |frames| - 1;
      ChunksOf(frames[..last], id) +
      if frames[last].frameType == FRAME_TYPE_DATA && frames[last].connectionId == id
      then [frames[last].ToRawChunk()] else []
  }

  lemma ChunksOfSnoc(frames: seq<Frame>, f: Frame, id: uint64)
    ensures ChunksOf(frames + [f], id) ==
      ChunksOf(frames, id) + if f.frameType == FRAME_TYPE_DATA && f.connectionId == id then [f.ToRawChunk()] else []
  {
    assert (frames + [f])[..|frames|] == frames;
  }

  ghost predicate Inv(s: State) {
    Keys(s) && OpenAndOwn(s) && AllSane(s) && (LeakFree(s) <==> !s.displaced)
  }

  // --- one channel at a time

  lemma OfferSane(c: Channel, chunk: RawChunk, capacity: nat)
    requires Sane(c) && !c.IsClosed()
    ensures var c' := c.Offer(chunk, capacity);
            Sane(c') && !c'.IsClosed() && OfferedChunks(c'.ops) == OfferedChunks(c.ops) + [chunk]
  {
    OpsSnoc(c.ops, Sent(chunk));
    OpsSnoc(c.ops, Dropped(chunk));
    hide SentChunks, OfferedChunks;
    assert c.taken + (c.queue + [chunk]) == c.taken + c.queue + [chunk];
  }

  lemma ShutSane(c: Channel)
    requires Sane(c) && !c.IsClosed()
    ensures Sane(c.Shut()) && c.Shut().IsClosed() && OfferedChunks(c.Shut().ops) == OfferedChunks(c.ops)
  {
    OpsSnoc(c.ops, Closed);
    hide SentChunks, OfferedChunks;
    assert c.Shut().ops[|c.ops|] == Closed;
  }

  lemma WorkerStepSane(c: Channel, e: Event)
    requires Sane(c)
    requires e.Finish? ==> c.IsClosed() && c.queue == []
    ensures var c' := WorkerStep(c, e);
            Sane(c') && c'.ops == c.ops && c'.owner == c.owner && c'.since == c.since
  {
    hide SentChunks;
    if c.queue != [] {
      assert c.taken + c.queue == c.taken + [c.queue[0]] + c.queue[1..];
    }
  }

  lemma CancelSane(c: Channel)
    requires Sane(c)
    ensures Sane(c.(cancelled := true))
  {
    hide SentChunks;
  }

  // --- one event at a time

  lemma MakeOwn(s: State, f: Frame)
    requires Keys(s) && OpenAndOwn(s) && AllSane(s) && !s.cleanedUp
    ensures var m := Make(s, f); Keys(m) && OpenAndOwn(m) && AllSane(m)
  {
    var m := Make(s, f);
    assert forall k :: 0 <= k < |s.channels| ==> m.channels[k] == s.channels[k];
    assert Sane(m.channels[|s.channels|]);
    hide Sane;
    forall id <- m.workers ensures Owns(m, id) {
      if id != f.connectionId { assert Owns(s, id); }
    }
  }

  lemma MakeKept(s: State, f: Frame)
    requires OpenAndOwn(s)
    ensures LeakFree(Make(s, f)) <==> LeakFree(s) && f.connectionId !in s.workers
  {
    var m := Make(s, f);
    var id := f.connectionId;
    assert Kept(m, |s.channels|);
    forall k: nat | k < |s.channels| ensures Kept(m, k) <==> Kept(s, k) && !(id in s.workers && s.workers[id] == k) {
      assert m.channels[k] == s.channels[k];
      if id in s.workers { assert Owns(s, id); }
    }
    if id in s.workers {
      assert Owns(s, id) && !Kept(m, s.workers[id]);
    }
    hide Kept;
  }

  lemma KeptSame(s: State, s': State)
    requires |s'.channels| == |s.channels| && forall k :: 0 <= k < |s.channels| ==> (Kept(s', k) <==> Kept(s, k))
    ensures LeakFree(s') <==> LeakFree(s)
  {
    hide Kept;
  }

  lemma ShutServingInv(s: State, s': State)
    requires OpenAndOwn(s) && AllSane(s)
    requires s'.channels == ShutServing(s.workers, s.channels) && s'.workers == map[]
    ensures OpenAndOwn(s') && AllSane(s') && (LeakFree(s') <==> LeakFree(s))
  {
    forall k: nat | k < |s.channels| ensures Sane(s'.channels[k]) && (Kept(s', k) <==> Kept(s, k)) {
      if Serves(s.workers, s.channels, k) {
        assert Owns(s, s.channels[k].owner);
        ShutSane(s.channels[k]);
      }
    }
    hide Sane, Kept;
    KeptSame(s, s');
  }

  /** One channel that serves id changes in place, or is closed and stops serving. */
  lemma OneChannel(s: State, id: uint64, c: Channel, s': State)
    requires OpenAndOwn(s) && AllSane(s) && Owns(s, id)
    requires Sane(c) && c.owner == id
    requires s'.channels == s.channels[s.workers[id] := c]
    requires s'.workers == if c.IsClosed() then s.workers - {id} else s.workers
    ensures OpenAndOwn(s') && AllSane(s') && (LeakFree(s') <==> LeakFree(s))
  {
    hide Sane;
    var k := s.workers[id];
    assert forall i :: 0 <= i < |s.channels| && i != k ==> s'.channels[i] == s.channels[i];
    forall i: nat | i < |s.channels| ensures Kept(s', i) <==> Kept(s, i) {
    }
    forall other <- s'.workers ensures Owns(s', other) {
      assert Owns(s, other);
    }
    hide Kept;
    KeptSame(s, s');
  }

  /** A change of what is only recorded. */
  lemma Unchanged(m: State, s': State)
    requires Keys(m) && OpenAndOwn(m) && AllSane(m)
    requires s' == m.(handled := s'.handled, displaced := s'.displaced)
    ensures Keys(s') && OpenAndOwn(s') && AllSane(s') && (LeakFree(s') <==> LeakFree(m))
  {
    hide Sane, Kept;
    forall id <- s'.workers ensures Owns(s', id) {
      assert Owns(m, id);
    }
    forall k: nat | k < |m.channels| ensures Kept(s', k) <==> Kept(m, k) {
      KeptOnly(m, s', k);
    }
    KeptSame(m, s');
  }

  lemma KeptOnly(m: State, s': State, k: nat)
    requires s'.channels == m.channels && s'.workers == m.workers
    ensures Kept(s', k) <==> Kept(m, k)
  {
  }

  lemma OpenInv(s: State, f: Frame, capacity: nat)
    requires Inv(s) && !s.cleanedUp && f.frameType == FRAME_TYPE_CONN_OPEN
    ensures Inv(HandleFrame(s, f, capacity))
  {
    hide Keys, OpenAndOwn, AllSane, LeakFree;
    MakeOwn(s, f);
    MakeKept(s, f);
    Unchanged(Make(s, f), HandleFrame(s, f, capacity));
  }

  lemma OwnSane(s: State, id: uint64)
    requires OpenAndOwn(s) && AllSane(s) && id in s.workers
    ensures Owns(s, id) && Sane(s.channels[s.workers[id]])
  {
    hide Sane;
    assert Owns(s, id);
  }

  lemma CloseServing(s: State, f: Frame)
    requires Keys(s) && OpenAndOwn(s) && AllSane(s) && !s.cleanedUp && f.connectionId in s.workers
    ensures var s' := HandleConnClose(s, f);
            Keys(s') && OpenAndOwn(s') && AllSane(s') && (LeakFree(s') <==> LeakFree(s))
  {
    hide AllSane, OpenAndOwn, LeakFree, Sane;
    OwnSane(s, f.connectionId);
    var c := s.channels[s.workers[f.connectionId]];
    ShutSane(c);
    OneChannel(s, f.connectionId, c.Shut(), HandleConnClose(s, f));
  }

  lemma CloseOwn(s: State, f: Frame)
    requires Keys(s) && OpenAndOwn(s) && AllSane(s) && !s.cleanedUp
    ensures var s' := HandleConnClose(s, f);
            Keys(s') && OpenAndOwn(s') && AllSane(s') && (LeakFree(s') <==> LeakFree(s))
  {
    hide AllSane, OpenAndOwn, LeakFree;
    if f.connectionId in s.workers {
      CloseServing(s, f);
    } else {
      assert HandleConnClose(s, f) == s;
    }
  }

  lemma CloseInv(s: State, f: Frame, capacity: nat)
    requires Inv(s) && !s.cleanedUp && f.frameType == FRAME_TYPE_CONN_CLOSE
    ensures Inv(HandleFrame(s, f, capacity))
  {
    hide Keys, OpenAndOwn, AllSane, LeakFree;
    CloseOwn(s, f);
    Unchanged(HandleConnClose(s, f), HandleFrame(s, f, capacity));
  }

  lemma DeliverInv(m: State, f: Frame, capacity: nat)
    requires Inv(m) && !m.cleanedUp && f.frameType == FRAME_TYPE_DATA && f.connectionId in m.workers
    ensures Inv(Deliver(m, f, capacity).(handled := m.handled + [f]))
  {
    var id, s' := f.connectionId, Deliver(m, f, capacity).(handled := m.handled + [f]);
    assert Owns(m, id);
    var k := m.workers[id];
    var c := m.channels[k].Offer(f.ToRawChunk(), capacity);
    OfferSane(m.channels[k], f.ToRawChunk(), capacity);
    assert Keys(s');
    hide Sane, Kept, Keys, AllSane, OpenAndOwn, LeakFree, Channel.Offer;
    OneChannel(m, id, c, s');
  }

  lemma DataInv(s: State, f: Frame, capacity: nat)
    requires Inv(s) && !s.cleanedUp && f.frameType == FRAME_TYPE_DATA
    ensures Inv(HandleFrame(s, f, capacity))
  {
    hide Keys, OpenAndOwn, AllSane, LeakFree, Deliver;
    if f.connectionId !in s.workers {
      MakeOwn(s, f);
      MakeKept(s, f);
    }
    var m := if f.connectionId in s.workers then s else Make(s, f);
    DeliverInv(m, f, capacity);
  }

  lemma HandleInv(s: State, f: Frame, capacity: nat)
    requires Inv(s) && !s.cleanedUp
    ensures Inv(HandleFrame(s, f, capacity))
  {
    if f.frameType == FRAME_TYPE_CONN_OPEN {
      OpenInv(s, f, capacity);
    } else if f.frameType == FRAME_TYPE_CONN_CLOSE {
      CloseInv(s, f, capacity);
    } else if f.frameType == FRAME_TYPE_DATA {
      DataInv(s, f, capacity);
    } else {
      var s' := HandleFrame(s, f, capacity);
      hide OpenAndOwn, AllSane, LeakFree;
      if f.frameType == FRAME_TYPE_IPC_DISCONNECT {
        ShutServingInv(s, s');
      } else {
        Unchanged(s, s');
      }
    }
  }

  /** A worker's own steps change neither who owns a channel nor what was done to it. */
  lemma WorkerEventChannels(s: State, e: Event, capacity: nat)
    requires AllSane(s) && Enabled(s, e) && !e.Handle? && !e.CleanUp?
    ensures var s' := Next(s, e, capacity);
            && s' == s.(channels := s'.channels) && |s'.channels| == |s.channels|
            && AllSane(s')
            && forall k :: 0 <= k < |s.channels| ==> SameUse(s.channels[k], s'.channels[k])
  {
    hide WorkerStep, SentChunks, Sane;
    if e.CancelAll? {
      forall k | 0 <= k < |s.channels| ensures Sane(s.channels[k].(cancelled := true)) {
        CancelSane(s.channels[k]);
      }
    } else {
      WorkerStepSane(s.channels[e.k], e);
    }
  }

  predicate SameUse(c: Channel, c': Channel) {
    c'.ops == c.ops && c'.owner == c.owner && c'.since == c.since
  }

  lemma SameUseInv(s: State, s': State)
    requires OpenAndOwn(s)
    requires s' == s.(channels := s'.channels) && |s'.channels| == |s.channels|
    requires forall k :: 0 <= k < |s.channels| ==> SameUse(s.channels[k], s'.channels[k])
    ensures OpenAndOwn(s') && (LeakFree(s') <==> LeakFree(s))
  {
    forall id <- s.workers ensures Owns(s', id) {
      assert Owns(s, id) && SameUse(s.channels[s.workers[id]], s'.channels[s.workers[id]]);
    }
    forall k: nat | k < |s.channels| ensures Kept(s', k) <==> Kept(s, k) {
      assert SameUse(s.channels[k], s'.channels[k]);
    }
    hide Kept, SameUse, Owns;
    KeptSame(s, s');
  }

  lemma WorkerEventInv(s: State, e: Event, capacity: nat)
    requires Inv(s) && Enabled(s, e) && !e.Handle? && !e.CleanUp?
    ensures Inv(Next(s, e, capacity))
  {
    hide AllSane, OpenAndOwn, LeakFree, SameUse, Next;
    WorkerEventChannels(s, e, capacity);
    SameUseInv(s, Next(s, e, capacity));
  }

  lemma NextInv(s: State, e: Event, capacity: nat)
    requires Inv(s) && Enabled(s, e)
    ensures Inv(Next(s, e, capacity))
  {
    match e
    case Handle(frame) => HandleInv(s, frame, capacity);
    case CleanUp => if !s.cleanedUp { ShutServingInv(s, Cleanup(s)); }
    case _ => WorkerEventInv(s, e, capacity);
  }

  lemma {:induction false} RunInv(s: State, events: seq<Event>, capacity: nat)
    requires Inv(s) && Run(s, events, capacity).Some?
    ensures Inv(Run(s, events, capacity).value)
    decreases |events|
  {
    if events == [] {
    } else {
      NextInv(s, events[0], capacity);
      hide Inv, Next, Enabled;
      RunInv(Next(s, events[0], capacity), events[1..], capacity);
    }
  }

  // ---------------------------------------------------------------- what each step does, in full

  /** A data frame gets a worker if there is none. Its chunk is accepted, behind those still queued, exactly if fewer
      than capacity are; otherwise it is lost. No other channel changes. */
  lemma DataMeans(s: State, f: Frame, capacity: nat)
    requires OpenAndOwn(s) && f.frameType == 0x00
    ensures var s', id := HandleFrame(s, f, capacity), f.connectionId;
            var chunk := RawChunk(id, f.timestamp, f.direction, f.data);
            var k := if id in s.workers then s.workers[id] else |s.channels|;
            && k < |s'.channels| && id in s'.workers && s'.workers[id] == k
            && (if id in s.workers
                then && s'.workers == s.workers && s'.connections == s.connections
                     && |s'.channels| == |s.channels|
                else && s'.workers == s.workers[id := k] && |s'.channels| == k + 1
                     && s'.connections == s.connections[id := ConnectionInfo(id, f.clientAddr, f.serverAddr)])
            && (forall i :: 0 <= i < |s.channels| && i != k ==> s'.channels[i] == s.channels[i])
            && var before := if id in s.workers then s.channels[k]
                             else Channel(id, |s.handled|, [], [], [], false, Running);
               var after := s'.channels[k];
               if |before.queue| < capacity
               then && after == before.(queue := before.queue + [chunk], ops := before.ops + [Sent(chunk)])
                    && SentChunks(after.ops) == SentChunks(before.ops) + [chunk]
               else && after == before.(ops := before.ops + [Dropped(chunk)])
                    && SentChunks(after.ops) == SentChunks(before.ops)
  {
    assert f.connectionId in s.workers ==> Owns(s, f.connectionId);
    hide SentChunks, OpenAndOwn;
    var id, chunk := f.connectionId, f.ToRawChunk();
    var before := if id in s.workers then s.channels[s.workers[id]]
                  else Channel(id, |s.handled|, [], [], [], false, Running);
    OpsSnoc(before.ops, Sent(chunk));
    OpsSnoc(before.ops, Dropped(chunk));
  }

  /** An Open makes a worker with a new, empty, open channel, whether there was one or not. */
  lemma OpenMeans(s: State, f: Frame, capacity: nat)
    requires f.frameType == 0x01
    ensures var s', id := HandleFrame(s, f, capacity), f.connectionId;
            && s'.workers == s.workers[id := |s.channels|]
            && s'.connections == s.connections[id := ConnectionInfo(id, f.clientAddr, f.serverAddr)]
            && s'.channels == s.channels + [Channel(id, |s.handled|, [], [], [], false, Running)]
  {
  }

  /** A Close closes the channel of its connection, cancels its worker and removes both map entries; a disconnect does
      so for every connection that has a worker. Other frames do nothing. */
  lemma CloseMeans(s: State, f: Frame, capacity: nat)
    requires OpenAndOwn(s) && f.frameType >= 0x02
    ensures var s' := HandleFrame(s, f, capacity);
            var gone := if f.frameType == 0x02 then {f.connectionId}
                        else if f.frameType == 0x03 then s.workers.Keys else {};
            && s'.workers == s.workers - gone && s'.connections == s.connections - gone
            && |s'.channels| == |s.channels|
            && forall k :: 0 <= k < |s.channels| ==>
                 var c := s.channels[k];
                 s'.channels[k] == if c.owner in gone && c.owner in s.workers && s.workers[c.owner] == k
                                   then c.(ops := c.ops + [Closed], cancelled := true) else c
  {
    assert f.connectionId in s.workers ==> Owns(s, f.connectionId);
    hide OpenAndOwn;
    assert s.workers - {} == s.workers && s.connections - {} == s.connections;
    assert s.workers - s.workers.Keys == map[];
    assert f.connectionId !in s.workers ==> s.workers - {f.connectionId} == s.workers;
  }

  /** Clean-up closes and cancels every worker once, and leaves the connections. */
  lemma CleanUpMeans(s: State, capacity: nat)
    ensures var s' := Next(s, CleanUp, capacity);
            && s'.cleanedUp && s'.connections == s.connections && |s'.channels| == |s.channels|
            && (s.cleanedUp ==> s' == s)
            && (!s.cleanedUp ==>
                  && s'.workers == map[]
                  && forall k :: 0 <= k < |s.channels| ==>
                       var c := s.channels[k];
                       s'.channels[k] == if c.owner in s.workers && s.workers[c.owner] == k
                                         then c.(ops := c.ops + [Closed], cancelled := true) else c)
  {
  }

  /** No worker gives up unless it has been draining for half a second, and none drains unless it was cancelled or has
      emptied a closed channel. */
  lemma PhaseMeans(s: State, e: Event, capacity: nat, k: nat)
    requires OpenAndOwn(s) && Enabled(s, e) && k < |s.channels|
    ensures var before, s' := s.channels[k], Next(s, e, capacity);
            && k < |s'.channels|
            && var after := s'.channels[k];
               && (after.phase != before.phase ==>
                     || (before.phase == Running && after.phase == Draining
                         && (before.cancelled || (before.IsClosed() && before.queue == [])))
                     || (before.phase == Draining && after.phase == Done(false) && before.IsClosed()
                         && before.queue == [])
                     || (before.phase == Draining && after.phase == Done(true) && e == TimeOut(k)))
               && (e == SeeCancelled(k) || e == SeeClosed(k) ==> after.phase == Draining)
               && (e == Finish(k) ==> after.phase == Done(false))
               && (e == TimeOut(k) ==> after.phase == Done(true))
               && (if e == Take(k)
                   then && !before.phase.Done? && before.queue != []
                        && after == before.(taken := before.taken + before.queue[..1], queue := before.queue[1..])
                   else after.taken == before.taken && before.queue <= after.queue)
  {
    hide SentChunks, HandleFrame, OpenAndOwn;
    if e.Handle? {
      var f := e.frame;
      if f.frameType == 0x00 { DataMeans(s, f, capacity); }
      else if f.frameType == 0x01 { OpenMeans(s, f, capacity); }
      else { CloseMeans(s, f, capacity); }
    } else if e == CleanUp {
      CleanUpMeans(s, capacity);
    }
  }

  lemma ClosedSnoc(ops: seq<Op>, op: Op)
    ensures Closed in ops + [op] <==> Closed in ops || op == Closed
  {
  }

  lemma OwnsAt(s: State, id: uint64)
    requires OpenAndOwn(s) && id in s.workers
    ensures Owns(s, id)
  {
  }

  lemma FrameCancels(s: State, f: Frame, capacity: nat, k: nat)
    requires OpenAndOwn(s) && k < |s.channels| <= |HandleFrame(s, f, capacity).channels|
    ensures var before, after := s.channels[k], HandleFrame(s, f, capacity).channels[k];
            after.cancelled <==> before.cancelled || (after.IsClosed() && !before.IsClosed())
  {
    hide SentChunks, HandleFrame, OpenAndOwn;
    var c := s.channels[k];
    if c.owner in s.workers { OwnsAt(s, c.owner); }
    if f.frameType == 0x00 {
      ClosedSnoc(c.ops, Sent(f.ToRawChunk()));
      ClosedSnoc(c.ops, Dropped(f.ToRawChunk()));
      DataMeans(s, f, capacity);
    } else if f.frameType == 0x01 {
      OpenMeans(s, f, capacity);
    } else {
      ClosedSnoc(c.ops, Closed);
      CloseMeans(s, f, capacity);
    }
  }

  /** A worker is cancelled when its channel is closed, or with all others, and stays so. */
  lemma CancelMeans(s: State, e: Event, capacity: nat, k: nat)
    requires OpenAndOwn(s) && Enabled(s, e) && k < |s.channels|
    ensures var before, s' := s.channels[k], Next(s, e, capacity);
            && k < |s'.channels|
            && (s'.channels[k].cancelled <==>
                  before.cancelled || e == CancelAll || (s'.channels[k].IsClosed() && !before.IsClosed()))
  {
    PhaseMeans(s, e, capacity, k);
    hide SentChunks, HandleFrame, OpenAndOwn;
    var c := s.channels[k];
    if e.Handle? {
      ChannelsStay(s, e.frame, capacity);
      FrameCancels(s, e.frame, capacity, k);
    } else if e == CleanUp {
      if c.owner in s.workers { OwnsAt(s, c.owner); }
      ClosedSnoc(c.ops, Closed);
      CleanUpMeans(s, capacity);
    }
  }

  lemma ChannelsStay(s: State, f: Frame, capacity: nat)
    ensures |HandleFrame(s, f, capacity).channels| >= |s.channels|
  {
    hide Channel.Offer;
  }

  // ---------------------------------------------------------------- every run

  lemma StartInv()
    ensures Inv(START)
  {
  }

  /** Whatever frames arrive and however workers interleave, clean-up included: until clean-up workers and connections
      have the same keys; distinct connections have distinct open channels; no channel is closed twice or used after
      closing; and a channel is forgotten open exactly when some Open displaced a live worker. */
  lemma EveryRun(events: seq<Event>, capacity: nat)
    requires Run(START, events, capacity).Some?
    ensures var s := Run(START, events, capacity).value;
            && (if s.cleanedUp then s.workers == map[] else s.workers.Keys == s.connections.Keys)
            && (forall id <- s.workers :: s.workers[id] < |s.channels| && !s.channels[s.workers[id]].IsClosed())
            && (forall id <- s.workers, id' <- s.workers :: id != id' ==> s.workers[id] != s.workers[id'])
            && (forall k, i :: 0 <= k < |s.channels| && 0 <= i < |s.channels[k].ops| - 1 ==>
              s.channels[k].ops[i] != Closed)
            && (s.displaced <==> exists k :: 0 <= k < |s.channels| && !Kept(s, k))
  {
    StartInv();
    RunInv(START, events, capacity);
    var s := Run(START, events, capacity).value;
    hide Run, ChunksOf, OfferedChunks, SentChunks;
    forall id <- s.workers ensures Owns(s, id) {}
  }

  /** Whether the worker saw the cancellation or the closing first, once it is done without a timeout it has taken
      everything its channel accepted, in order. */
  lemma Drained(events: seq<Event>, capacity: nat, k: nat)
    requires Run(START, events, capacity).Some?
    requires k < |Run(START, events, capacity).value.channels|
    ensures var c := Run(START, events, capacity).value.channels[k];
            && c.taken + c.queue == SentChunks(c.ops)
            && (c.phase == Done(false) ==> c.IsClosed() && c.taken == SentChunks(c.ops))
  {
    StartInv();
    RunInv(START, events, capacity);
    var c := Run(START, events, capacity).value.channels[k];
    hide Run, SentChunks;
    assert Sane(c);
    assert c.taken + [] == c.taken;
  }
}
