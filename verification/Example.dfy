/** A run of the whole pipeline, to show that what Pipeline says of undisturbed runs is about something. */
module Example {
  import opened Bytes
  import opened Packets
  import opened Frames
  import opened Proxies
  import opened Processors
  import opened Pipeline
  import Rings
  import Senders

  // ---------------------------------------------------------------- runs, event by event

  lemma {:induction false} ProxyGoesOn(s: Proxies.State, events: seq<Proxies.Event>, e: Proxies.Event)
    requires Proxies.Run(s, events).Some? && Proxies.Enabled(Proxies.Run(s, events).value, e)
    ensures Proxies.Run(s, events + [e]) == Some(Proxies.Next(Proxies.Run(s, events).value, e))
    decreases |events|
  {
    hide Proxies.Next, Proxies.Enabled;
    if events == [] {
      assert Proxies.Run(s, [e]) == Proxies.Run(Proxies.Next(s, e), []);
    } else {
      assert (events + [e])[1..] == events[1..] + [e];
      ProxyGoesOn(Proxies.Next(s, events[0]), events[1..], e);
    }
  }

  lemma {:induction false} ProcessorGoesOn(s: Processors.State, events: seq<Processors.Event>, capacity: nat,
      e: Processors.Event)
    requires Processors.Run(s, events, capacity).Some?
    requires Processors.Enabled(Processors.Run(s, events, capacity).value, e)
    ensures Processors.Run(s, events + [e], capacity)
         == Some(Processors.Next(Processors.Run(s, events, capacity).value, e, capacity))
    decreases |events|
  {
    hide Processors.Next, Processors.Enabled;
    if events == [] {
      assert Processors.Run(s, [e], capacity) == Processors.Run(Processors.Next(s, e, capacity), [], capacity);
    } else {
      assert (events + [e])[1..] == events[1..] + [e];
      ProcessorGoesOn(Processors.Next(s, events[0], capacity), events[1..], capacity, e);
    }
  }

  // An Open and some data of one connection go all the way: relayed, put back once, delivered, handled and drained.

  const PEER := Connection([], [], Accepted, IDLE_RELAY, IDLE_RELAY)

  function Open(): Frame {
    OpenFrame(1, 0, PEER)
  }

  function Data(data: seq<byte>): Frame {
    DataFrame(1, 0, ServerToClient, PEER, data)
  }

  lemma Acts(proxy: seq<Proxies.Event>, s: Proxies.State, a: Action)
    returns (proxy': seq<Proxies.Event>, s': Proxies.State)
    requires Proxies.Run(Proxies.START, proxy) == Some(s) && 1 in s.connections && Ready(s.connections[1], a)
    ensures Proxies.Run(Proxies.START, proxy') == Some(s') && 1 in s'.connections
    ensures s'.connections[1] == Change(s.connections[1], a) && s'.frames == s.frames + Emits(1, s.connections[1], a)
  {
    ProxyGoesOn(Proxies.START, proxy, Act(1, a));
    hide Proxies.Run, Ready, Change, Emits;
    proxy', s' := proxy + [Act(1, a)], Proxies.Next(s, Act(1, a));
  }

  lemma RelayedOnce(data: seq<byte>) returns (proxy: seq<Proxies.Event>)
    requires |data| <= BUFFER_SIZE
    ensures Proxies.Run(Proxies.START, proxy).Some?
    ensures var p := Proxies.Run(Proxies.START, proxy).value;
            && p.frames == [Open(), Data(data)] && 1 in p.connections
            && p.connections[1] ==
                 PEER.(phase := Started, toServer := Relay(true, [], None), toClient := Relay(true, data, None))
  {
    hide Proxies.Run;
    ProxyStays();
    ProxyGoesOn(Proxies.START, [], Accept([], []));
    var s := Proxies.Next(Proxies.START, Accept([], []));
    proxy := [] + [Accept([], [])];
    assert s.frames == [] && s.connections[1] == PEER;
    proxy, s := Acts(proxy, s, Register);
    proxy, s := Acts(proxy, s, Proxies.Action.Open(0));
    proxy, s := Acts(proxy, s, Write(ServerToClient, data));
    proxy, s := Acts(proxy, s, SendData(ServerToClient, 0));
  }

  lemma ProxyStays()
    ensures Proxies.Run(Proxies.START, []) == Some(Proxies.START)
  {
  }

  /** Connected at last, with both frames queued. */
  function Connected<T>(f: T, g: T): Senders.State<T> {
    Senders.State(Rings.Ring([Some(f), Some(g)], 0, 0, 2), Senders.Idle, true, 0, false, true,
                  Senders.History([f, g], [], 0, [], 0, false, 1))
  }

  lemma FailsFirst<T>(f: T, g: T) returns (sender: seq<Senders.Event<T>>, q: Senders.State<T>)
    ensures Senders.Run(Senders.Start(2), sender) == Some(q)
    ensures q == Connected(f, g).(sender := Senders.Sending(f), token := false, connected := false, ring := q.ring,
                                  history := Senders.History([f, g], [], 0, [], 0, false, 0))
    ensures q.ring == Rings.Ring([None, Some(g)], 1, 0, 1)
  {
    hide Senders.Run;
    var start := Senders.Start<T>(2);
    q := start;
    Senders.NoStep(start);
    sender, q := Senders.Step(start, [], q, Senders.EnqueueFrame(f));
    assert q.ring == Rings.Ring([Some(f), None], 0, 1, 1);
    sender, q := Senders.Step(start, sender, q, Senders.EnqueueFrame(g));
    assert q.ring == Rings.Ring([Some(f), Some(g)], 0, 0, 2) && q.history.sent == [f, g];
    sender, q := Senders.Step(start, sender, q, Senders.Signal);
    sender, q := Senders.Step(start, sender, q, Senders.Signal);
    sender, q := Senders.Step(start, sender, q, Senders.Wake);
    sender, q := Senders.Step(start, sender, q, Senders.PopFrame);
    assert q.ring == Rings.Ring([None, Some(g)], 1, 0, 1);
  }

  /** The first frame is put back once, because the sender is not connected yet. */
  lemma Connects<T>(f: T, g: T) returns (sender: seq<Senders.Event<T>>)
    ensures Senders.Run(Senders.Start(2), sender) == Some(Connected(f, g))
  {
    hide Senders.Run;
    var start := Senders.Start<T>(2);
    var q: Senders.State<T>;
    sender, q := FailsFirst(f, g);
    sender, q := Senders.Step(start, sender, q, Senders.Fail);
    assert q.ring == Rings.Ring([Some(f), Some(g)], 0, 0, 2);
    sender, q := Senders.Step(start, sender, q, Senders.Reconnected);
  }

  lemma DeliversBoth<T>(f: T, g: T) returns (sender: seq<Senders.Event<T>>, q: Senders.State<T>)
    ensures Senders.Reaches(2, sender, q)
    ensures q.history.sent == [f, g] && q.history.dropped == 0 && q.history.connections == 1
    ensures q.sender.Idle? && !q.closed && !q.token && q.signalling == 0
  {
    hide Senders.Run;
    var start := Senders.Start<T>(2);
    sender := Connects(f, g);
    q := Connected(f, g);
    sender, q := Senders.Step(start, sender, q, Senders.Wake);
    sender, q := Senders.Step(start, sender, q, Senders.PopFrame);
    assert q.ring == Rings.Ring([None, Some(g)], 1, 0, 1);
    sender, q := Senders.Step(start, sender, q, Senders.Deliver);
    sender, q := Senders.Step(start, sender, q, Senders.PopFrame);
    assert q.ring == Rings.Ring([None, None], 0, 0, 0);
    sender, q := Senders.Step(start, sender, q, Senders.Deliver);
    sender, q := Senders.Step(start, sender, q, Senders.PopFrame);
  }

  lemma Handles(events: seq<Processors.Event>, s: Processors.State, e: Processors.Event)
    returns (events': seq<Processors.Event>, s': Processors.State)
    requires Processors.Run(Processors.START, events, 1) == Some(s) && Processors.Enabled(s, e)
    ensures Processors.Run(Processors.START, events', 1) == Some(s') && s' == Processors.Next(s, e, 1)
  {
    ProcessorGoesOn(Processors.START, events, 1, e);
    hide Processors.Next, Processors.Run;
    events', s' := events + [e], Processors.Next(s, e, 1);
  }

  lemma ProcessorStays()
    ensures Processors.Run(Processors.START, [], 1) == Some(Processors.START)
  {
  }

  lemma HandlesBoth(data: seq<byte>) returns (events: seq<Processors.Event>, s: Processors.State)
    ensures Processors.Run(Processors.START, events, 1) == Some(s)
    ensures s.handled == [Open(), Data(data)] && s.workers == map[1 := 0] && !s.cleanedUp
    ensures var chunk := Data(data).ToRawChunk();
            s.channels == [Channel(1, 0, [Sent(chunk)], [chunk], [], false, Running)]
  {
    hide Processors.Run;
    ProcessorStays();
    var chunk := Data(data).ToRawChunk();
    events, s := Handles([], Processors.START, Handle(Open()));
    assert s.channels == [Channel(1, 0, [], [], [], false, Running)] && s.workers == map[1 := 0];
    events, s := Handles(events, s, Handle(Data(data)));
    assert [] + [Sent(chunk)] == [Sent(chunk)] && [] + [chunk] == [chunk];
    assert s.channels[0] == Channel(1, 0, [Sent(chunk)], [chunk], [], false, Running);
  }

  /** Both frames are handled, the worker is cleaned up before it has taken the chunk, and takes it while draining. */
  lemma Drains(data: seq<byte>) returns (events: seq<Processors.Event>, s: Processors.State)
    ensures Processors.Run(Processors.START, events, 1) == Some(s)
    ensures s.handled == [Open(), Data(data)]
    ensures var chunk := Data(data).ToRawChunk();
            s.channels == [Channel(1, 0, [Sent(chunk), Closed], [], [chunk], true, Done(false))]
  {
    hide Processors.Run, HandleFrame, Open, Data;
    var chunk := Data(data).ToRawChunk();
    events, s := HandlesBoth(data);
    events, s := Handles(events, s, CleanUp);
    assert [Sent(chunk)] + [Closed] == [Sent(chunk), Closed];
    assert s.channels[0] == Channel(1, 0, [Sent(chunk), Closed], [chunk], [], true, Running);
    events, s := Handles(events, s, SeeCancelled(0));
    events, s := Handles(events, s, Processors.Take(0));
    assert s.channels[0] == Channel(1, 0, [Sent(chunk), Closed], [], [chunk], true, Draining);
    events, s := Handles(events, s, Finish(0));
  }

  /** For any data that one relay passes on there is an undisturbed run whose worker takes just those data. */
  lemma Happens(data: seq<byte>)
    returns (proxy: seq<Proxies.Event>, sender: seq<Senders.Event<Frame>>, q: Senders.State<Frame>,
             events: seq<Processors.Event>)
    requires |data| <= BUFFER_SIZE
    ensures Undisturbed(proxy, 2, sender, q, [], events, 1, 0)
    ensures var p := Proxies.Run(Proxies.START, proxy).value;
            1 in p.connections && p.connections[1].toClient == Relay(true, data, None)
    ensures Processors.Run(Processors.START, events, 1).value.channels[0].taken == [Data(data).ToRawChunk()]
  {
    hide Proxies.Run, Senders.Run, Processors.Run, Senders.Reaches, Undisturbed, Encodable, Open, Data;
    proxy := RelayedOnce(data);
    sender, q := DeliversBoth(Open(), Data(data));
    var s: Processors.State;
    events, s := Drains(data);
    Proxies.EveryRun(proxy);
    Assembled(proxy, sender, q, events, s);
  }

  /** The three runs fit together. */
  lemma Assembled(
    proxy: seq<Proxies.Event>, sender: seq<Senders.Event<Frame>>, q: Senders.State<Frame>,
    events: seq<Processors.Event>, s: Processors.State)
    requires Proxies.Run(Proxies.START, proxy).Some? && q.history.sent == Proxies.Run(Proxies.START, proxy).value.frames
    requires Senders.Reaches(2, sender, q) && q.history.dropped == 0 && q.history.connections <= 1
    requires q.sender.Idle? && !q.closed && !q.token && q.signalling == 0
    requires forall f <- q.history.sent :: Encodable(f)
    requires Processors.Run(Processors.START, events, 1) == Some(s) && s.handled == q.history.sent
    requires |s.channels| == 1 && s.channels[0].phase == Done(false)
    requires forall i :: 0 <= i < |s.channels[0].ops| ==> !s.channels[0].ops[i].Dropped?
    ensures Undisturbed(proxy, 2, sender, q, [], events, 1, 0)
  {
    hide Proxies.Run, Senders.Run, Processors.Run, Senders.Reaches, Arriving, EncodeAll, Encodable;
    NothingLost(2, sender, q, []);
  }

  // ---------------------------------------------------------------- a run that does harm

  // A short connection: Open, two chunks of data, Close.

  function Short(x: seq<byte>, y: seq<byte>): seq<Frame> {
    [Open(), Data(x), Data(y), CloseFrame(1, 0)]
  }

  lemma StartsShort(x: seq<byte>) returns (proxy: seq<Proxies.Event>, s: Proxies.State)
    requires |x| <= BUFFER_SIZE
    ensures Proxies.Run(Proxies.START, proxy) == Some(s) && 1 in s.connections && s.frames == [Open(), Data(x)]
    ensures s.connections[1] ==
              PEER.(phase := Started, toServer := Relay(true, [], None), toClient := Relay(true, x, None))
  {
    proxy := RelayedOnce(x);
    hide Proxies.Run;
    s := Proxies.Run(Proxies.START, proxy).value;
  }

  lemma SendsShort(x: seq<byte>, y: seq<byte>) returns (proxy: seq<Proxies.Event>)
    requires |x| <= BUFFER_SIZE && |y| <= BUFFER_SIZE
    ensures Proxies.Run(Proxies.START, proxy).Some?
    ensures Proxies.Run(Proxies.START, proxy).value.frames == Short(x, y)
  {
    hide Proxies.Run;
    var s: Proxies.State;
    proxy, s := StartsShort(x);
    proxy, s := Acts(proxy, s, Write(ServerToClient, y));
    proxy, s := Acts(proxy, s, SendData(ServerToClient, 0));
    assert s.frames == [Open(), Data(x), Data(y)];
    proxy, s := Acts(proxy, s, EndRelay(ServerToClient));
    proxy, s := Acts(proxy, s, EndRelay(ClientToServer));
    proxy, s := Acts(proxy, s, Unregister);
    proxy, s := Acts(proxy, s, Proxies.Action.Close(0));
  }

  /** The Processor handles the Close first and then the Open. */
  lemma HandlesBackwards() returns (events: seq<Processors.Event>, s: Processors.State)
    ensures Processors.Run(Processors.START, events, 1) == Some(s)
    ensures s.handled == [CloseFrame(1, 0), Open()] && s.workers == map[1 := 0]
  {
    hide Processors.Run;
    ProcessorStays();
    events, s := Handles([], Processors.START, Handle(CloseFrame(1, 0)));
    assert s.handled == [CloseFrame(1, 0)] && s.workers == map[];
    events, s := Handles(events, s, Handle(Open()));
  }

  /** A put-back on a full ring does harm: a Proxy sends a short connection, the ring delivers its Close before its
      Open, and the worker of the connection lives on after the Close was handled. */
  lemma PutBackHarms(x: seq<byte>, y: seq<byte>)
    returns (proxy: seq<Proxies.Event>, sender: seq<Senders.Event<Frame>>, q: Senders.State<Frame>,
             events: seq<Processors.Event>)
    requires |x| <= BUFFER_SIZE && |y| <= BUFFER_SIZE
    ensures Proxies.Run(Proxies.START, proxy).Some? && Senders.Run(Senders.Start(2), sender) == Some(q)
    ensures q.history.sent == Proxies.Run(Proxies.START, proxy).value.frames && q.history.overfull
    ensures Processors.Run(Processors.START, events, 1).Some?
    ensures var s := Processors.Run(Processors.START, events, 1).value;
            && s.handled == q.history.delivered && |s.handled| == 2
            && s.handled[0].frameType == FRAME_TYPE_CONN_CLOSE && s.handled[0].connectionId in s.workers
  {
    hide Proxies.Run, Senders.Run, Processors.Run;
    proxy := SendsShort(x, y);
    sender, q := Senders.OutOfOrder(Open(), Data(x), Data(y), CloseFrame(1, 0));
    var s: Processors.State;
    events, s := HandlesBackwards();
  }
}
