/** The Proxy side: connection handlers and their relays (internal/proxy/proxy.go, internal/proxy/connection.go),
    interleaved at will, and the frames they send. */
module Proxies {
  import opened Bytes
  import opened Packets
  import opened Frames

  /** handleConnection: a number is taken, the server is dialled (or not), the connection is registered, Start sends
      Open and launches two relays, both end, the connection is unregistered and Close is sent. */
  datatype Phase = Accepted | Refused | Registered | Started | Unregistered | Finished

  /** One relay: what it wrote to its destination, and the part of it not yet sent to the Analyzer. */
  datatype Relay = Relay(running: bool, written: seq<byte>, pending: Option<seq<byte>>)

  datatype Connection = Connection(
    clientAddr: seq<byte>, serverAddr: seq<byte>, phase: Phase, toServer: Relay, toClient: Relay)
  {
    function Of(direction: PacketDirection): Relay {
      if direction == ClientToServer then toServer else toClient
    }

    function With(direction: PacketDirection, relay: Relay): Connection {
      if direction == ClientToServer then this.(toServer := relay) else this.(toClient := relay)
    }
  }

  datatype State = State(lastId: uint64, connections: map<uint64, Connection>, registered: set<uint64>,
      frames: seq<Frame>)

  const START := State(0, map[], {}, [])

  const IDLE_RELAY := Relay(false, [], None)

  const BUFFER_SIZE := 4096

  /** A step of one connection. */
  datatype Action =
    | Refuse                                                 // no destination, or it cannot be dialled
    | Register
    | Open(timestamp: int64)
    | Write(direction: PacketDirection, data: seq<byte>)     // a relay reads a chunk and writes it on
    | SendData(direction: PacketDirection, timestamp: int64)
    | EndRelay(direction: PacketDirection)                   // read or write error, or the context ends
    | Unregister
    | Close(timestamp: int64)

  datatype Event = Accept(clientAddr: seq<byte>, serverAddr: seq<byte>) | Act(id: uint64, action: Action)

  function OpenFrame(id: uint64, timestamp: int64, c: Connection): Frame {
    Frame(FRAME_TYPE_CONN_OPEN, id, timestamp, ServerToClient, c.clientAddr, c.serverAddr, [])
  }

  function CloseFrame(id: uint64, timestamp: int64): Frame {
    Frame(FRAME_TYPE_CONN_CLOSE, id, timestamp, ServerToClient, [], [], [])
  }

  function DataFrame(id: uint64, timestamp: int64, direction: PacketDirection, c: Connection, data: seq<byte>): Frame {
    Frame(FRAME_TYPE_DATA, id, timestamp, direction, c.clientAddr, c.serverAddr, data)
  }

  predicate Ready(c: Connection, a: Action) {
    match a
    case Refuse => c.phase == Accepted
    case Register => c.phase == Accepted
    case Open(_) => c.phase == Registered
    case Write(d, data) => c.phase == Started && |data| <= BUFFER_SIZE && c.Of(d).running && c.Of(d).pending.None?
    case SendData(d, _) => c.phase == Started && c.Of(d).pending.Some?
    case EndRelay(d) => c.phase == Started && c.Of(d).pending.None?
    case Unregister => c.phase == Started && !c.toServer.running && !c.toClient.running
    case Close(_) => c.phase == Unregistered
  }

  function Change(c: Connection, a: Action): Connection {
    match a
    case Refuse => c.(phase := Refused)
    case Register => c.(phase := Registered)
    case Open(_) => c.(phase := Started, toServer := Relay(true, [], None), toClient := Relay(true, [], None))
    case Write(d, data) => c.With(d, c.Of(d).(written := c.Of(d).written + data, pending := Some(data)))
    case SendData(d, _) => c.With(d, c.Of(d).(pending := None))
    case EndRelay(d) => c.With(d, c.Of(d).(running := false))
    case Unregister => c.(phase := Unregistered)
    case Close(_) => c.(phase := Finished)
  }

  /** The frame a step sends. */
  function Emits(id: uint64, c: Connection, a: Action): seq<Frame> {
    match a
    case Open(timestamp) => [OpenFrame(id, timestamp, c)]
    case SendData(d, timestamp) =>
      if c.Of(d).pending.Some? then [DataFrame(id, timestamp, d, c, c.Of(d).pending.value)] else []
    case Close(timestamp) => [CloseFrame(id, timestamp)]
    case _ => []
  }

  function Registration(registered: set<uint64>, id: uint64, a: Action): set<uint64> {
    if a.Register? then registered + {id} else if a.Unregister? then registered - {id} else registered
  }

  predicate Enabled(s: State, e: Event) {
    match e
    case Accept(clientAddr, serverAddr) => s.lastId + 1 < TWO_TO_THE_64 && |clientAddr| <= 255 && |serverAddr| <= 255
    case Act(id, action) => id in s.connections && Ready(s.connections[id], action)
  }

  function Next(s: State, e: Event): State
    requires Enabled(s, e)
  {
    match e
    case Accept(clientAddr, serverAddr) =>
      var id := s.lastId + 1;
      s.(lastId := id,
         connections := s.connections[id := Connection(clientAddr, serverAddr, Accepted, IDLE_RELAY, IDLE_RELAY)])
    case Act(id, action) =>
      var c := s.connections[id];
      s.(connections := s.connections[id := Change(c, action)],
         registered := Registration(s.registered, id, action),
         frames := s.frames + Emits(id, c, action))
  }

  function Run(s: State, events: seq<Event>): Option<State>
    decreases |events|
  {
    if events == [] then Some(s)
    else if Enabled(s, events[0]) then Run(Next(s, events[0]), events[1..])
    else None
  }

  // ---------------------------------------------------------------- what each connection sends

  function FramesOf(frames: seq<Frame>, id: uint64): seq<Frame> {
    if frames == [] then []
    else
      var last := |frames| - 1;
      FramesOf(frames[..last], id) + if frames[last].connectionId == id then [frames[last]] else []
  }

  lemma FramesOfSnoc(frames: seq<Frame>, f: Frame, id: uint64)
    ensures FramesOf(frames + [f], id) == FramesOf(frames, id) + if f.connectionId == id then [f] else []
  {
    assert (frames + [f])[..|frames|] == frames;
  }

  predicate AllData(frames: seq<Frame>) {
    forall i :: 0 <= i < |frames| ==> frames[i].frameType == FRAME_TYPE_DATA
  }

  /** Open, then data. */
  predicate Opened(frames: seq<Frame>) {
    |frames| >= 1 && frames[0].frameType == FRAME_TYPE_CONN_OPEN && AllData(frames[1..])
  }

  /** Open, then data, then Close. */
  predicate OpenedAndClosed(frames: seq<Frame>) {
    var last := |frames| - 1;
    |frames| >= 2 && frames[last].frameType == FRAME_TYPE_CONN_CLOSE && Opened(frames[..last])
  }

  /** The bytes of the data frames of one direction, in order. */
  function BytesOf(frames: seq<Frame>, direction: PacketDirection): seq<byte> {
    if frames == [] then []
    else
      var last := |frames| - 1;
      BytesOf(frames[..last], direction) +
      if frames[last].frameType == FRAME_TYPE_DATA && frames[last].direction == direction then frames[last].data else []
  }

  lemma BytesOfSnoc(frames: seq<Frame>, f: Frame, direction: PacketDirection)
    ensures BytesOf(frames + [f], direction) == BytesOf(frames, direction) +
      if f.frameType == FRAME_TYPE_DATA && f.direction == direction then f.data else []
  {
    assert (frames + [f])[..|frames|] == frames;
  }

  function PendingBytes(r: Relay): seq<byte> {
    if r.pending.Some? then r.pending.value else []
  }

  predicate Fits(phase: Phase, frames: seq<Frame>) {
    match phase
    case Accepted => frames == []
    case Refused => frames == []
    case Registered => frames == []
    case Started => Opened(frames)
    case Unregistered => Opened(frames)
    case Finished => OpenedAndClosed(frames)
  }

  /** What a relay wrote is what was sent and what is pending; nothing is pending unless it runs. */
  predicate Relayed(c: Connection, frames: seq<Frame>, d: PacketDirection) {
    var r := c.Of(d);
    && BytesOf(frames, d) + PendingBytes(r) == r.written
    && (r.pending.Some? ==> c.phase == Started && r.running && |r.pending.value| <= BUFFER_SIZE)
    && (r.running ==> c.phase == Started)
  }

  /** What a connection sent fits its phase, and with what is pending it is all its relays wrote. */
  ghost predicate Follows(c: Connection, frames: seq<Frame>) {
    && Fits(c.phase, frames) && Relayed(c, frames, ClientToServer) && Relayed(c, frames, ServerToClient)
    && |c.clientAddr| <= 255 && |c.serverAddr| <= 255
  }

  ghost predicate Known(s: State, id: uint64) {
    && id in s.connections && 0 < id <= s.lastId
    && (id in s.registered <==> Registers(s.connections[id]))
    && Follows(s.connections[id], FramesOf(s.frames, id))
  }

  ghost predicate Inv(s: State) {
    && (forall id <- s.connections :: Known(s, id))
    && (forall i :: 0 <= i < |s.frames| ==> SentBy(s, s.frames[i]))
    && s.registered <= s.connections.Keys
  }

  predicate GameFrame(f: Frame) {
    f.frameType == FRAME_TYPE_DATA || f.frameType == FRAME_TYPE_CONN_OPEN || f.frameType == FRAME_TYPE_CONN_CLOSE
  }

  ghost predicate SentBy(s: State, f: Frame) {
    f.connectionId in s.connections && Encodable(f) && GameFrame(f)
  }

  // --- one event at a time

  lemma FitsChange(id: uint64, c: Connection, a: Action, frames: seq<Frame>)
    requires Ready(c, a) && Fits(c.phase, frames)
    ensures Fits(Change(c, a).phase, frames + Emits(id, c, a))
  {
    var sent := Emits(id, c, a);
    if a.Open? {
      assert frames + sent == sent;
    } else if a.SendData? {
      assert (frames + sent)[1..] == frames[1..] + sent;
      assert forall f <- sent :: f.frameType == FRAME_TYPE_DATA;
    } else if a.Close? {
      assert (frames + sent)[..|frames|] == frames;
    } else {
      assert sent == [] && frames + sent == frames;
    }
  }

  lemma EmitsBytes(id: uint64, c: Connection, a: Action, frames: seq<Frame>, d: PacketDirection)
    ensures BytesOf(frames + Emits(id, c, a), d) ==
      BytesOf(frames, d) + if a.SendData? && a.direction == d then PendingBytes(c.Of(d)) else []
  {
    var sent := Emits(id, c, a);
    if sent == [] {
      assert frames + sent == frames;
    } else {
      assert sent == [sent[0]];
      BytesOfSnoc(frames, sent[0], d);
    }
  }

  /** The relay of direction d after a step, and the bytes the step sends for it. */
  lemma RelayStep(c: Connection, a: Action, d: PacketDirection)
    requires Ready(c, a)
    ensures var r, r' := c.Of(d), Change(c, a).Of(d);
            if a.Open? then r' == Relay(true, [], None)
            else if a.Write? && a.direction == d then
              r.pending.None? && r' == r.(written := r.written + a.data, pending := Some(a.data))
                && |a.data| <= BUFFER_SIZE
            else if a.SendData? && a.direction == d then r.pending.Some? && r' == r.(pending := None)
            else if a.EndRelay? && a.direction == d then r.pending.None? && r' == r.(running := false)
            else r' == r
    ensures var c' := Change(c, a); c'.phase == Started <==> a.Open? || (c.phase == Started && !a.Unregister?)
    ensures a.Unregister? ==> !c.Of(d).running
    ensures a.Write? && a.direction == d ==> c.Of(d).running
  {
  }

  lemma RelayedChange(id: uint64, c: Connection, a: Action, frames: seq<Frame>, d: PacketDirection)
    requires Ready(c, a) && Fits(c.phase, frames) && Relayed(c, frames, d)
    ensures Relayed(Change(c, a), frames + Emits(id, c, a), d)
  {
    EmitsBytes(id, c, a, frames, d);
    RelayStep(c, a, d);
    assert BytesOf([], d) == [];
    assert a.Open? ==> frames == [];
    assert c.phase != Started ==> !c.Of(d).running && c.Of(d).pending.None?;
    hide BytesOf, Emits, Change, Ready, Fits;
    var r, bytes := c.Of(d), BytesOf(frames, d);
    assert bytes + [] == bytes && r.written + [] == r.written;
  }

  lemma FollowsChange(id: uint64, c: Connection, a: Action, frames: seq<Frame>)
    requires Ready(c, a) && Follows(c, frames)
    ensures Follows(Change(c, a), frames + Emits(id, c, a))
  {
    FitsChange(id, c, a, frames);
    RelayedChange(id, c, a, frames, ClientToServer);
    RelayedChange(id, c, a, frames, ServerToClient);
    hide Fits, Relayed;
  }

  lemma EmitsOne(id: uint64, c: Connection, a: Action, frames: seq<Frame>)
    requires Ready(c, a) && Follows(c, frames)
    ensures var sent := Emits(id, c, a);
            sent == [] || (sent == [sent[0]] && Encodable(sent[0]) && sent[0].connectionId == id && GameFrame(sent[0]))
  {
    hide Fits, BytesOf;
  }

  lemma EmitsFrames(sent: seq<Frame>, frames: seq<Frame>, actor: uint64, id: uint64)
    requires sent == [] || (sent == [sent[0]] && sent[0].connectionId == actor)
    ensures FramesOf(frames + sent, id) == FramesOf(frames, id) + if id == actor then sent else []
  {
    if sent == [] {
      assert frames + sent == frames && FramesOf(frames, id) + [] == FramesOf(frames, id);
    } else {
      FramesOfSnoc(frames, sent[0], id);
    }
  }

  predicate Registers(c: Connection) {
    c.phase == Registered || c.phase == Started
  }

  lemma PhaseStep(c: Connection, a: Action)
    requires Ready(c, a)
    ensures Registers(Change(c, a)) <==> (if a.Register? then true else if a.Unregister? then false else Registers(c))
  {
  }

  lemma OwnKnown(s: State, id: uint64, a: Action)
    requires Known(s, id) && Ready(s.connections[id], a)
    ensures Known(Next(s, Act(id, a)), id)
  {
    hide Follows, Emits, FramesOf, Ready, Change;
    var c, frames := s.connections[id], FramesOf(s.frames, id);
    EmitsOne(id, c, a, frames);
    EmitsFrames(Emits(id, c, a), s.frames, id, id);
    FollowsChange(id, c, a, frames);
    PhaseStep(c, a);
  }

  lemma OtherKnown(s: State, actor: uint64, a: Action, id: uint64)
    requires Known(s, actor) && Known(s, id) && Ready(s.connections[actor], a) && id != actor
    ensures Known(Next(s, Act(actor, a)), id)
  {
    hide Follows, Emits, FramesOf, Ready, Change;
    var c, frames := s.connections[actor], FramesOf(s.frames, id);
    EmitsOne(actor, c, a, FramesOf(s.frames, actor));
    EmitsFrames(Emits(actor, c, a), s.frames, actor, id);
    assert frames + [] == frames;
  }

  lemma StillSent(s: State, s': State, sent: seq<Frame>)
    requires forall i :: 0 <= i < |s.frames| ==> SentBy(s, s.frames[i])
    requires s.connections.Keys <= s'.connections.Keys && s'.frames == s.frames + sent
    requires sent == [] || (sent == [sent[0]] && SentBy(s', sent[0]))
    ensures forall i :: 0 <= i < |s'.frames| ==> SentBy(s', s'.frames[i])
  {
    forall i | 0 <= i < |s'.frames| ensures SentBy(s', s'.frames[i]) {
      if i < |s.frames| { assert SentBy(s, s.frames[i]); }
    }
  }

  lemma AcceptKnown(s: State, e: Event)
    requires Inv(s) && Enabled(s, e) && e.Accept?
    ensures var s' := Next(s, e); Known(s', s'.lastId) && s'.lastId !in s.connections
  {
    var s' := Next(s, e);
    var id := s'.lastId;
    assert id in s.connections ==> Known(s, id);
    NoFrames(s, id);
    assert BytesOf([], ClientToServer) == [] && BytesOf([], ServerToClient) == [];
    assert Follows(s'.connections[id], []);
    hide Follows, FramesOf;
  }

  lemma AcceptOther(s: State, e: Event, id: uint64)
    requires Inv(s) && Enabled(s, e) && e.Accept? && id in s.connections
    ensures Known(Next(s, e), id)
  {
    hide Follows, FramesOf;
    AcceptKnown(s, e);
    assert Known(s, id);
  }

  lemma AcceptInv(s: State, e: Event)
    requires Inv(s) && Enabled(s, e) && e.Accept?
    ensures Inv(Next(s, e))
  {
    hide Known;
    var s' := Next(s, e);
    AcceptKnown(s, e);
    forall id <- s'.connections ensures Known(s', id) {
      if id != s'.lastId { AcceptOther(s, e, id); }
    }
    assert s'.frames == s.frames + [];
    StillSent(s, s', []);
  }

  lemma ActSent(s: State, actor: uint64, a: Action)
    requires Known(s, actor) && Ready(s.connections[actor], a)
    ensures var s' := Next(s, Act(actor, a));
            var sent := Emits(actor, s.connections[actor], a);
            && s'.frames == s.frames + sent && s'.connections.Keys == s.connections.Keys
            && s'.registered <= s.registered + {actor}
            && (sent == [] || (sent == [sent[0]] && SentBy(s', sent[0])))
  {
    EmitsOne(actor, s.connections[actor], a, FramesOf(s.frames, actor));
    hide Follows, Emits, FramesOf, Change, Ready;
  }

  lemma ActInv(s: State, actor: uint64, a: Action)
    requires Inv(s) && Enabled(s, Act(actor, a))
    ensures Inv(Next(s, Act(actor, a)))
  {
    hide Known, Next, Ready, Emits, SentBy;
    var s' := Next(s, Act(actor, a));
    ActSent(s, actor, a);
    forall id <- s'.connections ensures Known(s', id) {
      if id == actor { OwnKnown(s, id, a); } else { OtherKnown(s, actor, a, id); }
    }
    StillSent(s, s', Emits(actor, s.connections[actor], a));
  }

  lemma NextInv(s: State, e: Event)
    requires Inv(s) && Enabled(s, e)
    ensures Inv(Next(s, e))
  {
    match e
    case Accept(_, _) => AcceptInv(s, e);
    case Act(id, action) => ActInv(s, id, action);
  }

  lemma {:induction false} NoFrames(s: State, id: uint64)
    requires Inv(s) && id !in s.connections
    ensures FramesOf(s.frames, id) == []
  {
    NoFramesIn(s, s.frames, id);
  }

  lemma {:induction false} NoFramesIn(s: State, frames: seq<Frame>, id: uint64)
    requires forall i :: 0 <= i < |frames| ==> SentBy(s, frames[i])
    requires id !in s.connections
    ensures FramesOf(frames, id) == []
  {
    if frames == [] {
    } else {
      NoFramesIn(s, frames[..|frames| - 1], id);
    }
  }

  lemma {:induction false} RunInv(s: State, events: seq<Event>)
    requires Inv(s) && Run(s, events).Some?
    ensures Inv(Run(s, events).value)
    decreases |events|
  {
    if events == [] {
    } else {
      NextInv(s, events[0]);
      hide Inv, Next, Enabled;
      RunInv(Next(s, events[0]), events[1..]);
    }
  }

  // ---------------------------------------------------------------- every run

  /** Nothing yet, or Open then data, or Open, data and Close. */
  predicate PartOfLife(frames: seq<Frame>) {
    frames == [] || Opened(frames) || OpenedAndClosed(frames)
  }

  lemma StartInv()
    ensures Inv(START)
  {
  }

  /** However handlers and relays interleave, each connection sends a part of Open, Data*, Close; a number is used once;
      and what a connection sent in a direction and has pending for it is all its relay wrote. */
  lemma EveryRun(events: seq<Event>)
    requires Run(START, events).Some?
    ensures var s := Run(START, events).value;
            && (forall id :: PartOfLife(FramesOf(s.frames, id)))
            && (forall id <- s.connections ::
                  s.connections[id].phase == Finished <==> OpenedAndClosed(FramesOf(s.frames, id)))
            && (forall id <- s.connections, d ::
                  BytesOf(FramesOf(s.frames, id), d) + PendingBytes(s.connections[id].Of(d))
                  == s.connections[id].Of(d).written)
            && (forall f <- s.frames :: Encodable(f) && GameFrame(f) && f.connectionId in s.connections)
            && (s.lastId + 1 < TWO_TO_THE_64 ==> s.lastId + 1 !in s.connections)
  {
    StartInv();
    RunInv(START, events);
    var s := Run(START, events).value;
    hide Run;
    forall id ensures PartOfLife(FramesOf(s.frames, id)) {
      if id in s.connections { assert Known(s, id); } else { NoFrames(s, id); }
    }
    forall id <- s.connections
      ensures s.connections[id].phase == Finished <==> OpenedAndClosed(FramesOf(s.frames, id))
    {
      assert Known(s, id);
      NotBoth(FramesOf(s.frames, id));
    }
    forall id <- s.connections, d
      ensures BytesOf(FramesOf(s.frames, id), d) + PendingBytes(s.connections[id].Of(d))
           == s.connections[id].Of(d).written
    {
      assert Known(s, id);
    }
    forall i | 0 <= i < |s.frames|
      ensures Encodable(s.frames[i]) && GameFrame(s.frames[i]) && s.frames[i].connectionId in s.connections
    {
      assert SentBy(s, s.frames[i]);
    }
    forall id <- s.connections ensures id <= s.lastId {
      assert Known(s, id);
    }
  }

  /** Connection number 0 is never given out. */
  lemma NumbersFromOne(events: seq<Event>)
    requires Run(START, events).Some?
    ensures forall f <- Run(START, events).value.frames :: f.connectionId > 0
  {
    StartInv();
    RunInv(START, events);
    var s := Run(START, events).value;
    hide Run;
    forall i | 0 <= i < |s.frames| ensures s.frames[i].connectionId > 0 {
      assert SentBy(s, s.frames[i]);
      assert Known(s, s.frames[i].connectionId);
    }
  }

  // ---------------------------------------------------------------- what is in the frames

  /** The frame a step sends, if any, in all its fields; no step but Accept touches addresses. */
  lemma SendsMeans(s: State, id: uint64, a: Action)
    requires Enabled(s, Act(id, a))
    ensures var c, s' := s.connections[id], Next(s, Act(id, a));
            && id in s'.connections && s'.connections.Keys == s.connections.Keys
            && s'.connections[id].clientAddr == c.clientAddr && s'.connections[id].serverAddr == c.serverAddr
            && (forall other <- s.connections :: other != id ==> s'.connections[other] == s.connections[other])
            && s'.frames == s.frames +
               match a
               case Open(timestamp) => [Frame(0x01, id, timestamp, ServerToClient, c.clientAddr, c.serverAddr, [])]
               case SendData(d, timestamp) =>
                 (var written := if d == ClientToServer then c.toServer.pending else c.toClient.pending;
                  [Frame(0x00, id, timestamp, d, c.clientAddr, c.serverAddr,
                         if written.Some? then written.value else [])])
               case Close(timestamp) => [Frame(0x02, id, timestamp, ServerToClient, [], [], [])]
               case _ => []
  {
  }

  /** Open and data carry the addresses of their connection, Close none; only data carries bytes. */
  predicate FromConnection(c: Connection, f: Frame) {
    && (if f.frameType == 0x02 then f.clientAddr == f.serverAddr == []
        else f.clientAddr == c.clientAddr && f.serverAddr == c.serverAddr)
    && (f.frameType != 0x00 ==> f.data == [])
  }

  ghost predicate Addressed(s: State) {
    forall f <- s.frames :: f.connectionId in s.connections && FromConnection(s.connections[f.connectionId], f)
  }

  lemma SameAddresses(c: Connection, c': Connection, f: Frame)
    requires FromConnection(c, f) && c'.clientAddr == c.clientAddr && c'.serverAddr == c.serverAddr
    ensures FromConnection(c', f)
  {
  }

  lemma ActAddressed(s: State, id: uint64, a: Action)
    requires Addressed(s) && Enabled(s, Act(id, a))
    ensures Addressed(Next(s, Act(id, a)))
  {
    var s' := Next(s, Act(id, a));
    SendsMeans(s, id, a);
    hide Next, Enabled;
    var n := |s.frames|;
    assert |s'.frames| > n ==> FromConnection(s'.connections[id], s'.frames[n]) && s'.frames[n].connectionId == id;
    hide FromConnection;
    forall i | 0 <= i < |s'.frames|
      ensures var f := s'.frames[i];
              f.connectionId in s'.connections && FromConnection(s'.connections[f.connectionId], f)
    {
      if i < n {
        var f := s.frames[i];
        assert s'.frames[i] == f;
        SameAddresses(s.connections[f.connectionId], s'.connections[f.connectionId], f);
      }
    }
  }

  lemma AcceptAddressed(s: State, e: Event)
    requires Addressed(s) && Enabled(s, e) && e.Accept? && s.lastId + 1 !in s.connections
    ensures Addressed(Next(s, e))
  {
    hide FromConnection;
  }

  lemma FreshNumber(s: State, e: Event)
    requires Inv(s) && Enabled(s, e) && e.Accept?
    ensures s.lastId + 1 !in s.connections
  {
    AcceptKnown(s, e);
  }

  lemma {:induction false} RunAddressed(s: State, events: seq<Event>)
    requires Inv(s) && Addressed(s) && Run(s, events).Some?
    ensures Addressed(Run(s, events).value)
    decreases |events|
  {
    hide Inv, Addressed, Next, Enabled;
    if events == [] {
    } else {
      var e := events[0];
      NextInv(s, e);
      if e.Accept? {
        FreshNumber(s, e);
        AcceptAddressed(s, e);
      } else {
        ActAddressed(s, e.id, e.action);
      }
      RunAddressed(Next(s, e), events[1..]);
    }
  }

  /** In every run every frame belongs to a connection and carries what it should of it. */
  lemma FramesAddressed(events: seq<Event>)
    requires Run(START, events).Some?
    ensures var s := Run(START, events).value;
            forall f <- s.frames ::
              && f.connectionId in s.connections
              && var c := s.connections[f.connectionId];
                 && (f.frameType == 0x02 ==> f.clientAddr == [] && f.serverAddr == [] && f.data == [])
                 && (f.frameType != 0x02 ==> f.clientAddr == c.clientAddr && f.serverAddr == c.serverAddr)
                 && (f.frameType == 0x01 ==> f.data == [])
  {
    StartInv();
    RunAddressed(START, events);
    hide Run;
  }

  lemma NotBoth(frames: seq<Frame>)
    ensures !(Opened(frames) && OpenedAndClosed(frames))
  {
    if |frames| >= 2 {
      assert frames[|frames| - 1] == frames[1..][|frames| - 2];
    }
  }
}
