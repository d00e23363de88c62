/** The whole way of the bytes: relay, ring, wire, server, Processor, worker, parser. */
module Pipeline {
  import opened Bytes
  import opened Packets
  import opened Parser
  import opened Workers
  import opened Frames
  import opened Subsequences
  import opened Servers
  import opened Proxies
  import opened Processors
  import opened Lifecycle
  import Rings
  import Senders

  /** What the Processor gets from one connection between Proxy and Analyzer: the frames delivered are encoded onto the
      wire, the wire is cut after so many bytes, and the server decodes it and enqueues while there is room. */
  function Arriving(delivered: seq<Frame>, cut: nat, room: seq<bool>): seq<Frame>
    requires cut <= |EncodeAll(delivered)|
  {
    Admitted(DecodeStream(EncodeAll(delivered)[..cut]).frames, room)
  }

  // ---------------------------------------------------------------- whatever is lost on the way

  lemma {:induction false} ArrivingLost(delivered: seq<Frame>, cut: nat, room: seq<bool>)
    requires cut <= |EncodeAll(delivered)| && forall f <- delivered :: Encodable(f)
    ensures Subsequence(Arriving(delivered, cut, room), delivered)
  {
    var m := CutStream(delivered, cut);
    var decoded := DecodeStream(EncodeAll(delivered)[..cut]).frames;
    AdmittedLost(decoded, room);
    Prefix(delivered, m);
    hide Subsequence;
    Transitive(Admitted(decoded, room), decoded, delivered);
  }

  /** While no frame is put back on a full ring. */
  lemma DeliveredLost(size: nat, sender: seq<Senders.Event<Frame>>, q: Senders.State<Frame>)
    requires Senders.Reaches(size, sender, q)
    ensures Subsequence(q.history.delivered, q.history.sent)
  {
    hide Rings.Queue, Rings.Sound, Senders.Reaches, Subsequence;
    Senders.RefinesQueue(size, sender, q);
    var flying := if q.sender.Sending? then [q.sender.frame] else [];
    var all := q.history.delivered + flying + Rings.Queue(q.ring);
    Prefix(all, |q.history.delivered|);
    assert all[..|q.history.delivered|] == q.history.delivered;
    Transitive(q.history.delivered, all, q.history.sent);
  }

  /** One connection between Proxy and Analyzer after another: the frames delivered on it, where the wire was cut, when
      the server had room, and whether there was room for the disconnect. */
  datatype Link = Link(frames: seq<Frame>, cut: nat, room: seq<bool>, disconnected: bool)

  predicate Cuts(links: seq<Link>) {
    forall link <- links :: link.cut <= |EncodeAll(link.frames)|
  }

  function Carried(links: seq<Link>): seq<Frame> {
    if links == [] then [] else links[0].frames + Carried(links[1..])
  }

  function Receives(link: Link): seq<Frame>
    requires link.cut <= |EncodeAll(link.frames)|
  {
    Arriving(link.frames, link.cut, link.room) + if link.disconnected then [DISCONNECT] else []
  }

  function Received(links: seq<Link>): seq<Frame>
    requires Cuts(links)
  {
    if links == [] then [] else Receives(links[0]) + Received(links[1..])
  }

  lemma WithDisconnect(frames: seq<Frame>, trace: seq<Frame>)
    requires Disturbed(frames, trace)
    ensures Disturbed(frames + [DISCONNECT], trace)
  {
    var at :| Places(frames, trace, at);
    assert Places(frames + [DISCONNECT], trace, at + [0]);
  }

  lemma DisturbedAppend(f: seq<Frame>, t: seq<Frame>, f': seq<Frame>, t': seq<Frame>)
    requires Disturbed(f, t) && Disturbed(f', t')
    ensures Disturbed(f + f', t + t')
  {
    var at :| Places(f, t, at);
    var at' :| Places(f', t', at');
    assert Places(f + f', t + t', at + seq(|at'|, i requires 0 <= i < |at'| => at'[i] + |t|));
  }

  lemma DisturbedPart(frames: seq<Frame>, n: nat, trace: seq<Frame>)
    requires Disturbed(frames, trace) && n <= |frames|
    ensures Disturbed(frames[..n], trace)
  {
    var at :| Places(frames, trace, at);
    assert Places(frames[..n], trace, at[..n]);
  }

  lemma DisturbedWithin(frames: seq<Frame>, part: seq<Frame>, all: seq<Frame>)
    requires Disturbed(frames, part) && Subsequence(part, all)
    ensures Disturbed(frames, all)
  {
    var at :| Places(frames, part, at);
    var pick: seq<nat> :| Positions(pick, |all|) && Pick(all, pick) == part;
    var at' := seq(|at|, i requires 0 <= i < |at| => if 0 <= at[i] < |pick| then pick[at[i]] as int else 0);
    assert Places(frames, all, at');
  }

  lemma {:induction false} LinksDisturb(links: seq<Link>)
    requires Cuts(links) && forall f <- Carried(links) :: Encodable(f)
    ensures Disturbed(Received(links), Carried(links))
  {
    hide Disturbed, Arriving, Encodable;
    if links == [] {
      Empty<Frame>([]);
      LostDisturbed([], []);
    } else {
      var link := links[0];
      ArrivingLost(link.frames, link.cut, link.room);
      LostDisturbed(Arriving(link.frames, link.cut, link.room), link.frames);
      WithDisconnect(Arriving(link.frames, link.cut, link.room), link.frames);
      var arriving := Arriving(link.frames, link.cut, link.room);
      assert arriving + [] == arriving;
      LinksDisturb(links[1..]);
      DisturbedAppend(Receives(link), link.frames, Received(links[1..]), Carried(links[1..]));
    }
  }

  /** The frames of a Proxy, through a ring that drops the oldest but never takes one back when it is full, and then
      over any number of connections one after the other, each cut anywhere, into a server that may lack room, with
      disconnects or not: no worker is displaced, none is made after its Close, and no channel is forgotten open. */
  lemma LossesDoNoHarm(
    proxy: seq<Proxies.Event>, size: nat, sender: seq<Senders.Event<Frame>>, q: Senders.State<Frame>,
    links: seq<Link>, events: seq<Processors.Event>, capacity: nat)
    requires Proxies.Run(Proxies.START, proxy).Some?
    requires Senders.Reaches(size, sender, q) && q.history.sent == Proxies.Run(Proxies.START, proxy).value.frames
    requires Cuts(links) && Carried(links) == q.history.delivered
    requires Processors.Run(Processors.START, events, capacity).Some?
    requires Processors.Run(Processors.START, events, capacity).value.handled <= Received(links)
    ensures var s := Processors.Run(Processors.START, events, capacity).value;
            && !s.displaced
            && (forall i :: 0 <= i < |s.handled| && s.handled[i].frameType == FRAME_TYPE_CONN_CLOSE ==>
                  s.handled[i].connectionId !in s.workers)
            && (forall k :: 0 <= k < |s.channels| ==> Serves(s.workers, s.channels, k) || s.channels[k].IsClosed())
  {
    hide Proxies.Run, Processors.Run, Subsequence, Disturbed, Received, Encodable, Senders.Reaches;
    var trace := Proxies.Run(Proxies.START, proxy).value.frames;
    var handled := Processors.Run(Processors.START, events, capacity).value.handled;
    Proxies.EveryRun(proxy);
    DeliveredLost(size, sender, q);
    Members(q.history.delivered, trace);
    LinksDisturb(links);
    assert handled == Received(links)[..|handled|];
    DisturbedPart(Received(links), |handled|, q.history.delivered);
    DisturbedWithin(handled, q.history.delivered, trace);
    ProxyProtects(proxy, events, capacity);
  }

  // ---------------------------------------------------------------- when nothing is lost

  lemma {:induction false} StreamBytes(frames: seq<Frame>, id: uint64, d: PacketDirection)
    ensures Concat(DataOf(ChunksOf(frames, id), d)) == Proxies.BytesOf(FramesOf(frames, id), d)
  {
    if frames == [] {
    } else {
      var before, f := frames[..|frames| - 1], frames[|frames| - 1];
      StreamBytes(before, id, d);
      if f.connectionId == id {
        Proxies.BytesOfSnoc(FramesOf(before, id), f, d);
      }
      if f.frameType == FRAME_TYPE_DATA && f.connectionId == id {
        LastChunk(ChunksOf(before, id), f.ToRawChunk(), d);
      } else {
        assert ChunksOf(before, id) + [] == ChunksOf(before, id);
      }
      var bytes := Proxies.BytesOf(FramesOf(before, id), d);
      assert bytes + [] == bytes && FramesOf(before, id) + [] == FramesOf(before, id);
    }
  }

  lemma LastChunk(chunks: seq<RawChunk>, chunk: RawChunk, d: PacketDirection)
    ensures Concat(DataOf(chunks + [chunk], d)) ==
            Concat(DataOf(chunks, d)) + if chunk.direction == d then chunk.data else []
  {
    DataOfAppend(chunks, [chunk], d);
    var data: seq<seq<byte>> := if chunk.direction == d then [chunk.data] else [];
    assert [chunk][1..] == [];
    assert DataOf([chunk], d) == data;
    ConcatAppend(DataOf(chunks, d), data);
    assert chunk.data + [] == chunk.data;
    assert data != [] ==> data[1..] == [];
    assert Concat(data) == if chunk.direction == d then chunk.data else [];
  }

  lemma WholeWire(frames: seq<Frame>, room: seq<bool>)
    requires forall f <- frames :: Encodable(f)
    requires forall i :: 0 <= i < |room| ==> room[i]
    ensures Arriving(frames, |EncodeAll(frames)|, room) == frames
  {
    hide EncodeAll, DecodeStream, Admitted;
    var wire := EncodeAll(frames);
    StreamRoundTrip(frames);
    AllAdmitted(frames, room);
    assert wire[..|wire|] == wire;
  }

  lemma NothingLost(size: nat, sender: seq<Senders.Event<Frame>>, q: Senders.State<Frame>, room: seq<bool>)
    requires Senders.Reaches(size, sender, q)
    requires forall f <- q.history.sent :: Encodable(f)
    requires q.sender.Idle? && !q.closed && !q.token && q.signalling == 0 && q.history.dropped == 0
    requires forall i :: 0 <= i < |room| ==> room[i]
    ensures Arriving(q.history.delivered, |EncodeAll(q.history.delivered)|, room) == q.history.sent
  {
    hide Senders.Reaches, Arriving, EncodeAll, Encodable;
    Senders.AtRest(size, sender, q);
    WholeWire(q.history.sent, room);
  }

  lemma {:induction false} ChunksOfPrefix(frames: seq<Frame>, n: nat, id: uint64)
    requires n <= |frames|
    ensures ChunksOf(frames[..n], id) <= ChunksOf(frames, id)
  {
    if n == |frames| {
      assert frames[..n] == frames;
    } else {
      var before := frames[..|frames| - 1];
      assert before[..n] == frames[..n];
      ChunksOfPrefix(before, n, id);
    }
  }

  /** A moment of the whole pipeline, so far without drops, over one connection between Proxy and Analyzer: the ring has
      dropped nothing, the wire was cut anywhere, the server always had room, the Processor has handled some of the
      frames, and channel k never filled. */
  ghost predicate Lossless(
    proxy: seq<Proxies.Event>, size: nat, sender: seq<Senders.Event<Frame>>, q: Senders.State<Frame>,
    cut: nat, room: seq<bool>, events: seq<Processors.Event>, capacity: nat, k: nat)
  {
    && Proxies.Run(Proxies.START, proxy).Some?
    && Senders.Reaches(size, sender, q) && q.history.sent == Proxies.Run(Proxies.START, proxy).value.frames
    && q.history.dropped == 0 && q.history.connections <= 1
    && cut <= |EncodeAll(q.history.delivered)| && (forall i :: 0 <= i < |room| ==> room[i])
    && Processors.Run(Processors.START, events, capacity).Some?
    && var s := Processors.Run(Processors.START, events, capacity).value;
       && s.handled <= Arriving(q.history.delivered, cut, room)
       && k < |s.channels| && forall i :: 0 <= i < |s.channels[k].ops| ==> !s.channels[k].ops[i].Dropped?
  }

  lemma DeliveredFirst(size: nat, sender: seq<Senders.Event<Frame>>, q: Senders.State<Frame>)
    requires Senders.Reaches(size, sender, q) && q.history.dropped == 0
    ensures q.history.delivered <= q.history.sent
  {
    hide Rings.Queue, Rings.Sound, Senders.Reaches, Subsequence;
    Senders.RefinesQueue(size, sender, q);
    var flying := if q.sender.Sending? then [q.sender.frame] else [];
    Shorter(q.history.delivered + flying + Rings.Queue(q.ring), q.history.sent);
    assert q.history.delivered <= q.history.delivered + flying + Rings.Queue(q.ring);
  }

  lemma ArrivingFirst(delivered: seq<Frame>, cut: nat, room: seq<bool>)
    requires cut <= |EncodeAll(delivered)| && forall f <- delivered :: Encodable(f)
    requires forall i :: 0 <= i < |room| ==> room[i]
    ensures Arriving(delivered, cut, room) <= delivered
  {
    hide EncodeAll, DecodeStream, Admitted, Encodable;
    var m := CutStream(delivered, cut);
    AllAdmitted(DecodeStream(EncodeAll(delivered)[..cut]).frames, room);
  }

  /** Without drops the Processor has handled the first frames of the Proxy. */
  lemma HandledFirst(
    proxy: seq<Proxies.Event>, size: nat, sender: seq<Senders.Event<Frame>>, q: Senders.State<Frame>,
    cut: nat, room: seq<bool>, events: seq<Processors.Event>, capacity: nat, k: nat)
    requires Lossless(proxy, size, sender, q, cut, room, events, capacity, k)
    ensures var frames := Proxies.Run(Proxies.START, proxy).value.frames;
            var handled := Processors.Run(Processors.START, events, capacity).value.handled;
            && handled <= frames && Disciplined(handled) && forall f <- handled :: GameFrame(f)
  {
    hide Proxies.Run, Processors.Run, Arriving, Encodable, Disciplined, Senders.Reaches, EncodeAll;
    var frames := Proxies.Run(Proxies.START, proxy).value.frames;
    var handled := Processors.Run(Processors.START, events, capacity).value.handled;
    Proxies.EveryRun(proxy);
    DeliveredFirst(size, sender, q);
    ArrivingFirst(q.history.delivered, cut, room);
    assert handled == frames[..|handled|];
    LivesDisciplined(frames);
    FirstDisciplined(frames, |handled|);
  }

  lemma FirstDisciplined(frames: seq<Frame>, n: nat)
    requires Disciplined(frames) && n <= |frames|
    ensures Disciplined(frames[..n])
  {
    forall i, j | 0 <= i < j < n ensures Follow(frames[..n][i], frames[..n][j]) {
      assert Follow(frames[i], frames[j]);
    }
  }

  lemma FromConnections(proxy: seq<Proxies.Event>)
    requires Proxies.Run(Proxies.START, proxy).Some?
    ensures var p := Proxies.Run(Proxies.START, proxy).value; forall f <- p.frames :: f.connectionId in p.connections
  {
    hide Proxies.Run;
    Proxies.EveryRun(proxy);
  }

  /** What the worker of channel k has taken are the first chunks of its connection. */
  lemma TakenFirst(
    proxy: seq<Proxies.Event>, size: nat, sender: seq<Senders.Event<Frame>>, q: Senders.State<Frame>,
    cut: nat, room: seq<bool>, events: seq<Processors.Event>, capacity: nat, k: nat)
    requires Lossless(proxy, size, sender, q, cut, room, events, capacity, k)
    ensures Proxies.Run(Proxies.START, proxy).Some? && Processors.Run(Processors.START, events, capacity).Some?
    ensures k < |Processors.Run(Processors.START, events, capacity).value.channels|
    ensures var p := Proxies.Run(Proxies.START, proxy).value;
            var c := Processors.Run(Processors.START, events, capacity).value.channels[k];
            c.owner in p.connections && c.taken <= ChunksOf(p.frames, c.owner)
  {
    hide Proxies.Run, Processors.Run, Disciplined, Arriving, Senders.Reaches, ChunksOf, OfferedChunks, SentChunks,
      EncodeAll;
    HandledFirst(proxy, size, sender, q, cut, room, events, capacity, k);
    OneWorkerEach(events, capacity, k);
    Processors.Drained(events, capacity, k);
    FromConnections(proxy);
    var frames := Proxies.Run(Proxies.START, proxy).value.frames;
    var s := Processors.Run(Processors.START, events, capacity).value;
    var c := s.channels[k];
    SentIsOffered(c.ops);
    ChunksOfPrefix(frames, |s.handled|, c.owner);
    assert frames[..|s.handled|] == s.handled;
    assert c.taken <= c.taken + c.queue;
  }

  /** Safety: at every moment without drops, however everything interleaves and with any tables, the packets a worker
      has found server to client are those of one parse of its first j chunks and, if that loop panicked at the next
      one, those of one parse of m chunks behind it. The former are the first of those that one parse finds in all the
      bytes the Proxy has relayed server to client on its connection so far. With safe tables there are no others. */
  lemma Always(
    db: PacketDatabase, proxy: seq<Proxies.Event>, size: nat,
    sender: seq<Senders.Event<Frame>>, q: Senders.State<Frame>,
    cut: nat, room: seq<bool>, events: seq<Processors.Event>, capacity: nat, k: nat) returns (j: nat, m: nat)
    requires Lossless(proxy, size, sender, q, cut, room, events, capacity, k)
    ensures var connections := Proxies.Run(Proxies.START, proxy).value.connections;
            var c := Processors.Run(Processors.START, events, capacity).value.channels[k];
            var w := ProcessAll(db, FRESH, c.taken);
            && c.owner in connections
            && Stretches(db, c.taken, j, m) && w.life == LifeAfter(db, c.taken, j, m)
            && (SafeTable(db.receive) && SafeTable(db.send) ==> j == |c.taken|)
            && var first := PacketsOf(Parse(db, ServerToClient, Concat(DataOf(c.taken[..j], ServerToClient))).steps);
               && Of(w.emitted, ServerToClient) == first +
                    (if j == |c.taken| then []
                     else PacketsOf(Parse(db, ServerToClient,
                                          Concat(DataOf(c.taken[j + 1..][..m], ServerToClient))).steps))
               && first <= PacketsOf(Parse(db, ServerToClient, connections[c.owner].toClient.written).steps)
  {
    hide Proxies.Run, Processors.Run, Lossless, ChunksOf, DataOf, Of, PacketsOf, Parse, ProcessAll, Concat, SafeTable;
    hide Proxies.FramesOf, Proxies.BytesOf;
    TakenFirst(proxy, size, sender, q, cut, room, events, capacity, k);
    var p := Proxies.Run(Proxies.START, proxy).value;
    var c := Processors.Run(Processors.START, events, capacity).value.channels[k];
    j, m := ServerLifetime(db, c.taken);
    if SafeTable(db.receive) && SafeTable(db.send) { SafeWorker(db, FRESH, c.taken); }
    var chunks := ChunksOf(p.frames, c.owner);
    assert chunks[..j] == c.taken[..j];
    ServerPrefix(db, chunks, j);
    StreamBytes(p.frames, c.owner, ServerToClient);
    Proxies.EveryRun(proxy);
    ServerMore(db, Concat(DataOf(chunks, ServerToClient)), PendingBytes(p.connections[c.owner].toClient));
  }

  /** A run of the whole pipeline without drops that has come to rest, up to the worker of channel k: the ring is at
      rest, the wire whole, all is handled, and the worker is done without a timeout. */
  ghost predicate Undisturbed(
    proxy: seq<Proxies.Event>, size: nat, sender: seq<Senders.Event<Frame>>, q: Senders.State<Frame>,
    room: seq<bool>, events: seq<Processors.Event>, capacity: nat, k: nat)
  {
    && Lossless(proxy, size, sender, q, |EncodeAll(q.history.delivered)|, room, events, capacity, k)
    && q.sender.Idle? && !q.closed && !q.token && q.signalling == 0
    && var s := Processors.Run(Processors.START, events, capacity).value;
       && s.handled == Arriving(q.history.delivered, |EncodeAll(q.history.delivered)|, room)
       && s.channels[k].phase == Done(false)
  }

  lemma AllTaken(
    proxy: seq<Proxies.Event>, size: nat, sender: seq<Senders.Event<Frame>>, q: Senders.State<Frame>,
    room: seq<bool>, events: seq<Processors.Event>, capacity: nat, k: nat)
    requires Undisturbed(proxy, size, sender, q, room, events, capacity, k)
    ensures var c := Processors.Run(Processors.START, events, capacity).value.channels[k];
            c.taken == ChunksOf(Proxies.Run(Proxies.START, proxy).value.frames, c.owner)
  {
    hide Proxies.Run, Processors.Run, Disciplined, Arriving, Encodable, Senders.Reaches, ChunksOf, OfferedChunks,
      SentChunks;
    hide EncodeAll;
    HandledFirst(proxy, size, sender, q, |EncodeAll(q.history.delivered)|, room, events, capacity, k);
    Proxies.EveryRun(proxy);
    NothingLost(size, sender, q, room);
    OneWorkerEach(events, capacity, k);
    Processors.Drained(events, capacity, k);
    SentIsOffered(Processors.Run(Processors.START, events, capacity).value.channels[k].ops);
  }

  /** With nothing dropped, one connection between Proxy and Analyzer and no drain timeout: however handlers, producers,
      frames and workers interleave, the packets the worker of a connection finds server to client are those of one
      parse of all the bytes the Proxy relayed server to client on that connection, as long as the worker stays in its
      first loop; with safe tables it always does. */
  lemma EndToEnd(
    db: PacketDatabase, proxy: seq<Proxies.Event>, size: nat,
    sender: seq<Senders.Event<Frame>>, q: Senders.State<Frame>,
    room: seq<bool>, events: seq<Processors.Event>, capacity: nat, k: nat)
    requires Undisturbed(proxy, size, sender, q, room, events, capacity, k)
    ensures var connections := Proxies.Run(Proxies.START, proxy).value.connections;
            var c := Processors.Run(Processors.START, events, capacity).value.channels[k];
            var w := ProcessAll(db, FRESH, c.taken);
            && c.owner in connections
            && (connections[c.owner].toClient.pending.None? && w.life == FirstLoop ==>
                  Of(w.emitted, ServerToClient)
                  == PacketsOf(Parse(db, ServerToClient, connections[c.owner].toClient.written).steps))
            && (SafeTable(db.receive) && SafeTable(db.send) ==> w.life == FirstLoop)
  {
    hide Proxies.Run, Processors.Run, Lossless, ChunksOf, DataOf, Of, PacketsOf, Parse, ProcessAll, Concat, SafeTable;
    hide Proxies.FramesOf, Proxies.BytesOf, EncodeAll, Arriving;
    TakenFirst(proxy, size, sender, q, |EncodeAll(q.history.delivered)|, room, events, capacity, k);
    AllTaken(proxy, size, sender, q, room, events, capacity, k);
    var p := Proxies.Run(Proxies.START, proxy).value;
    var c := Processors.Run(Processors.START, events, capacity).value.channels[k];
    Proxies.EveryRun(proxy);
    StreamBytes(p.frames, c.owner, ServerToClient);
    var bytes := Concat(DataOf(c.taken, ServerToClient));
    assert bytes + [] == bytes;
    if ProcessAll(db, FRESH, c.taken).life == FirstLoop { ServerPackets(db, c.taken); }
    if SafeTable(db.receive) && SafeTable(db.send) { SafeWorker(db, FRESH, c.taken); }
  }
}
