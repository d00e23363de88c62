/** The code of Connection.relay (internal/proxy/connection.go), proved against the steps of Proxies. */
module RelayCode {
  import opened Bytes
  import opened Packets
  import opened Frames
  import opened Proxies

  /** What the two sockets do in one turn of the loop. */
  datatype Turn =
    | Cancelled                                                 // the context ended
    | ReadTimeout
    | ReadError
    | Chunk(data: seq<byte>, writes: bool, timestamp: int64)    // bytes are read, and written on or not

  /** The chunks written on before the relay ends. */
  function Passed(turns: seq<Turn>): seq<Turn> {
    if turns == [] then []
    else
      match turns[0]
      case Cancelled => []
      case ReadTimeout => Passed(turns[1..])
      case ReadError => []
      case Chunk(_, writes, _) => if writes then [turns[0]] + Passed(turns[1..]) else []
  }

  predicate Sized(turns: seq<Turn>) {
    forall t <- turns :: t.Chunk? ==> |t.data| <= BUFFER_SIZE
  }

  predicate AllChunks(turns: seq<Turn>) {
    forall t <- turns :: t.Chunk?
  }

  lemma {:induction false} PassedChunks(turns: seq<Turn>)
    requires Sized(turns)
    ensures AllChunks(Passed(turns)) && Sized(Passed(turns))
  {
    if turns == [] {
    } else {
      assert forall t <- turns[1..] :: t in turns;
      PassedChunks(turns[1..]);
    }
  }

  // ---------------------------------------------------------------- what is passed on

  /** A turn after which the relay is over: the context ended, a read failed other than by its timeout, or a write. */
  predicate IsLast(t: Turn) {
    t == Cancelled || t == ReadError || (t.Chunk? && !t.writes)
  }

  /** The place of the first such turn, or the number of turns. */
  function EndOf(turns: seq<Turn>): (e: nat)
    ensures e <= |turns|
    ensures e < |turns| ==> IsLast(turns[e])
    ensures forall i :: 0 <= i < e ==> !IsLast(turns[i])
  {
    if turns == [] || IsLast(turns[0]) then 0 else 1 + EndOf(turns[1..])
  }

  function ChunksIn(turns: seq<Turn>): (chunks: seq<Turn>)
    ensures AllChunks(chunks)
    ensures forall t <- turns :: t.Chunk? ==> t in chunks
    ensures forall t <- chunks :: t in turns
  {
    if turns == [] then [] else (if turns[0].Chunk? then [turns[0]] else []) + ChunksIn(turns[1..])
  }

  /** Passed on are all chunks read before the relay is over: a timeout ends nothing. */
  lemma {:induction false} PassedMeans(turns: seq<Turn>)
    ensures Passed(turns) == ChunksIn(turns[..EndOf(turns)])
  {
    if turns == [] || IsLast(turns[0]) {
      assert turns[..0] == [];
    } else {
      var n := EndOf(turns[1..]);
      assert turns[..1 + n][1..] == turns[1..][..n];
      PassedMeans(turns[1..]);
    }
  }

  lemma {:induction false} PassedAppend(a: seq<Turn>, b: seq<Turn>)
    ensures Passed(a + b) == if EndOf(a) < |a| then Passed(a) else Passed(a) + Passed(b)
  {
    if a == [] {
      assert a + b == b;
    } else {
      assert (a + b)[1..] == a[1..] + b;
      PassedAppend(a[1..], b);
    }
  }

  /** A read timeout anywhere changes neither frames nor bytes. */
  lemma TimeoutsDoNotMatter(id: uint64, d: PacketDirection, c: Connection, a: seq<Turn>, b: seq<Turn>)
    requires Sized(a) && Sized(b)
    ensures var with, without := Passed(a + [ReadTimeout] + b), Passed(a + b);
            && AllChunks(with) && AllChunks(without)
            && FramesOfRelay(id, d, c, with) == FramesOfRelay(id, d, c, without)
            && BytesOfChunks(with) == BytesOfChunks(without)
  {
    assert a + [ReadTimeout] + b == a + ([ReadTimeout] + b) && ([ReadTimeout] + b)[1..] == b;
    PassedAppend(a, [ReadTimeout] + b);
    PassedAppend(a, b);
    PassedChunks(a + b);
  }

  lemma {:induction false} FrameAt(id: uint64, d: PacketDirection, c: Connection, chunks: seq<Turn>, k: nat)
    requires AllChunks(chunks) && k < |chunks|
    ensures |FramesOfRelay(id, d, c, chunks)| == |chunks|
    ensures FramesOfRelay(id, d, c, chunks)[k] ==
            Frame(0x00, id, chunks[k].timestamp, d, c.clientAddr, c.serverAddr, chunks[k].data)
  {
    if |chunks| == 1 {
    } else {
      FrameAt(id, d, c, chunks[1..], if k == 0 then 0 else k - 1);
    }
  }

  function DataOf(chunks: seq<Turn>): (data: seq<seq<byte>>)
    requires AllChunks(chunks)
    ensures |data| == |chunks| && forall k :: 0 <= k < |chunks| ==> data[k] == chunks[k].data
  {
    seq(|chunks|, k requires 0 <= k < |chunks| => chunks[k].data)
  }

  lemma {:induction false} BytesAre(chunks: seq<Turn>)
    requires AllChunks(chunks)
    ensures BytesOfChunks(chunks) == Concat(DataOf(chunks))
  {
    if chunks == [] {
    } else {
      assert DataOf(chunks)[1..] == DataOf(chunks[1..]);
      BytesAre(chunks[1..]);
    }
  }

  /** One frame for each chunk read before the relay is over, with its own bytes, and all their bytes. */
  ghost predicate Relayed(id: uint64, d: PacketDirection, c: Connection, turns: seq<Turn>, frames: seq<Frame>,
      written: seq<byte>)
  {
    var chunks := ChunksIn(turns[..EndOf(turns)]);
    && |frames| == |chunks|
    && (forall k :: 0 <= k < |chunks| ==>
          frames[k] == Frame(0x00, id, chunks[k].timestamp, d, c.clientAddr, c.serverAddr, chunks[k].data))
    && written == Concat(DataOf(chunks))
  }

  lemma PassedIsRelayed(id: uint64, d: PacketDirection, c: Connection, turns: seq<Turn>)
    requires AllChunks(Passed(turns))
    ensures Relayed(id, d, c, turns, FramesOfRelay(id, d, c, Passed(turns)), BytesOfChunks(Passed(turns)))
  {
    PassedMeans(turns);
    var chunks := Passed(turns);
    hide Passed, ChunksIn, EndOf;
    BytesAre(chunks);
    if chunks == [] {
    } else {
      FrameAt(id, d, c, chunks, 0);
      forall k | 0 <= k < |chunks|
        ensures FramesOfRelay(id, d, c, chunks)[k]
             == Frame(0x00, id, chunks[k].timestamp, d, c.clientAddr, c.serverAddr, chunks[k].data)
      {
        FrameAt(id, d, c, chunks, k);
      }
    }
  }

  // ---------------------------------------------------------------- as steps

  /** The steps of Proxies a relay takes for the chunks it passes on. */
  function EventsOf(id: uint64, d: PacketDirection, chunks: seq<Turn>): seq<Event>
    requires AllChunks(chunks)
  {
    if chunks == [] then []
    else
      [Act(id, Write(d, chunks[0].data)), Act(id, SendData(d, chunks[0].timestamp))] + EventsOf(id, d, chunks[1..])
  }

  function FramesOfRelay(id: uint64, d: PacketDirection, c: Connection, chunks: seq<Turn>): seq<Frame>
    requires AllChunks(chunks)
  {
    if chunks == [] then []
    else [DataFrame(id, chunks[0].timestamp, d, c, chunks[0].data)] + FramesOfRelay(id, d, c, chunks[1..])
  }

  function BytesOfChunks(chunks: seq<Turn>): seq<byte>
    requires AllChunks(chunks)
  {
    if chunks == [] then [] else chunks[0].data + BytesOfChunks(chunks[1..])
  }

  /** s, after a relay of id wrote some more bytes and sent some more frames. */
  function After(s: State, id: uint64, d: PacketDirection, bytes: seq<byte>, frames: seq<Frame>): State
    requires id in s.connections
  {
    var c := s.connections[id];
    s.(connections := s.connections[id := c.With(d, c.Of(d).(written := c.Of(d).written + bytes))],
       frames := s.frames + frames)
  }

  lemma AfterAfter(s: State, id: uint64, d: PacketDirection, b1: seq<byte>, f1: seq<Frame>, b2: seq<byte>,
      f2: seq<Frame>)
    requires id in s.connections
    ensures After(After(s, id, d, b1, f1), id, d, b2, f2) == After(s, id, d, b1 + b2, f1 + f2)
    ensures After(s, id, d, [], []) == s
  {
    var written := s.connections[id].Of(d).written;
    assert written + b1 + b2 == written + (b1 + b2) && written + [] == written;
    assert s.frames + f1 + f2 == s.frames + (f1 + f2) && s.frames + [] == s.frames;
    assert s.connections[id := s.connections[id]] == s.connections;
  }

  /** Those steps are a run of Proxies, send exactly the frames of the relay and write exactly its bytes. */
  lemma {:induction false} RelayIsRun(s: State, id: uint64, d: PacketDirection, chunks: seq<Turn>)
    requires AllChunks(chunks) && Sized(chunks)
    requires id in s.connections && s.connections[id].phase == Started
    requires s.connections[id].Of(d).running && s.connections[id].Of(d).pending.None?
    ensures Run(s, EventsOf(id, d, chunks)) ==
            Some(After(s, id, d, BytesOfChunks(chunks), FramesOfRelay(id, d, s.connections[id], chunks)))
    decreases |chunks|
  {
    var c := s.connections[id];
    if chunks == [] {
      AfterAfter(s, id, d, [], [], [], []);
    } else {
      var data, later := chunks[0].data, chunks[1..];
      var frame := DataFrame(id, chunks[0].timestamp, d, c, data);
      var s' := After(s, id, d, data, [frame]);
      OneChunk(s, id, d, data, chunks[0].timestamp, EventsOf(id, d, later));
      hide Run;
      RelayIsRun(s', id, d, later);
      OtherAddresses(id, d, c, s'.connections[id], later);
      AfterAfter(s, id, d, data, [frame], BytesOfChunks(later), FramesOfRelay(id, d, c, later));
    }
  }

  lemma OneChunk(s: State, id: uint64, d: PacketDirection, data: seq<byte>, timestamp: int64, later: seq<Event>)
    requires id in s.connections && s.connections[id].phase == Started && |data| <= BUFFER_SIZE
    requires s.connections[id].Of(d).running && s.connections[id].Of(d).pending.None?
    ensures Run(s, [Act(id, Write(d, data)), Act(id, SendData(d, timestamp))] + later) ==
            Run(After(s, id, d, data, [DataFrame(id, timestamp, d, s.connections[id], data)]), later)
  {
    var write, send := Act(id, Write(d, data)), Act(id, SendData(d, timestamp));
    WriteThenSend(s, id, d, data, timestamp);
    RunFirst(s, write, [send] + later);
    RunFirst(Next(s, write), send, later);
    hide Run, Next, Enabled;
    assert [write, send] + later == [write] + ([send] + later);
  }

  lemma RunFirst(s: State, e: Event, later: seq<Event>)
    requires Enabled(s, e)
    ensures Run(s, [e] + later) == Run(Next(s, e), later)
  {
    hide Next, Enabled;
    assert ([e] + later)[1..] == later;
  }

  lemma WriteThenSend(s: State, id: uint64, d: PacketDirection, data: seq<byte>, timestamp: int64)
    requires id in s.connections && s.connections[id].phase == Started && |data| <= BUFFER_SIZE
    requires s.connections[id].Of(d).running && s.connections[id].Of(d).pending.None?
    ensures var write, send := Act(id, Write(d, data)), Act(id, SendData(d, timestamp));
            && Enabled(s, write) && Enabled(Next(s, write), send)
            && Next(Next(s, write), send)
               == After(s, id, d, data, [DataFrame(id, timestamp, d, s.connections[id], data)])
  {
    var c := s.connections[id];
    var mid := Change(c, Write(d, data));
    var end := Change(mid, SendData(d, timestamp));
    assert end == c.With(d, c.Of(d).(written := c.Of(d).written + data));
    assert s.connections[id := mid][id := end] == s.connections[id := end];
    assert s.frames + [] == s.frames;
  }

  lemma {:induction false} OtherAddresses(id: uint64, d: PacketDirection, c: Connection, c': Connection,
      chunks: seq<Turn>)
    requires AllChunks(chunks) && c'.clientAddr == c.clientAddr && c'.serverAddr == c.serverAddr
    ensures FramesOfRelay(id, d, c', chunks) == FramesOfRelay(id, d, c, chunks)
  {
    if chunks == [] {
    } else {
      OtherAddresses(id, d, c, c', chunks[1..]);
    }
  }

  // ---------------------------------------------------------------- the code

  /** Reads into the buffer that all turns share. */
  method Read(buf: array<byte>, data: seq<byte>) returns (n: nat)
    requires |data| <= buf.Length
    modifies buf
    ensures n == |data| && buf[..n] == data
  {
    n := |data|;
    for i := 0 to n
      invariant buf[..i] == data[..i]
    {
      buf[i] := data[i];
    }
  }

  /** The frames sent are those of the chunks passed on, in order, each with the bytes that were read for it although
      the buffer is used again; what was written to the destination is all their bytes. */
  method RelayLoop(id: uint64, direction: PacketDirection, c: Connection, turns: seq<Turn>)
    returns (frames: seq<Frame>, written: seq<byte>)
    requires Sized(turns)
    ensures AllChunks(Passed(turns))
    ensures frames == FramesOfRelay(id, direction, c, Passed(turns))
    ensures written == BytesOfChunks(Passed(turns))
    ensures Relayed(id, direction, c, turns, frames, written)
  {
    PassedChunks(turns);
    PassedIsRelayed(id, direction, c, turns);
    hide Sized, Relayed;
    var buf := new byte[BUFFER_SIZE];
    frames, written := [], [];
    var i := 0;
    NothingYet(id, direction, c, Passed(turns));
    assert turns[0..] == turns;
    while i < |turns|
      invariant 0 <= i <= |turns| && AllChunks(Passed(turns[i..]))
      invariant frames + FramesOfRelay(id, direction, c, Passed(turns[i..]))
             == FramesOfRelay(id, direction, c, Passed(turns))
      invariant written + BytesOfChunks(Passed(turns[i..])) == BytesOfChunks(Passed(turns))
    {
      ghost var left, later := turns[i..], turns[i + 1..];
      assert left[0] == turns[i] && left[1..] == later;
      match turns[i] {
        case Cancelled => return;
        case ReadTimeout =>
        case ReadError => return;
        case Chunk(data, writes, timestamp) =>
          assert |data| <= BUFFER_SIZE by { SizedAt(turns, i); }
          var n := Read(buf, data);
          if !writes {
            return;
          }
          FirstChunk(id, direction, c, turns[i], Passed(later), frames, written);
          written := written + buf[..n];
          var rawData := buf[..n];
          frames := frames + [DataFrame(id, timestamp, direction, c, rawData)];
      }
      i := i + 1;
    }
    NothingYet(id, direction, c, []);
  }

  lemma SizedAt(turns: seq<Turn>, i: nat)
    requires Sized(turns) && i < |turns| && turns[i].Chunk?
    ensures |turns[i].data| <= BUFFER_SIZE
  {
    assert turns[i] in turns;
  }

  lemma NothingYet(id: uint64, d: PacketDirection, c: Connection, chunks: seq<Turn>)
    requires AllChunks(chunks)
    ensures [] + FramesOfRelay(id, d, c, chunks) == FramesOfRelay(id, d, c, chunks)
    ensures [] + BytesOfChunks(chunks) == BytesOfChunks(chunks)
  {
  }

  lemma FirstChunk(
    id: uint64, d: PacketDirection, c: Connection, t: Turn, later: seq<Turn>, frames: seq<Frame>, written: seq<byte>)
    requires t.Chunk? && AllChunks(later) && AllChunks([t] + later)
    ensures frames + FramesOfRelay(id, d, c, [t] + later) ==
            frames + [DataFrame(id, t.timestamp, d, c, t.data)] + FramesOfRelay(id, d, c, later)
    ensures written + BytesOfChunks([t] + later) == written + t.data + BytesOfChunks(later)
  {
    assert ([t] + later)[1..] == later;
  }
}
