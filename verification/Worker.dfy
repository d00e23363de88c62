/** The worker of one connection (internal/analyzer/worker.go): two buffers, fed chunk by chunk. */
module Workers {
  import opened Bytes
  import opened Packets
  import opened Parser

  // ---------------------------------------------------------------- what a worker computes

  /** Which workerLoop is at work. When the first panics, it starts a second one and calls Done on the WaitGroup, to
      which Start added one. When the second panics as well, Done makes the counter negative, outside of any recovery,
      and the process crashes. Endless is the loop over a packet of size zero. */
  datatype Life = FirstLoop | SecondLoop | Crash | Endless {
    predicate Active() { FirstLoop? || SecondLoop? }
  }

  /** The two stream buffers, the packets handed to deserializers so far, and the loop at work. */
  datatype WorkerState = WorkerState(client: seq<byte>, server: seq<byte>, emitted: seq<ParsedPacket>, life: Life) {
    function Buffer(direction: PacketDirection): seq<byte> {
      if direction == ClientToServer then client else server
    }
  }

  const FRESH := WorkerState([], [], [], FirstLoop)

  /** processChunk. A panic loses the packets of the call that met it and, with the loop, both buffers. */
  function Process(db: PacketDatabase, w: WorkerState, chunk: RawChunk): WorkerState {
    if !w.life.Active() then w
    else
      var run := Parse(db, chunk.direction, w.Buffer(chunk.direction) + chunk.data);
      match run.stop
      case Waiting =>
        if chunk.direction == ClientToServer then w.(client := run.rest, emitted := w.emitted + PacketsOf(run.steps))
        else w.(server := run.rest, emitted := w.emitted + PacketsOf(run.steps))
      case Panicked => if w.life == FirstLoop then WorkerState([], [], w.emitted, SecondLoop) else w.(life := Crash)
      case Spinning => w.(life := Endless)
  }

  function ProcessAll(db: PacketDatabase, w: WorkerState, chunks: seq<RawChunk>): WorkerState
    decreases |chunks|
  {
    if chunks == [] then w else ProcessAll(db, Process(db, w, chunks[0]), chunks[1..])
  }

  lemma {:induction false} ProcessAllAppend(db: PacketDatabase, w: WorkerState, a: seq<RawChunk>, b: seq<RawChunk>)
    ensures ProcessAll(db, w, a + b) == ProcessAll(db, ProcessAll(db, w, a), b)
    decreases |a|
  {
    if a == [] {
      assert a + b == b;
    } else {
      assert (a + b)[1..] == a[1..] + b;
      ProcessAllAppend(db, Process(db, w, a[0]), a[1..], b);
    }
  }

  /** The bytes of the chunks of one direction, chunk by chunk. */
  function DataOf(chunks: seq<RawChunk>, direction: PacketDirection): seq<seq<byte>> {
    if chunks == [] then []
    else (if chunks[0].direction == direction then [chunks[0].data] else []) + DataOf(chunks[1..], direction)
  }

  lemma {:induction false} DataOfAppend(a: seq<RawChunk>, b: seq<RawChunk>, direction: PacketDirection)
    ensures DataOf(a + b, direction) == DataOf(a, direction) + DataOf(b, direction)
  {
    if a == [] {
      assert a + b == b;
    } else {
      assert (a + b)[0] == a[0] && (a + b)[1..] == a[1..] + b;
      DataOfAppend(a[1..], b, direction);
      var head := if a[0].direction == direction then [a[0].data] else [];
      Associative(head, DataOf(a[1..], direction), DataOf(b, direction));
    }
  }

  function Of(packets: seq<ParsedPacket>, direction: PacketDirection): seq<ParsedPacket> {
    if packets == [] then []
    else (if packets[0].direction == direction then [packets[0]] else []) + Of(packets[1..], direction)
  }

  lemma {:induction false} OfAppend(a: seq<ParsedPacket>, b: seq<ParsedPacket>, direction: PacketDirection)
    ensures Of(a + b, direction) == Of(a, direction) + Of(b, direction)
  {
    if a == [] {
      assert a + b == b;
    } else {
      assert (a + b)[0] == a[0] && (a + b)[1..] == a[1..] + b;
      OfAppend(a[1..], b, direction);
      var head := if a[0].direction == direction then [a[0]] else [];
      Associative(head, Of(a[1..], direction), Of(b, direction));
    }
  }

  lemma {:induction false} OfParsed(table: PacketTable, from: PacketDirection, steps: seq<Step>,
      direction: PacketDirection)
    requires forall step <- steps :: FaithfulStep(table, from, step)
    ensures Of(PacketsOf(steps), direction) == if direction == from then PacketsOf(steps) else []
  {
    if steps == [] {
    } else {
      OfParsed(table, from, steps[1..], direction);
      var head := if steps[0].Parsed? then [steps[0].packet] else [];
      assert FaithfulStep(table, from, steps[0]);
      OfAppend(head, PacketsOf(steps[1..]), direction);
    }
  }

  // ---------------------------------------------------------------- both streams, untangled

  lemma FirstChunk(db: PacketDatabase, w: WorkerState, chunk: RawChunk, direction: PacketDirection)
    requires w.life.Active()
    ensures var w' := Process(db, w, chunk);
            var run := Parse(db, chunk.direction, w.Buffer(chunk.direction) + chunk.data);
            && (w'.life == w.life <==> run.stop == Waiting)
            && (run.stop == Waiting && direction != chunk.direction ==>
                  w'.Buffer(direction) == w.Buffer(direction) && Of(w'.emitted, direction) == Of(w.emitted, direction))
            && (run.stop == Waiting && direction == chunk.direction ==>
                  && w'.Buffer(direction) == run.rest
                  && Of(w'.emitted, direction) == Of(w.emitted, direction) + PacketsOf(run.steps))
  {
    var run := Parse(db, chunk.direction, w.Buffer(chunk.direction) + chunk.data);
    Faithful(db, chunk.direction, w.Buffer(chunk.direction) + chunk.data);
    OfParsed(db.Table(chunk.direction), chunk.direction, run.steps, direction);
    OfAppend(w.emitted, PacketsOf(run.steps), direction);
    hide Parse;
  }

  function Age(life: Life): nat {
    match life
    case FirstLoop => 0
    case SecondLoop => 1
    case _ => 2
  }

  /** A loop that has ended does not come back. */
  lemma {:induction false} Ages(db: PacketDatabase, w: WorkerState, chunks: seq<RawChunk>)
    ensures Age(ProcessAll(db, w, chunks).life) >= Age(w.life)
    ensures !w.life.Active() ==> ProcessAll(db, w, chunks) == w
    decreases |chunks|
  {
    if chunks == [] {
    } else {
      hide Parse;
      Ages(db, Process(db, w, chunks[0]), chunks[1..]);
    }
  }

  lemma ChangeAges(db: PacketDatabase, w: WorkerState, chunk: RawChunk)
    ensures Process(db, w, chunk).life != w.life ==> Age(Process(db, w, chunk).life) > Age(w.life)
  {
    hide Parse;
  }

  /** If the life does not change over the chunks, it does not change with the first of them. */
  lemma StaysFirst(db: PacketDatabase, w: WorkerState, chunks: seq<RawChunk>)
    requires chunks != []
    ensures ProcessAll(db, w, chunks).life == w.life ==> Process(db, w, chunks[0]).life == w.life
  {
    hide Process;
    ChangeAges(db, w, chunks[0]);
    Ages(db, Process(db, w, chunks[0]), chunks[1..]);
  }

  lemma {:induction false} OneDirection(db: PacketDatabase, w: WorkerState, chunks: seq<RawChunk>, d: PacketDirection)
    requires w.life.Active() && ProcessAll(db, w, chunks).life == w.life
    ensures var w' := ProcessAll(db, w, chunks);
            var fed := Feed(db, d, w.Buffer(d), DataOf(chunks, d));
            && fed.stop == Waiting && w'.Buffer(d) == fed.rest
            && Of(w'.emitted, d) == Of(w.emitted, d) + PacketsOf(fed.steps)
    decreases |chunks|
  {
    if chunks == [] {
    } else {
      hide Parse, Feed, DataOf, Of, PacketsOf, Process, WorkerState.Buffer;
      var chunk, next := chunks[0], Process(db, w, chunks[0]);
      StaysFirst(db, w, chunks);
      FirstChunk(db, w, chunk, d);
      UnfoldFeed(db, w, chunks, d);
      OneDirection(db, next, chunks[1..], d);
      var run := Parse(db, chunk.direction, w.Buffer(chunk.direction) + chunk.data);
      var later := Feed(db, d, next.Buffer(d), DataOf(chunks[1..], d));
      PacketsOfAppend(run.steps, later.steps);
      Associative(Of(w.emitted, d), PacketsOf(run.steps), PacketsOf(later.steps));
    }
  }

  lemma Associative<T>(a: seq<T>, b: seq<T>, c: seq<T>)
    ensures a + b + c == a + (b + c)
  {
  }

  lemma {:induction false} BadDirection(db: PacketDatabase, w: WorkerState, chunks: seq<RawChunk>)
    requires w.life.Active() && ProcessAll(db, w, chunks).life != w.life
    ensures exists d :: Feed(db, d, w.Buffer(d), DataOf(chunks, d)).stop != Waiting
    decreases |chunks|
  {
    hide Parse, Feed, DataOf, Of, PacketsOf, Process;
    if chunks == [] {
      assert false;
    } else {
      var chunk, next := chunks[0], Process(db, w, chunks[0]);
      FirstChunk(db, w, chunk, ClientToServer);
      FirstChunk(db, w, chunk, ServerToClient);
      UnfoldFeed(db, w, chunks, ClientToServer);
      UnfoldFeed(db, w, chunks, ServerToClient);
      if next.life == w.life {
        BadDirection(db, next, chunks[1..]);
        var d :| Feed(db, d, next.Buffer(d), DataOf(chunks[1..], d)).stop != Waiting;
        assert Feed(db, d, w.Buffer(d), DataOf(chunks, d)).stop != Waiting;
      } else {
        assert Feed(db, chunk.direction, w.Buffer(chunk.direction), DataOf(chunks, chunk.direction)).stop != Waiting;
      }
    }
  }

  /** However the chunks of the two directions interleave, each direction is parsed as if it were alone; the loop goes
      on exactly as long as both directions do. */
  lemma DirectionsIndependent(db: PacketDatabase, w: WorkerState, chunks: seq<RawChunk>)
    requires w.life.Active()
    ensures ProcessAll(db, w, chunks).life == w.life
       <==> forall d :: Feed(db, d, w.Buffer(d), DataOf(chunks, d)).stop == Waiting
    ensures var w' := ProcessAll(db, w, chunks);
            w'.life == w.life ==> forall d ::
              var fed := Feed(db, d, w.Buffer(d), DataOf(chunks, d));
              w'.Buffer(d) == fed.rest && Of(w'.emitted, d) == Of(w.emitted, d) + PacketsOf(fed.steps)
  {
    if ProcessAll(db, w, chunks).life == w.life {
      forall d {
        OneDirection(db, w, chunks, d);
      }
    } else {
      BadDirection(db, w, chunks);
    }
  }

  ghost predicate FeedFirst(db: PacketDatabase, w: WorkerState, chunks: seq<RawChunk>, d: PacketDirection, run: Run)
    requires chunks != []
  {
    var fed := Feed(db, d, w.Buffer(d), DataOf(chunks, d));
    var later := DataOf(chunks[1..], d);
    if d != chunks[0].direction then fed == Feed(db, d, w.Buffer(d), later)
    else if run.stop != Waiting then fed.stop == run.stop
    else fed == Feed(db, d, run.rest, later).After(run.steps)
  }

  lemma UnfoldFeed(db: PacketDatabase, w: WorkerState, chunks: seq<RawChunk>, d: PacketDirection)
    requires chunks != []
    ensures FeedFirst(db, w, chunks, d, Parse(db, chunks[0].direction, w.Buffer(chunks[0].direction) + chunks[0].data))
  {
    hide Parse;
    var data := DataOf(chunks, d);
    if d == chunks[0].direction {
      assert data[0] == chunks[0].data && data[1..] == DataOf(chunks[1..], d);
    } else {
      assert data == DataOf(chunks[1..], d);
    }
  }

  /** The packets of the server are those of one parse of all its bytes, however they were cut and interleaved. */
  lemma ServerPackets(db: PacketDatabase, chunks: seq<RawChunk>)
    requires ProcessAll(db, FRESH, chunks).life == FirstLoop
    ensures Of(ProcessAll(db, FRESH, chunks).emitted, ServerToClient)
         == PacketsOf(Parse(db, ServerToClient, Concat(DataOf(chunks, ServerToClient))).steps)
  {
    hide Parse, Feed, DataOf, PacketsOf, Process, ProcessAll, Concat;
    DirectionsIndependent(db, FRESH, chunks);
    var data := DataOf(chunks, ServerToClient);
    assert FRESH.Buffer(ServerToClient) == [] && [] + Concat(data) == Concat(data);
    ServerChunkIndependence(db, [], data);
  }

  /** A worker with safe tables stays in its first loop for ever. */
  lemma {:induction false} SafeWorker(db: PacketDatabase, w: WorkerState, chunks: seq<RawChunk>)
    requires SafeTable(db.receive) && SafeTable(db.send) && w.life == FirstLoop
    ensures ProcessAll(db, w, chunks).life == FirstLoop
    decreases |chunks|
  {
    if chunks == [] {
    } else {
      SafeParse(db, chunks[0].direction, w.Buffer(chunks[0].direction) + chunks[0].data);
      hide Parse, SafeTable;
      SafeWorker(db, Process(db, w, chunks[0]), chunks[1..]);
    }
  }

  // ---------------------------------------------------------------- a restart

  /** The chunks before the first that ends the loop. */
  lemma {:induction false} UntilBad(db: PacketDatabase, w: WorkerState, chunks: seq<RawChunk>) returns (j: nat)
    requires w.life.Active()
    ensures j <= |chunks| && ProcessAll(db, w, chunks[..j]).life == w.life
    ensures j < |chunks| ==> ProcessAll(db, w, chunks[..j + 1]).life != w.life
    decreases |chunks|
  {
    j := 0;
    if chunks == [] {
    } else {
      hide Process;
      var next := Process(db, w, chunks[0]);
      OneChunk(db, w, chunks[0]);
      assert chunks[..1] == [chunks[0]];
      if next.life == w.life {
        var later := UntilBad(db, next, chunks[1..]);
        j := later + 1;
        assert chunks[..j][0] == chunks[0] && chunks[..j][1..] == chunks[1..][..later];
        if j < |chunks| {
          assert chunks[..j + 1][0] == chunks[0] && chunks[..j + 1][1..] == chunks[1..][..later + 1];
        }
      }
    }
  }

  lemma OneChunk(db: PacketDatabase, w: WorkerState, chunk: RawChunk)
    ensures ProcessAll(db, w, [chunk]) == Process(db, w, chunk)
  {
    hide Process;
    assert [chunk][1..] == [];
    assert ProcessAll(db, w, [chunk]) == ProcessAll(db, Process(db, w, chunk), []);
  }

  /** A second loop does with its chunks what a first one does, behind what was emitted before. */
  ghost predicate Alike(w: WorkerState, v: WorkerState, earlier: seq<ParsedPacket>) {
    && w.life == FirstLoop && v.life == SecondLoop
    && v.client == w.client && v.server == w.server && v.emitted == earlier + w.emitted
  }

  lemma AlikeNext(db: PacketDatabase, w: WorkerState, v: WorkerState, earlier: seq<ParsedPacket>, chunk: RawChunk)
    requires Alike(w, v, earlier)
    ensures var w', v' := Process(db, w, chunk), Process(db, v, chunk);
            match w'.life
            case FirstLoop => Alike(w', v', earlier)
            case SecondLoop => v' == v.(life := Crash)
            case Crash => false
            case Endless => v' == v.(life := Endless)
  {
    hide Parse;
    var run := Parse(db, chunk.direction, w.Buffer(chunk.direction) + chunk.data);
    Associative(earlier, w.emitted, PacketsOf(run.steps));
  }

  lemma {:induction false} AlikeAll(
    db: PacketDatabase, w: WorkerState, v: WorkerState, earlier: seq<ParsedPacket>, chunks: seq<RawChunk>)
    requires Alike(w, v, earlier) && ProcessAll(db, w, chunks).life == FirstLoop
    ensures Alike(ProcessAll(db, w, chunks), ProcessAll(db, v, chunks), earlier)
    decreases |chunks|
  {
    if chunks == [] {
    } else {
      hide Process, Alike;
      AlikeFirst(w, v, earlier);
      StaysFirst(db, w, chunks);
      AlikeNext(db, w, v, earlier, chunks[0]);
      AlikeAll(db, Process(db, w, chunks[0]), Process(db, v, chunks[0]), earlier, chunks[1..]);
    }
  }

  lemma AlikeFirst(w: WorkerState, v: WorkerState, earlier: seq<ParsedPacket>)
    requires Alike(w, v, earlier)
    ensures w.life == FirstLoop
  {
  }

  /** The chunks fall into a stretch of j chunks for the first loop, one that ends it, and m for the second loop if
      there is one, with possibly one that ends that. */
  ghost predicate Stretches(db: PacketDatabase, chunks: seq<RawChunk>, j: nat, m: nat) {
    && j <= |chunks| && ProcessAll(db, FRESH, chunks[..j]).life == FirstLoop
    && if j == |chunks| then m == 0
       else
         var later := chunks[j + 1..];
         && m <= |later| && ProcessAll(db, FRESH, later[..m]).life == FirstLoop
         && ProcessAll(db, FRESH, chunks[..j + 1]).life != FirstLoop
         && (ProcessAll(db, FRESH, chunks[..j + 1]).life == Endless ==> m == 0)
         && (ProcessAll(db, FRESH, chunks[..j + 1]).life == SecondLoop && m < |later| ==>
               ProcessAll(db, FRESH, later[..m + 1]).life != FirstLoop)
  }

  /** The life a worker has led after the chunks. */
  ghost function LifeAfter(db: PacketDatabase, chunks: seq<RawChunk>, j: nat, m: nat): Life
    requires Stretches(db, chunks, j, m)
  {
    if j == |chunks| then FirstLoop
    else if ProcessAll(db, FRESH, chunks[..j + 1]).life == Endless then Endless
    else if m == |chunks| - j - 1 then SecondLoop
    else if ProcessAll(db, FRESH, chunks[j + 1..][..m + 1]).life == Endless then Endless
    else Crash
  }

  /** What a fresh worker emits in the stretches. */
  ghost function EmittedIn(db: PacketDatabase, chunks: seq<RawChunk>, j: nat, m: nat): seq<ParsedPacket>
    requires Stretches(db, chunks, j, m)
  {
    ProcessAll(db, FRESH, chunks[..j]).emitted +
    if j == |chunks| then [] else ProcessAll(db, FRESH, chunks[j + 1..][..m]).emitted
  }

  lemma LastChunk(db: PacketDatabase, w: WorkerState, chunks: seq<RawChunk>, j: nat)
    requires j < |chunks|
    ensures var before := ProcessAll(db, w, chunks[..j]);
            && ProcessAll(db, w, chunks[..j + 1]) == Process(db, before, chunks[j])
            && ProcessAll(db, w, chunks) == ProcessAll(db, Process(db, before, chunks[j]), chunks[j + 1..])
  {
    hide Process;
    var before := ProcessAll(db, w, chunks[..j]);
    assert chunks[..j + 1] == chunks[..j] + [chunks[j]];
    ProcessAllAppend(db, w, chunks[..j], [chunks[j]]);
    OneChunk(db, before, chunks[j]);
    assert chunks == chunks[..j + 1] + chunks[j + 1..];
    ProcessAllAppend(db, w, chunks[..j + 1], chunks[j + 1..]);
  }

  /** The first loop ends: what comes after it. */
  lemma FirstEnds(db: PacketDatabase, w: WorkerState, chunk: RawChunk)
    requires w.life == FirstLoop && Process(db, w, chunk).life != FirstLoop
    ensures var next := Process(db, w, chunk);
            && next.emitted == w.emitted
            && (next.life == SecondLoop || next.life == Endless)
            && (next.life == SecondLoop ==> Alike(FRESH, next, w.emitted))
  {
    hide Parse;
    assert w.emitted + [] == w.emitted;
  }

  /** Every life: what was emitted is what fresh workers emit in the stretches between the chunks that ended a loop. */
  lemma Lifetime(db: PacketDatabase, chunks: seq<RawChunk>) returns (j: nat, m: nat)
    ensures Stretches(db, chunks, j, m)
    ensures var w := ProcessAll(db, FRESH, chunks);
            w.emitted == EmittedIn(db, chunks, j, m) && w.life == LifeAfter(db, chunks, j, m)
  {
    hide Process;
    m := 0;
    j := UntilBad(db, FRESH, chunks);
    var before := ProcessAll(db, FRESH, chunks[..j]);
    if j == |chunks| {
      assert chunks[..j] == chunks && before.emitted + [] == before.emitted;
    } else {
      LastChunk(db, FRESH, chunks, j);
      FirstEnds(db, before, chunks[j]);
      var next, later := Process(db, before, chunks[j]), chunks[j + 1..];
      assert later[..0] == [];
      if next.life == Endless {
        Ages(db, next, later);
        assert before.emitted + [] == before.emitted;
      } else {
        m := UntilBad(db, FRESH, later);
        SecondLife(db, next, before.emitted, later, m);
      }
    }
  }

  lemma SecondLife(db: PacketDatabase, v: WorkerState, earlier: seq<ParsedPacket>, later: seq<RawChunk>, m: nat)
    requires Alike(FRESH, v, earlier)
    requires m <= |later| && ProcessAll(db, FRESH, later[..m]).life == FirstLoop
    requires m < |later| ==> ProcessAll(db, FRESH, later[..m + 1]).life != FirstLoop
    ensures var w := ProcessAll(db, v, later);
            && w.emitted == earlier + ProcessAll(db, FRESH, later[..m]).emitted
            && w.life == if m == |later| then SecondLoop
                         else if ProcessAll(db, FRESH, later[..m + 1]).life == Endless then Endless else Crash
  {
    hide Process;
    AlikeAll(db, FRESH, v, earlier, later[..m]);
    var w, v' := ProcessAll(db, FRESH, later[..m]), ProcessAll(db, v, later[..m]);
    if m == |later| {
      assert later[..m] == later;
    } else {
      LastChunk(db, FRESH, later, m);
      LastChunk(db, v, later, m);
      AlikeNext(db, w, v', earlier, later[m]);
      Ages(db, Process(db, v', later[m]), later[m + 1..]);
    }
  }

  /** Loop by loop, the packets of the server are those of one parse of the bytes of each stretch. */
  lemma ServerLifetime(db: PacketDatabase, chunks: seq<RawChunk>) returns (j: nat, m: nat)
    ensures Stretches(db, chunks, j, m) && ProcessAll(db, FRESH, chunks).life == LifeAfter(db, chunks, j, m)
    ensures Of(ProcessAll(db, FRESH, chunks).emitted, ServerToClient) ==
              PacketsOf(Parse(db, ServerToClient, Concat(DataOf(chunks[..j], ServerToClient))).steps) +
              if j == |chunks| then []
              else PacketsOf(Parse(db, ServerToClient, Concat(DataOf(chunks[j + 1..][..m], ServerToClient))).steps)
  {
    hide Parse, ProcessAll, DataOf, PacketsOf, Concat, Of;
    j, m := Lifetime(db, chunks);
    ServerPackets(db, chunks[..j]);
    if j < |chunks| {
      ServerPackets(db, chunks[j + 1..][..m]);
      OfAppend(ProcessAll(db, FRESH, chunks[..j]).emitted, ProcessAll(db, FRESH, chunks[j + 1..][..m]).emitted,
               ServerToClient);
    } else {
      var first := ProcessAll(db, FRESH, chunks[..j]).emitted;
      assert first + [] == first;
    }
  }

  lemma DataSplit(a: seq<RawChunk>, b: seq<RawChunk>, d: PacketDirection)
    ensures Concat(DataOf(a + b, d)) == Concat(DataOf(a, d)) + Concat(DataOf(b, d))
  {
    hide DataOf, Concat;
    DataOfAppend(a, b, d);
    ConcatAppend(DataOf(a, d), DataOf(b, d));
  }

  /** The packets of the first j chunks are the first of those of one parse of all bytes. */
  lemma ServerPrefix(db: PacketDatabase, chunks: seq<RawChunk>, j: nat)
    requires j <= |chunks|
    ensures PacketsOf(Parse(db, ServerToClient, Concat(DataOf(chunks[..j], ServerToClient))).steps)
         <= PacketsOf(Parse(db, ServerToClient, Concat(DataOf(chunks, ServerToClient))).steps)
  {
    hide Parse, DataOf, PacketsOf, Concat;
    assert chunks == chunks[..j] + chunks[j..];
    DataSplit(chunks[..j], chunks[j..], ServerToClient);
    ServerMore(db, Concat(DataOf(chunks[..j], ServerToClient)), Concat(DataOf(chunks[j..], ServerToClient)));
  }

  /** The entries of the packets Identify List and Identify from the server
      (internal/packets/receive/receive_packets.go); the first has no size. */
  const IDENTIFY_LIST := 0x0177
  const IDENTIFY := 0x0179

  /** A packet is found after a panic that no parse of all the bytes finds, and the process will crash. */
  lemma FoundAfterPanic(db: PacketDatabase, id: uint64, timestamp: int64)
    requires IDENTIFY_LIST in db.receive && db.receive[IDENTIFY_LIST] == PacketSpec(-1, FIXED)
    requires IDENTIFY in db.receive && db.receive[IDENTIFY] == PacketSpec(5, FIXED)
    ensures var chunks := [RawChunk(id, timestamp, ServerToClient, [0x77, 1]),
                           RawChunk(id, timestamp, ServerToClient, [0x79, 1, 0, 0, 0])];
            && ProcessAll(db, FRESH, chunks).life == SecondLoop
            && |ProcessAll(db, FRESH, chunks).emitted| == 1
            && PacketsOf(Parse(db, ServerToClient, Concat(DataOf(chunks, ServerToClient))).steps) == []
  {
    var bad, good: seq<byte> := [0x77, 1], [0x79, 1, 0, 0, 0];
    var a, b := RawChunk(id, timestamp, ServerToClient, bad), RawChunk(id, timestamp, ServerToClient, good);
    IdentifyParses(db, bad, good);
    hide Parse, PacketsOf, DataOf;
    assert [] + bad == bad && [] + good == good && [a, b][1..] == [b];
    assert Process(db, FRESH, a) == WorkerState([], [], [], SecondLoop);
    OneChunk(db, Process(db, FRESH, a), b);
    DataOfTwo(a, b);
    BadStopStable(db, ServerToClient, bad, good);
    NoPackets();
  }

  lemma DataOfTwo(a: RawChunk, b: RawChunk)
    requires a.direction == b.direction == ServerToClient
    ensures Concat(DataOf([a, b], ServerToClient)) == a.data + b.data
  {
    assert [a, b][1..] == [b] && [b][1..] == [];
    assert DataOf([b], ServerToClient) == [b.data] && DataOf([a, b], ServerToClient) == [a.data, b.data];
    assert [a.data, b.data][1..] == [b.data] && [b.data][1..] == [] && b.data + [] == b.data;
    assert Concat([b.data]) == b.data && Concat([a.data, b.data]) == a.data + Concat([b.data]);
  }

  lemma IdentifyParses(db: PacketDatabase, bad: seq<byte>, good: seq<byte>)
    requires IDENTIFY_LIST in db.receive && db.receive[IDENTIFY_LIST] == PacketSpec(-1, FIXED)
    requires IDENTIFY in db.receive && db.receive[IDENTIFY] == PacketSpec(5, FIXED)
    requires bad == [0x77, 1] && good == [0x79, 1, 0, 0, 0]
    ensures Parse(db, ServerToClient, bad) == Run([], bad, Panicked)
    ensures var run := Parse(db, ServerToClient, good); run.stop == Waiting && |PacketsOf(run.steps)| == 1
  {
    assert Uint16(bad, 0) == IDENTIFY_LIST && Uint16(good, 0) == IDENTIFY;
    ParseFirst(db, ServerToClient, good);
    var (step, rest) := Consume(db, ServerToClient, good);
    assert rest == [];
    ShortWaits(db, ServerToClient, rest);
    hide Parse, PacketsOf;
    assert [step] + [] == [step];
    PacketsOfFirst(step, []);
    NoPackets();
  }

  // ---------------------------------------------------------------- the code

  /** bytes.Buffer. */
  class Buffer {
    var data: seq<byte>

    constructor ()
      ensures data == []
    {
      data := [];
    }

    method Write(p: seq<byte>)
      modifies this
      ensures data == old(data) + p
    {
      data := data + p;
    }

    /** Next, and Read into a slice of n bytes: what is there, up to n bytes. */
    method Next(n: nat) returns (p: seq<byte>)
      modifies this
      ensures p == old(data)[..if n <= |old(data)| then n else |old(data)|]
      ensures data == old(data)[|p|..]
    {
      var m := if n <= |data| then n else |data|;
      p, data := data[..m], data[m..];
    }
  }

  /** What tryParsePackets gives its caller: its packets, unless it never returns them. */
  datatype Outcome = Returned(packets: seq<ParsedPacket>) | NoReturn(stop: Stop)

  class Worker {
    const db: PacketDatabase

    constructor (db: PacketDatabase)
      ensures this.db == db
    {
      this.db := db;
    }

    /** Returns what Parse says, and leaves in the buffer what Parse leaves. */
    method TryParsePackets(buffer: Buffer, direction: PacketDirection) returns (outcome: Outcome)
      modifies buffer
      ensures var run := Parse(db, direction, old(buffer.data));
              && buffer.data == run.rest
              && outcome == if run.stop == Waiting then Returned(PacketsOf(run.steps)) else NoReturn(run.stop)
    {
      hide Parse, PacketsOf, ChecksumSize, MakePacket, HttpPacketSize;
      var result: seq<ParsedPacket> := [];
      ghost var steps: seq<Step> := [];
      Nothing(db, direction, buffer.data);
      while true
        invariant Parse(db, direction, old(buffer.data)) == Parse(db, direction, buffer.data).After(steps)
        invariant result == PacketsOf(steps)
        decreases |buffer.data|
      {
        var bufData := buffer.data;
        ghost var decision := Decide(db.Table(direction), bufData);
        if |buffer.data| < 2 {
          Stops(db, direction, bufData, steps);
          return Returned(result);
        }
        var opcode := Uint16(bufData, 0);
        var table := db.Table(direction);
        if opcode !in table {
          Skips(db, direction, bufData, steps);
          var _ := buffer.Next(1);
          steps := steps + [Skipped(bufData[0])];
          continue;
        }
        var spec := table[opcode];
        var packetSize, valid := 0, false;
        match spec.sizeType {
          case FIXED =>
            packetSize := spec.size;
            valid := |buffer.data| >= packetSize;
          case FIXED_MIN =>
            packetSize := spec.size;
            valid := |buffer.data| >= packetSize;
          case INDICATED_IN_PACKET =>
            if |buffer.data| >= 4 {
              packetSize := Uint16(bufData, 2);
              if packetSize < 2 || packetSize > 10 * 1024 * 1024 {
                packetSize := 2;
              }
              valid := |buffer.data| >= packetSize;
            }
          case HTTP =>
            var headerEnd := HttpPacketSize(bufData);
            if headerEnd.Some? {
              packetSize, valid := headerEnd.value, true;
            }
          case UNKNOWN =>
            Skips(db, direction, bufData, steps);
            var _ := buffer.Next(1);
            steps := steps + [Skipped(bufData[0])];
            continue;
        }
        assert decision == if !valid then Wait else if packetSize < 0 then Panic
                           else if packetSize == 0 then Spin else Take(packetSize);
        if !valid {
          Stops(db, direction, bufData, steps);
          return Returned(result);
        }
        if packetSize < 0 {
          Stops(db, direction, bufData, steps);
          return NoReturn(Panicked);
        }
        if packetSize == 0 {
          Stops(db, direction, bufData, steps);
          return NoReturn(Spinning);
        }
        Takes(db, direction, bufData, steps);
        hide Decide;
        var packetData := buffer.Next(packetSize);
        var checksum := ReadChecksum(buffer, direction);
        var packet := MakePacket(direction, opcode, spec, packetData, checksum);
        result := result + [packet];
        steps := steps + [Parsed(packetData, packet)];
      }
    }

    /** The guess for the byte behind a packet: a checksum, or the start of the next one. */
    method ReadChecksum(buffer: Buffer, direction: PacketDirection) returns (checksum: Option<byte>)
      modifies buffer
      ensures var n := ChecksumSize(db, direction, old(buffer.data));
              && buffer.data == old(buffer.data)[n..]
              && checksum == if n == 1 then Some(old(buffer.data)[0]) else None
      ensures var tail := old(buffer.data);
              if direction == ClientToServer && LooksLikeChecksum(db.send, tail)
              then checksum == Some(tail[0]) && buffer.data == tail[1..]
              else checksum == None && buffer.data == tail
    {
      checksum := None;
      if direction == ClientToServer && |buffer.data| > 0 {
        var remainingBytes := buffer.data;
        if |remainingBytes| == 1 {
          var extraByte := buffer.Next(1);
          checksum := Some(extraByte[0]);
        } else {
          var nextOpcode := Uint16(remainingBytes, 0);
          if nextOpcode in db.send {
            checksum := None;
          } else if |remainingBytes| >= 3 {
            var nextOpcodeAfterByte := Uint16(remainingBytes, 1);
            if nextOpcodeAfterByte in db.send {
              var extraByte := buffer.Next(1);
              checksum := Some(extraByte[0]);
            }
          }
        }
      }
    }

    method ProcessChunk(chunk: RawChunk, clientBuffer: Buffer, serverBuffer: Buffer) returns (outcome: Outcome)
      requires clientBuffer != serverBuffer
      modifies clientBuffer, serverBuffer
      ensures forall before: WorkerState ::
                && before.life.Active() && before.client == old(clientBuffer.data)
                && before.server == old(serverBuffer.data) ==>
                  var after := Process(db, before, chunk);
                  match outcome
                  case Returned(packets) =>
                    after == WorkerState(clientBuffer.data, serverBuffer.data, before.emitted + packets, before.life)
                  case NoReturn(stop) =>
                    && stop != Waiting
                    && after == if stop == Spinning then before.(life := Endless)
                                else if before.life == FirstLoop then WorkerState([], [], before.emitted, SecondLoop)
                                else before.(life := Crash)
    {
      if chunk.direction == ClientToServer {
        clientBuffer.Write(chunk.data);
        outcome := TryParsePackets(clientBuffer, chunk.direction);
      } else {
        serverBuffer.Write(chunk.data);
        outcome := TryParsePackets(serverBuffer, chunk.direction);
      }
      hide Parse;
    }

    /** workerLoop and drainRemainingPackets, on the chunks they receive before the channel is closed and empty: each
        chunk is parsed in turn, and what is emitted is ProcessAll of the chunks. A panic starts the loop again with
        empty buffers, and every loop that ends calls Done: the process survives and the worker comes to its end exactly
        when both directions parse without a panic or an endless loop. */
    method ConsumeChunks(chunks: seq<RawChunk>) returns (emitted: seq<ParsedPacket>, life: Life, crashed: bool)
      ensures var w := ProcessAll(db, FRESH, chunks); emitted == w.emitted && life == w.life
      ensures crashed <==> life == SecondLoop || life == Crash
      ensures !crashed && life != Endless <==> forall d :: Feed(db, d, [], DataOf(chunks, d)).stop == Waiting
      ensures life == FirstLoop ==>
                Of(emitted, ServerToClient)
                == PacketsOf(Parse(db, ServerToClient, Concat(DataOf(chunks, ServerToClient))).steps)
    {
      hide Process, Feed, DataOf, Of;
      WhenItEnds(db, chunks);
      var clientBuffer := new Buffer();
      var serverBuffer := new Buffer();
      emitted, life := [], FirstLoop;
      var waitGroup := 1;
      var i := 0;
      while i < |chunks|
        invariant 0 <= i <= |chunks|
        invariant fresh(clientBuffer) && fresh(serverBuffer) && clientBuffer != serverBuffer
        invariant life.Active() && waitGroup == if life == FirstLoop then 1 else 0
        invariant ProcessAll(db, FRESH, chunks[..i])
               == WorkerState(clientBuffer.data, serverBuffer.data, emitted, life)
      {
        ghost var before := WorkerState(clientBuffer.data, serverBuffer.data, emitted, life);
        var outcome := ProcessChunk(chunks[i], clientBuffer, serverBuffer);
        ghost var after := Process(db, before, chunks[i]);
        LastChunk(db, FRESH, chunks, i);
        Ages(db, after, chunks[i + 1..]);
        match outcome {
          case Returned(packets) =>
            emitted := emitted + packets;
          case NoReturn(stop) =>
            if stop == Spinning {
              return emitted, Endless, false;
            }
            waitGroup := waitGroup - 1;
            if waitGroup < 0 {
              return emitted, Crash, true;
            }
            clientBuffer := new Buffer();
            serverBuffer := new Buffer();
            life := SecondLoop;
        }
        i := i + 1;
      }
      assert chunks[..i] == chunks;
      waitGroup := waitGroup - 1;
      crashed := waitGroup < 0;
    }
  }

  lemma WhenItEnds(db: PacketDatabase, chunks: seq<RawChunk>)
    ensures var w := ProcessAll(db, FRESH, chunks);
            && (w.life == FirstLoop <==> forall d :: Feed(db, d, [], DataOf(chunks, d)).stop == Waiting)
            && (w.life == FirstLoop ==>
                  Of(w.emitted, ServerToClient)
                  == PacketsOf(Parse(db, ServerToClient, Concat(DataOf(chunks, ServerToClient))).steps))
  {
    hide Process, Feed, DataOf, Of, Parse, PacketsOf;
    DirectionsIndependent(db, FRESH, chunks);
    assert forall d :: FRESH.Buffer(d) == [];
    if ProcessAll(db, FRESH, chunks).life == FirstLoop { ServerPackets(db, chunks); }
  }

  lemma Nothing(db: PacketDatabase, direction: PacketDirection, buf: seq<byte>)
    ensures Parse(db, direction, buf).After([]) == Parse(db, direction, buf)
    ensures PacketsOf([]) == []
  {
    AfterAfter(Parse(db, direction, buf), [], []);
  }

  lemma Stops(db: PacketDatabase, direction: PacketDirection, buf: seq<byte>, steps: seq<Step>)
    requires var d := Decide(db.Table(direction), buf); d.Wait? || d.Panic? || d.Spin?
    ensures var d := Decide(db.Table(direction), buf);
            Parse(db, direction, buf).After(steps)
            == Run(steps, buf, if d.Wait? then Waiting else if d.Panic? then Panicked else Spinning)
  {
    assert steps + [] == steps;
  }

  /** A turn of the loop moves a step from what is left to parse to what has been parsed. */
  lemma Advance(db: PacketDatabase, direction: PacketDirection, buf: seq<byte>, steps: seq<Step>)
    requires Decide(db.Table(direction), buf).Skip? || Decide(db.Table(direction), buf).Take?
    ensures var (step, rest) := Consume(db, direction, buf);
            && Parse(db, direction, buf).After(steps) == Parse(db, direction, rest).After(steps + [step])
            && PacketsOf(steps + [step]) == PacketsOf(steps) + if step.Parsed? then [step.packet] else []
  {
    hide Parse, Consume, Decide, PacketsOf;
    ParseFirst(db, direction, buf);
    var (step, rest) := Consume(db, direction, buf);
    AfterAfter(Parse(db, direction, rest), steps, [step]);
    PacketsOfAppend(steps, [step]);
    PacketsOfFirst(step, []);
    NoPackets();
    assert [step] + [] == [step];
  }

  lemma Skips(db: PacketDatabase, direction: PacketDirection, buf: seq<byte>, steps: seq<Step>)
    requires Decide(db.Table(direction), buf) == Skip
    ensures var steps' := steps + [Skipped(buf[0])];
            && Parse(db, direction, buf).After(steps) == Parse(db, direction, buf[1..]).After(steps')
            && PacketsOf(steps') == PacketsOf(steps)
  {
    Advance(db, direction, buf, steps);
  }

  lemma Takes(db: PacketDatabase, direction: PacketDirection, buf: seq<byte>, steps: seq<Step>)
    requires Decide(db.Table(direction), buf).Take?
    ensures var size := Decide(db.Table(direction), buf).size;
            var opcode := Uint16(buf, 0);
            var raw, tail := buf[..size], buf[size..];
            var n := ChecksumSize(db, direction, tail);
            var packet := MakePacket(direction, opcode, db.Table(direction)[opcode], raw,
                                     if n == 1 then Some(tail[0]) else None);
            var steps' := steps + [Parsed(raw, packet)];
            && Parse(db, direction, buf).After(steps) == Parse(db, direction, tail[n..]).After(steps')
            && PacketsOf(steps') == PacketsOf(steps) + [packet]
  {
    Advance(db, direction, buf, steps);
  }
}
