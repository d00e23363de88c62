/** The code of the Processor (internal/analyzer/processor.go), proved against the steps of Processors. Closing a closed
    channel and sending on one are panics of the runtime: they are preconditions here, so the proofs exclude them. */
module ProcessorCode {
  import opened Bytes
  import opened Packets
  import opened Frames
  import opened Processors

  /** A worker handle: the channel and the cancellation of the worker that reads it. */
  class Handle {
    ghost const index: nat
    const owner: uint64
    ghost const since: nat
    var queue: seq<RawChunk>
    var closed: bool
    var cancelled: bool
    ghost var ops: seq<Op>
    ghost var taken: seq<RawChunk>
    ghost var phase: Phase

    ghost function View(): Channel
      reads this
    {
      Channel(owner, since, ops, queue, taken, cancelled, phase)
    }

    ghost predicate Valid()
      reads this
    {
      closed <==> Closed in ops
    }

    constructor (owner: uint64, ghost index: nat, ghost since: nat)
      ensures Valid() && this.index == index && View() == Channel(owner, since, [], [], [], false, Running)
    {
      this.owner, this.index, this.since := owner, index, since;
      queue, closed, cancelled := [], false, false;
      ops, taken, phase := [], [], Running;
    }

    method CloseChannel()
      requires Valid() && !closed
      modifies this`closed, this`ops
      ensures Valid() && View() == old(View()).(ops := old(ops) + [Closed])
    {
      closed := true;
      ops := ops + [Closed];
    }

    method CloseWorker()
      requires Valid()
      modifies this`cancelled
      ensures Valid() && View() == old(View()).(cancelled := true)
    {
      cancelled := true;
    }

    /** What every place that ends a worker does. */
    method Stop()
      requires Valid() && !closed
      modifies this`closed, this`ops, this`cancelled
      ensures Valid() && View() == old(View()).Shut() && closed && cancelled
    {
      CloseChannel();
      CloseWorker();
    }

    method TrySend(chunk: RawChunk, capacity: nat)
      requires Valid() && !closed
      modifies this`queue, this`ops
      ensures Valid() && View() == old(View()).Offer(chunk, capacity)
      ensures if |old(queue)| < capacity
              then queue == old(queue) + [chunk] && SentChunks(ops) == SentChunks(old(ops)) + [chunk]
              else queue == old(queue) && SentChunks(ops) == SentChunks(old(ops))
    {
      OpsSnoc(ops, Sent(chunk));
      OpsSnoc(ops, Dropped(chunk));
      hide SentChunks;
      if |queue| < capacity {
        queue := queue + [chunk];
        ops := ops + [Sent(chunk)];
      } else {
        ops := ops + [Dropped(chunk)];
      }
    }
  }

  /** model is the state of Processors that the object stands for; Valid ties it to the fields and the channels. */
  class Processor {
    const capacity: nat
    var workers: map<uint64, Handle>
    var connections: map<uint64, ConnectionInfo>
    var cleanedUp: bool
    ghost var made: seq<Handle>
    ghost var model: State

    ghost predicate Valid()
      reads this, made
    {
      && connections == model.connections && cleanedUp == model.cleanedUp
      && |made| == |model.channels| && (forall i :: 0 <= i < |made| ==> Mirrors(i))
      && workers.Keys == model.workers.Keys && (forall id <- workers :: Refers(id))
    }

    ghost predicate Mirrors(i: nat)
      reads this, made
    {
      i < |made| == |model.channels| && made[i].index == i && made[i].Valid() && made[i].View() == model.channels[i]
    }

    ghost predicate Refers(id: uint64)
      reads this
    {
      && id in workers && id in model.workers && workers[id].index == model.workers[id] < |made|
      && made[model.workers[id]] == workers[id]
    }

    constructor (capacity: nat)
      ensures Valid() && model == START && this.capacity == capacity
    {
      this.capacity := capacity;
      workers, connections, cleanedUp := map[], map[], false;
      made, model := [], START;
    }

    /** The connection of f has a new entry in both maps, with its addresses and an open, empty channel. */
    ghost predicate Opened(workers0: map<uint64, Handle>, connections0: map<uint64, ConnectionInfo>, f: Frame)
      reads this, workers.Values
    {
      var id := f.connectionId;
      && connections == connections0[id := ConnectionInfo(id, f.clientAddr, f.serverAddr)]
      && id in workers && workers == workers0[id := workers[id]]
      && var handle := workers[id];
         handle.owner == id && handle.queue == [] && !handle.closed && !handle.cancelled
    }

    /** A channel, a worker on it, and the two map entries. */
    method MakeWorker(f: Frame) returns (handle: Handle)
      requires Valid()
      modifies this`workers, this`connections, this`made, this`model
      ensures Valid() && model == Make(old(model), f)
      ensures made == old(made) + [handle] && fresh(handle)
      ensures Opened(old(workers), old(connections), f) && workers[f.connectionId] == handle
    {
      connections := connections[f.connectionId := ConnectionInfo(f.connectionId, f.clientAddr, f.serverAddr)];
      handle := new Handle(f.connectionId, |made|, |model.handled|);
      workers := workers[f.connectionId := handle];
      made := made + [handle];
      model := Make(model, f);
      forall i | 0 <= i < |made| ensures Mirrors(i) {
        assert i < |old(made)| ==> old(Mirrors(i));
      }
      forall id <- workers ensures Refers(id) {
        assert id != f.connectionId ==> old(Refers(id));
      }
    }

    /** A change of what the model only records. */
    ghost method Restate(m: State)
      requires Valid()
      requires m == model.(handled := m.handled, displaced := m.displaced)
      modifies this`model
      ensures Valid() && model == m
    {
      model := m;
      forall i | 0 <= i < |made| ensures Mirrors(i) {
        assert old(Mirrors(i));
      }
      forall id <- workers ensures Refers(id) {
        assert old(Refers(id));
      }
    }

    method OnConnOpen(f: Frame)
      requires Valid()
      modifies this`workers, this`connections, this`made, this`model
      ensures Valid() && model == HandleConnOpen(old(model), f)
      ensures Opened(old(workers), old(connections), f) && fresh(workers[f.connectionId])
      ensures forall i :: 0 <= i < |made| ==> made[i] in old(made) || fresh(made[i])
    {
      ghost var displaced := model.displaced || f.connectionId in model.workers;
      var _ := MakeWorker(f);
      Restate(model.(displaced := displaced));
    }

    /** The worker of id is stopped and its entry removed. */
    method StopWorker(id: uint64, handle: Handle)
      requires Valid() && Owns(model, id) && id in workers && workers[id] == handle
      modifies this`workers, this`model, made
      ensures Valid() && workers == old(workers) - {id} && handle.closed && handle.cancelled
      ensures old(model).workers[id] < |old(model).channels|
      ensures var k := old(model).workers[id];
              model == old(model).(channels := old(model).channels[k := old(model).channels[k].Shut()],
                                   workers := old(model).workers - {id})
    {
      assert Refers(id) && Mirrors(handle.index);
      handle.Stop();
      workers := workers - {id};
      ghost var k := model.workers[id];
      model := model.(channels := model.channels[k := model.channels[k].Shut()], workers := model.workers - {id});
      forall i | 0 <= i < |made| ensures Mirrors(i) {
        assert old(Mirrors(i));
      }
      forall other <- workers ensures Refers(other) {
        assert old(Refers(other));
      }
    }

    method RemoveConnection(id: uint64)
      requires Valid()
      modifies this`connections, this`model
      ensures Valid() && model == old(model).(connections := old(model).connections - {id})
      ensures connections == old(connections) - {id}
    {
      connections := connections - {id};
      model := model.(connections := model.connections - {id});
      forall i | 0 <= i < |made| ensures Mirrors(i) {
        assert old(Mirrors(i));
      }
      forall other <- workers ensures Refers(other) {
        assert old(Refers(other));
      }
    }

    method OnConnClose(f: Frame)
      requires Valid() && OpenAndOwn(model)
      modifies this`workers, this`connections, this`model, made
      ensures Valid() && model == HandleConnClose(old(model), f)
      ensures workers == old(workers) - {f.connectionId} && connections == old(connections) - {f.connectionId}
      ensures f.connectionId in old(workers) ==>
                var handle := old(workers)[f.connectionId]; handle.closed && handle.cancelled
    {
      hide Valid, OpenAndOwn, Owns;
      var id := f.connectionId;
      KeysAgree();
      if id in workers {
        OwnsOne(model, id);
        StopWorker(id, workers[id]);
      }
      RemoveConnection(id);
      assert id !in old(model).workers ==> old(model).workers - {id} == old(model).workers;
    }

    /** The send, to a worker that exists. */
    method Dispatch(handle: Handle, f: Frame)
      requires Valid() && Owns(model, f.connectionId) && f.connectionId in workers && workers[f.connectionId] == handle
      modifies this`model, made
      ensures Valid() && model == Deliver(old(model), f, capacity)
      ensures var chunk := RawChunk(f.connectionId, f.timestamp, f.direction, f.data);
              handle.queue == old(handle.queue) + if |old(handle.queue)| < capacity then [chunk] else []
    {
      hide SentChunks;
      assert Refers(f.connectionId) && Mirrors(handle.index);
      handle.TrySend(f.ToRawChunk(), capacity);
      model := Deliver(model, f, capacity);
      forall i | 0 <= i < |made| ensures Mirrors(i) {
        assert old(Mirrors(i));
      }
      forall other <- workers ensures Refers(other) {
        assert old(Refers(other));
      }
    }

    method OnData(f: Frame)
      requires Valid() && OpenAndOwn(model)
      modifies this`workers, this`connections, this`made, this`model, made
      ensures Valid() && model == HandleData(old(model), f, capacity)
      ensures forall i :: 0 <= i < |made| ==> made[i] in old(made) || fresh(made[i])
      ensures var id := f.connectionId;
              var chunk := RawChunk(id, f.timestamp, f.direction, f.data);
              && id in workers
              && (if id in old(workers)
                  then workers == old(workers) && connections == old(connections)
                  else && workers == old(workers)[id := workers[id]] && fresh(workers[id])
                       && connections == old(connections)[id := ConnectionInfo(id, f.clientAddr, f.serverAddr)])
              && var queued := if id in old(workers) then old(workers[id].queue) else [];
                 workers[id].queue == queued + if |queued| < capacity then [chunk] else []
    {
      hide Valid, OpenAndOwn, Owns, Deliver;
      var id := f.connectionId;
      var handle: Handle;
      KeysAgree();
      if id in workers {
        handle := workers[id];
        OwnsOne(model, id);
      } else {
        handle := MakeWorker(f);
        OwnsMade(old(model), f);
      }
      Dispatch(handle, f);
    }

    lemma KeysAgree()
      requires Valid()
      ensures workers.Keys == model.workers.Keys
    {
    }

    /** Channel i while the channels of the connections outside ids have been shut. */
    static ghost predicate Partly(made: seq<Handle>, before: State, ids: set<uint64>, i: nat)
      reads made
    {
      && i < |made| == |before.channels| && made[i].index == i && made[i].Valid()
      && made[i].View() == if Serves(before.workers, before.channels, i) && before.channels[i].owner !in ids
                           then before.channels[i].Shut() else before.channels[i]
    }

    /** The handle of id is that of its own open channel. */
    static ghost predicate Suits(made: seq<Handle>, before: State, all: map<uint64, Handle>, id: uint64) {
      && id in all && Owns(before, id)
      && before.workers[id] < |made| && made[before.workers[id]] == all[id]
    }

    method ShutOne(ghost before: State, ghost all: map<uint64, Handle>, ghost ids: set<uint64>, ghost id: uint64,
        handle: Handle)
      requires forall i :: 0 <= i < |made| ==> Partly(made, before, ids, i)
      requires Suits(made, before, all, id) && all[id] == handle && id in ids
      modifies handle`closed, handle`ops, handle`cancelled
      ensures forall i :: 0 <= i < |made| ==> Partly(made, before, ids - {id}, i)
    {
      assert Partly(made, before, ids, before.workers[id]);
      handle.Stop();
      forall i | 0 <= i < |made| ensures Partly(made, before, ids - {id}, i) {
        assert old(Partly(made, before, ids, i));
      }
    }

    method Forget(id: uint64, withConnections: bool)
      modifies this`workers, this`connections
      ensures workers == old(workers) - {id}
      ensures connections == if withConnections then old(connections) - {id} else old(connections)
    {
      workers := workers - {id};
      if withConnections {
        connections := connections - {id};
      }
    }

    /** The loop over the map of workers, which removes the entries it has dealt with. */
    method ShutEach(withConnections: bool)
      requires OpenAndOwn(model) && workers.Keys == model.workers.Keys
      requires forall id <- workers :: Refers(id)
      requires forall i :: 0 <= i < |made| ==> Partly(made, model, model.workers.Keys, i)
      modifies this`workers, this`connections, made
      ensures workers == map[]
      ensures connections == if withConnections then old(connections) - old(workers).Keys else old(connections)
      ensures forall i :: 0 <= i < |made| ==> Partly(made, model, workers.Keys, i)
    {
      hide Partly;
      var all := workers;
      forall id <- all ensures Suits(made, model, all, id) {
        assert Refers(id);
        OwnsOne(model, id);
      }
      hide Refers, OpenAndOwn, Suits;
      var ids := workers.Keys;
      while ids != {}
        invariant ids <= all.Keys && workers.Keys == ids
        invariant forall id <- ids :: workers[id] == all[id]
        invariant connections == if withConnections then old(connections) - (all.Keys - ids) else old(connections)
        invariant forall i :: 0 <= i < |made| ==> Partly(made, model, ids, i)
        decreases ids
      {
        var id :| id in ids;
        var handle := workers[id];
        InMade(all, id);
        ShutOne(model, all, ids, id, handle);
        Forget(id, withConnections);
        RemoveOne(old(connections), all.Keys, ids, id);
        ids := ids - {id};
      }
      assert all.Keys - {} == all.Keys;
    }

    /** Their channels are closed and their workers cancelled. */
    static ghost predicate Ended(handles: map<uint64, Handle>)
      reads handles.Values
    {
      forall id <- handles :: handles[id].closed && handles[id].cancelled
    }

    static lemma StoppedOne(made: seq<Handle>, before: State, all: map<uint64, Handle>, id: uint64)
      requires Suits(made, before, all, id) && Partly(made, before, {}, before.workers[id])
      ensures all[id].closed && all[id].cancelled
    {
      var k := before.workers[id];
      assert Serves(before.workers, before.channels, k);
      assert all[id].View().ops[|before.channels[k].ops|] == Closed;
    }

    lemma InMade(all: map<uint64, Handle>, id: uint64)
      requires Suits(made, model, all, id)
      ensures id in all && all[id] in made
    {
    }

    /** Closes the channels of all workers and cancels them; the entries of workers are removed, and with a disconnect
        those of connections. */
    method ShutWorkers(withConnections: bool)
      requires Valid() && OpenAndOwn(model)
      modifies this`workers, this`connections, this`model, made
      ensures Valid()
      ensures model == old(model).(
                channels := ShutServing(old(model).workers, old(model).channels), workers := map[],
                connections := if withConnections then old(model).connections - old(model).workers.Keys
                  else old(model).connections)
      ensures Ended(old(workers))
      ensures workers == map[]
      ensures connections == if withConnections then old(connections) - old(workers).Keys else old(connections)
    {
      ghost var before, all := model, workers;
      forall id <- all ensures Suits(made, model, all, id) {
        assert Refers(id);
        OwnsOne(model, id);
      }
      forall i | 0 <= i < |made| ensures Partly(made, model, model.workers.Keys, i) {
        assert Mirrors(i);
      }
      ShutEach(withConnections);
      ghost var none := workers.Keys;
      forall i | 0 <= i < |made| ensures Partly(made, before, none, i) {
        assert model == before && Partly(made, model, workers.Keys, i);
      }
      assert none == {};
      forall id <- all ensures all[id].closed && all[id].cancelled {
        assert Suits(made, before, all, id) && Partly(made, before, none, before.workers[id]);
        StoppedOne(made, before, all, id);
      }
      label L:
      model := before.(channels := ShutServing(before.workers, before.channels), workers := map[],
        connections := connections);
      forall i | 0 <= i < |made| ensures Mirrors(i) {
        assert old@L(Partly(made, before, none, i));
      }
    }

    method OnIPCDisconnect()
      requires Valid() && OpenAndOwn(model)
      modifies this`workers, this`connections, this`model, made
      ensures Valid() && model == HandleIPCDisconnect(old(model))
      ensures Ended(old(workers)) && workers == map[] && connections == old(connections) - old(workers).Keys
    {
      ShutWorkers(true);
    }

    method CleanupAllWorkers()
      requires Valid() && OpenAndOwn(model)
      modifies this`workers, this`connections, this`cleanedUp, this`model, made
      ensures Valid() && model == Cleanup(old(model))
      ensures cleanedUp && connections == old(connections)
      ensures if old(cleanedUp) then workers == old(workers) else Ended(old(workers)) && workers == map[]
    {
      if cleanedUp {
        return;
      }
      ShutWorkers(false);
      label L:
      cleanedUp := true;
      model := model.(cleanedUp := true);
      forall i | 0 <= i < |made| ensures Mirrors(i) {
        assert old@L(Mirrors(i));
      }
    }

    method OnFrame(f: Frame)
      requires Valid() && Inv(model) && !cleanedUp
      modifies this, made
      ensures Valid() && model == HandleFrame(old(model), f, capacity) && Inv(model) && !cleanedUp
      ensures forall i :: 0 <= i < |made| ==> made[i] in old(made) || fresh(made[i])
    {
      hide Valid, OpenAndOwn, Keys, AllSane, LeakFree;
      assert !model.cleanedUp by { Agrees(); }
      HandleInv(model, f, capacity);
      if f.frameType == FRAME_TYPE_CONN_OPEN {
        OnConnOpen(f);
      } else if f.frameType == FRAME_TYPE_CONN_CLOSE {
        OnConnClose(f);
      } else if f.frameType == FRAME_TYPE_DATA {
        OnData(f);
      } else if f.frameType == FRAME_TYPE_IPC_DISCONNECT {
        OnIPCDisconnect();
      }
      Restate(model.(handled := model.handled + [f]));
      Agrees();
    }

    lemma Agrees()
      requires Valid()
      ensures cleanedUp == model.cleanedUp
    {
    }

    /** processLoop over the frames that arrive before the channel of frames is closed, clean-up included. */
    method ProcessLoop(frames: seq<Frame>)
      requires Valid() && Inv(model) && !cleanedUp
      modifies this, made
      ensures Valid() && Inv(model) && model == Cleanup(HandleAll(old(model), frames, capacity))
    {
      hide Valid, Inv;
      var i := 0;
      while i < |frames|
        invariant 0 <= i <= |frames| && Valid() && Inv(model) && !cleanedUp
        invariant model == HandleAll(old(model), frames[..i], capacity)
        invariant forall i :: 0 <= i < |made| ==> made[i] in old(made) || fresh(made[i])
      {
        OnFrame(frames[i]);
        assert frames[..i + 1][..i] == frames[..i];
        i := i + 1;
      }
      assert frames[..i] == frames;
      NextInv(model, CleanUp, capacity);
      assert OpenAndOwn(model) by { InvOwn(model); }
      CleanupAllWorkers();
    }
  }

  lemma RemoveOne<K, V>(m: map<K, V>, all: set<K>, ids: set<K>, id: K)
    requires ids <= all && id in ids
    ensures m - (all - ids) - {id} == m - (all - (ids - {id}))
  {
  }

  lemma OwnsOne(s: State, id: uint64)
    requires OpenAndOwn(s) && id in s.workers
    ensures Owns(s, id)
  {
  }

  lemma OwnsMade(s: State, f: Frame)
    ensures Owns(Make(s, f), f.connectionId)
  {
  }

  lemma InvOwn(s: State)
    requires Inv(s)
    ensures OpenAndOwn(s)
  {
  }

  ghost function HandleAll(s: State, frames: seq<Frame>, capacity: nat): State {
    if frames == [] then s
    else
      var last := |frames| - 1;
      HandleFrame(HandleAll(s, frames[..last], capacity), frames[last], capacity)
  }
}
