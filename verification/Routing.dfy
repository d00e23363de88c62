/** Which data frames reach which channel, for every channel ever made (internal/analyzer/processor.go). */
module Routing {
  import opened Bytes
  import opened Packets
  import opened Frames
  import opened Subsequences
  import opened Processors

  /** The frame ends the service of the channel that serves id: a Close, a disconnect, or an Open that displaces it. */
  predicate Ends(f: Frame, id: uint64) {
    || f.frameType == FRAME_TYPE_IPC_DISCONNECT
    || (f.connectionId == id && (f.frameType == FRAME_TYPE_CONN_CLOSE || f.frameType == FRAME_TYPE_CONN_OPEN))
  }

  /** The place of the first frame behind the since-th that ends the service of id, or the number of frames. */
  function EndOf(frames: seq<Frame>, since: nat, id: uint64): (n: nat)
    ensures n <= |frames| && (since < |frames| ==> since < n)
    ensures n < |frames| ==> Ends(frames[n], id)
    ensures forall i :: since < i < n ==> !Ends(frames[i], id)
  {
    var last := |frames| - 1;
    if last <= since then |frames|
    else
      var n := EndOf(frames[..last], since, id);
      if n < last || Ends(frames[last], id) then n else |frames|
  }

  /** The service of a channel goes from the frame it was made for up to the one that ends it. */
  function Service(frames: seq<Frame>, since: nat, id: uint64): seq<Frame>
    requires since <= |frames|
  {
    if since == |frames| then [] else frames[since..EndOf(frames, since, id)]
  }

  /** A channel was offered exactly the data frames of its connection in its service, and serves as long as that
      lasts. */
  ghost predicate Routed(s: State, k: nat) {
    k < |s.channels| &&
    var c := s.channels[k];
    && c.since < |s.handled|
    && OfferedChunks(c.ops) == ChunksOf(Service(s.handled, c.since, c.owner), c.owner)
    && (!s.cleanedUp ==>
          (Serves(s.workers, s.channels, k) <==> EndOf(s.handled, c.since, c.owner) == |s.handled|))
  }

  ghost predicate AllRouted(s: State) {
    forall k :: 0 <= k < |s.channels| ==> Routed(s, k)
  }

  // ---------------------------------------------------------------- one frame more

  lemma EndLater(frames: seq<Frame>, f: Frame, since: nat, id: uint64)
    requires since < |frames|
    ensures var n := EndOf(frames, since, id);
            EndOf(frames + [f], since, id) == if n < |frames| || Ends(f, id) then n else |frames| + 1
  {
    assert (frames + [f])[..|frames|] == frames;
  }

  /** The service goes on with f if nothing has ended it. */
  lemma ServiceLater(frames: seq<Frame>, f: Frame, since: nat, id: uint64)
    requires since < |frames|
    ensures Service(frames + [f], since, id) ==
              Service(frames, since, id) + if EndOf(frames, since, id) == |frames| && !Ends(f, id) then [f] else []
  {
    hide EndOf, Ends;
    EndLater(frames, f, since, id);
    SliceLater(frames, f, since, EndOf(frames, since, id));
  }

  lemma SliceLater<T>(all: seq<T>, x: T, a: nat, b: nat)
    requires a <= b <= |all|
    ensures (all + [x])[a..b] == all[a..b] == all[a..b] + []
    ensures b == |all| ==> (all + [x])[a..b + 1] == all[a..b] + [x]
  {
  }

  lemma ServiceFirst(frames: seq<Frame>, f: Frame, id: uint64)
    ensures Service(frames + [f], |frames|, id) == [f] && EndOf(frames + [f], |frames|, id) == |frames| + 1
  {
  }

  function ChunkOf(f: Frame, id: uint64): seq<RawChunk> {
    if f.frameType == FRAME_TYPE_DATA && f.connectionId == id then [f.ToRawChunk()] else []
  }

  lemma ChunksOne(f: Frame, id: uint64)
    ensures ChunksOf([f], id) == ChunkOf(f, id)
  {
    ChunksOfSnoc([], f, id);
    assert [] + [f] == [f] && ChunksOf([], id) == [];
  }

  /** How a channel that was there before takes part in handling f. */
  ghost predicate Carried(s: State, f: Frame, s': State, k: nat) {
    && k < |s.channels| && k < |s'.channels|
    && var c, c' := s.channels[k], s'.channels[k];
       var serves := Serves(s.workers, s.channels, k);
       && c'.owner == c.owner && c'.since == c.since
       && OfferedChunks(c'.ops) == OfferedChunks(c.ops) + (if serves then ChunkOf(f, c.owner) else [])
       && (Serves(s'.workers, s'.channels, k) <==> serves && !Ends(f, c.owner))
  }

  lemma CarriedRouted(s: State, f: Frame, s': State, k: nat)
    requires Routed(s, k) && !s.cleanedUp && Carried(s, f, s', k) && s'.handled == s.handled + [f]
    ensures Routed(s', k)
  {
    hide EndOf, Service, ChunksOf, OfferedChunks, Serves, Ends;
    var c := s.channels[k];
    var service := Service(s.handled, c.since, c.owner);
    EndLater(s.handled, f, c.since, c.owner);
    ServiceLater(s.handled, f, c.since, c.owner);
    ChunksOfSnoc(service, f, c.owner);
    EndsChunk(f, c.owner);
    assert service + [] == service && OfferedChunks(c.ops) + [] == OfferedChunks(c.ops);
  }

  lemma EndsChunk(f: Frame, id: uint64)
    ensures Ends(f, id) ==> ChunkOf(f, id) == []
  {
  }

  /** The channel made for f. */
  lemma MadeRouted(s: State, f: Frame, s': State)
    requires s'.handled == s.handled + [f] && |s'.channels| == |s.channels| + 1
    requires var c := s'.channels[|s.channels|];
             && c.owner == f.connectionId && c.since == |s.handled|
             && OfferedChunks(c.ops) == ChunkOf(f, f.connectionId) && Serves(s'.workers, s'.channels, |s.channels|)
    ensures Routed(s', |s.channels|)
  {
    ServiceFirst(s.handled, f, f.connectionId);
    ChunksOne(f, f.connectionId);
    hide EndOf, Service, ChunksOf, OfferedChunks, Serves;
  }

  // ---------------------------------------------------------------- handling a frame

  lemma OfferedNothing(ops: seq<Op>)
    ensures OfferedChunks(ops + [Closed]) == OfferedChunks(ops) + [] == OfferedChunks(ops)
    ensures OfferedChunks([]) == []
  {
    OpsSnoc(ops, Closed);
  }

  lemma OpenCarries(s: State, f: Frame, capacity: nat, k: nat)
    requires f.frameType == FRAME_TYPE_CONN_OPEN && k < |s.channels|
    ensures Carried(s, f, HandleFrame(s, f, capacity), k)
  {
    hide OfferedChunks, Deliver, HandleIPCDisconnect;
    OfferedNothing(s.channels[k].ops);
  }

  lemma CloseCarries(s: State, f: Frame, capacity: nat, k: nat)
    requires f.frameType == FRAME_TYPE_CONN_CLOSE && k < |s.channels|
    requires f.connectionId in s.workers ==> Owns(s, f.connectionId)
    ensures Carried(s, f, HandleFrame(s, f, capacity), k)
  {
    hide OfferedChunks, Deliver, HandleIPCDisconnect;
    OfferedNothing(s.channels[k].ops);
  }

  lemma DisconnectCarries(s: State, f: Frame, capacity: nat, k: nat)
    requires f.frameType == FRAME_TYPE_IPC_DISCONNECT && k < |s.channels|
    ensures Carried(s, f, HandleFrame(s, f, capacity), k)
  {
    hide OfferedChunks, Deliver;
    OfferedNothing(s.channels[k].ops);
  }

  lemma OtherCarries(s: State, f: Frame, capacity: nat, k: nat)
    requires f.frameType !in {FRAME_TYPE_CONN_OPEN, FRAME_TYPE_CONN_CLOSE, FRAME_TYPE_DATA, FRAME_TYPE_IPC_DISCONNECT}
    requires k < |s.channels|
    ensures Carried(s, f, HandleFrame(s, f, capacity), k)
  {
    hide OfferedChunks, Deliver, HandleIPCDisconnect;
    OfferedNothing(s.channels[k].ops);
  }

  /** To a worker that is there. */
  lemma DataCarries(s: State, f: Frame, capacity: nat, k: nat)
    requires f.frameType == FRAME_TYPE_DATA && Owns(s, f.connectionId) && k < |s.channels|
    ensures Carried(s, f, HandleFrame(s, f, capacity), k)
  {
    hide OfferedChunks, Channel.Offer;
    OfferedNothing(s.channels[k].ops);
    OfferOne(s.channels[k], f.ToRawChunk(), capacity);
    assert HandleFrame(s, f, capacity).workers == s.workers;
  }

  /** To a worker made for it. */
  lemma DataMakes(s: State, f: Frame, capacity: nat, k: nat)
    requires f.frameType == FRAME_TYPE_DATA && f.connectionId !in s.workers && k < |s.channels|
    ensures Carried(s, f, HandleFrame(s, f, capacity), k)
  {
    hide OfferedChunks, Channel.Offer;
    OfferedNothing(s.channels[k].ops);
  }

  lemma HandleCarries(s: State, f: Frame, capacity: nat, k: nat)
    requires OpenAndOwn(s) && k < |s.channels|
    ensures Carried(s, f, HandleFrame(s, f, capacity), k)
  {
    assert f.connectionId in s.workers ==> Owns(s, f.connectionId);
    hide Carried, HandleFrame, OpenAndOwn;
    if f.frameType == FRAME_TYPE_CONN_OPEN { OpenCarries(s, f, capacity, k); }
    else if f.frameType == FRAME_TYPE_CONN_CLOSE { CloseCarries(s, f, capacity, k); }
    else if f.frameType == FRAME_TYPE_IPC_DISCONNECT { DisconnectCarries(s, f, capacity, k); }
    else if f.frameType != FRAME_TYPE_DATA { OtherCarries(s, f, capacity, k); }
    else if f.connectionId in s.workers { DataCarries(s, f, capacity, k); }
    else { DataMakes(s, f, capacity, k); }
  }

  /** A frame makes at most one channel, and that one is for its connection. */
  lemma HandleMakes(s: State, f: Frame, capacity: nat)
    requires OpenAndOwn(s)
    ensures var s', n := HandleFrame(s, f, capacity), |s.channels|;
            && s'.handled == s.handled + [f] && n <= |s'.channels| <= n + 1
            && (|s'.channels| > n ==>
                  && s'.channels[n].owner == f.connectionId && s'.channels[n].since == |s.handled|
                  && Serves(s'.workers, s'.channels, n)
                  && s'.channels[n].ops ==
                     if f.frameType != FRAME_TYPE_DATA then []
                     else Make(s, f).channels[n].Offer(f.ToRawChunk(), capacity).ops)
  {
    if f.connectionId in s.workers { assert Owns(s, f.connectionId); }
    hide Channel.Offer, OpenAndOwn;
  }

  lemma HandleMakesRouted(s: State, f: Frame, capacity: nat)
    requires OpenAndOwn(s)
    ensures var s', n := HandleFrame(s, f, capacity), |s.channels|;
            && s'.handled == s.handled + [f] && n <= |s'.channels| <= n + 1
            && (|s'.channels| > n ==> Routed(s', n))
  {
    HandleMakes(s, f, capacity);
    hide OfferedChunks, Routed, HandleFrame, Channel.Offer, OpenAndOwn, Serves;
    var s', n := HandleFrame(s, f, capacity), |s.channels|;
    if |s'.channels| > n {
      OfferedNothing([]);
      OfferOne(Make(s, f).channels[n], f.ToRawChunk(), capacity);
      assert [] + [f.ToRawChunk()] == [f.ToRawChunk()];
      assert f.frameType != FRAME_TYPE_DATA ==> ChunkOf(f, f.connectionId) == [];
      MadeRouted(s, f, s');
    }
  }

  lemma HandleRouted(s: State, f: Frame, capacity: nat)
    requires AllRouted(s) && OpenAndOwn(s) && !s.cleanedUp
    ensures AllRouted(HandleFrame(s, f, capacity))
  {
    var s' := HandleFrame(s, f, capacity);
    HandleMakesRouted(s, f, capacity);
    hide OpenAndOwn, HandleFrame, Carried, Routed;
    forall k: nat | k < |s'.channels| ensures Routed(s', k) {
      if k < |s.channels| {
        HandleCarries(s, f, capacity, k);
        CarriedRouted(s, f, s', k);
      }
    }
  }

  // ---------------------------------------------------------------- every run

  /** Other steps offer nothing, and only clean-up ends service. */
  lemma SameRouted(s: State, s': State, k: nat)
    requires Routed(s, k) && s'.handled == s.handled && k < |s'.channels| == |s.channels|
    requires s'.channels[k].owner == s.channels[k].owner && s'.channels[k].since == s.channels[k].since
    requires OfferedChunks(s'.channels[k].ops) == OfferedChunks(s.channels[k].ops)
    requires s'.cleanedUp || (s'.workers == s.workers && !s.cleanedUp)
    ensures Routed(s', k)
  {
    hide EndOf, Service, OfferedChunks;
  }

  lemma NextRouted(s: State, e: Event, capacity: nat)
    requires Inv(s) && AllRouted(s) && Enabled(s, e)
    ensures AllRouted(Next(s, e, capacity))
  {
    var s' := Next(s, e, capacity);
    if e.Handle? {
      hide Routed, AllSane, Keys, LeakFree;
      HandleRouted(s, e.frame, capacity);
    } else if e.CleanUp? {
      forall k: nat | k < |s'.channels| ensures Routed(s', k) {
        OfferedNothing(s.channels[k].ops);
        hide Routed, OfferedChunks;
        SameRouted(s, s', k);
      }
    } else {
      WorkerEventChannels(s, e, capacity);
      hide Routed, OfferedChunks, Next;
      forall k: nat | k < |s'.channels| ensures Routed(s', k) {
        assert SameUse(s.channels[k], s'.channels[k]);
        SameRouted(s, s', k);
      }
    }
  }

  lemma {:induction false} RunRouted(s: State, events: seq<Event>, capacity: nat)
    requires Inv(s) && AllRouted(s) && Run(s, events, capacity).Some?
    ensures AllRouted(Run(s, events, capacity).value)
    decreases |events|
  {
    if events == [] {
    } else {
      NextInv(s, events[0], capacity);
      NextRouted(s, events[0], capacity);
      hide Inv, AllRouted, Next, Enabled;
      RunRouted(Next(s, events[0], capacity), events[1..], capacity);
    }
  }

  /** In every run, for every channel ever made: it serves its connection from the frame it was made for up to the first
      Close or Open of its connection, or disconnect, behind it. What it accepted is an in-order subsequence of the data
      frames of its connection in between, all of them if none was dropped, and its worker has taken a first part. */
  lemma EveryChannel(events: seq<Event>, capacity: nat, k: nat)
    requires Run(START, events, capacity).Some?
    requires k < |Run(START, events, capacity).value.channels|
    ensures var s := Run(START, events, capacity).value;
            var c := s.channels[k];
            var n := EndOf(s.handled, c.since, c.owner);
            && c.since < n <= |s.handled|
            && (!s.cleanedUp ==> (Serves(s.workers, s.channels, k) <==> n == |s.handled|))
            && var data := ChunksOf(s.handled[c.since..n], c.owner);
               && Subsequence(SentChunks(c.ops), data)
               && ((forall i :: 0 <= i < |c.ops| ==> !c.ops[i].Dropped?) ==> SentChunks(c.ops) == data)
               && SentChunks(c.ops) == c.taken + c.queue
  {
    StartInv();
    RunRouted(START, events, capacity);
    Drained(events, capacity, k);
    var c := Run(START, events, capacity).value.channels[k];
    SentOfOffered(c.ops);
    hide Run, ChunksOf, OfferedChunks, SentChunks, Subsequence, EndOf;
    assert Routed(Run(START, events, capacity).value, k);
    if forall i :: 0 <= i < |c.ops| ==> !c.ops[i].Dropped? {
      SentIsOffered(c.ops);
    }
  }

  // ---------------------------------------------------------------- when nothing is dropped

  predicate AnyDropped(ops: seq<Op>) {
    exists i :: 0 <= i < |ops| && ops[i].Dropped?
  }

  /** If the event is a data frame for channel k, made for it at the latest, fewer than capacity chunks are queued. */
  predicate HasRoom(s: State, e: Event, capacity: nat, k: nat) {
    e.Handle? && e.frame.frameType == 0x00 ==>
      var id := e.frame.connectionId;
      if id in s.workers then s.workers[id] == k && k < |s.channels| ==> |s.channels[k].queue| < capacity
      else k == |s.channels| ==> 0 < capacity
  }

  /** There is room in channel k at every data frame of its service. */
  predicate NeverFull(s: State, events: seq<Event>, capacity: nat, k: nat)
    decreases |events|
  {
    events == [] ||
    (HasRoom(s, events[0], capacity, k)
     && (Enabled(s, events[0]) ==> NeverFull(Next(s, events[0], capacity), events[1..], capacity, k)))
  }

  predicate Lossy(s: State, k: nat) {
    k < |s.channels| && AnyDropped(s.channels[k].ops)
  }

  lemma DroppedSnoc(ops: seq<Op>, op: Op)
    ensures AnyDropped(ops + [op]) <==> AnyDropped(ops) || op.Dropped?
    ensures !AnyDropped([])
  {
    var more := ops + [op];
    assert forall i :: 0 <= i < |ops| ==> more[i] == ops[i];
    assert more[|ops|] == op;
  }

  lemma FrameLoses(s: State, f: Frame, capacity: nat, k: nat)
    requires OpenAndOwn(s)
    ensures Lossy(HandleFrame(s, f, capacity), k) <==> Lossy(s, k) || !HasRoom(s, Handle(f), capacity, k)
  {
    hide AnyDropped, HandleFrame, SentChunks, OpenAndOwn;
    var ops := if k < |s.channels| then s.channels[k].ops else [];
    DroppedSnoc(ops, Closed);
    DroppedSnoc(ops, Sent(f.ToRawChunk()));
    DroppedSnoc(ops, Dropped(f.ToRawChunk()));
    if f.frameType == 0x00 { DataMeans(s, f, capacity); }
    else if f.frameType == 0x01 { OpenMeans(s, f, capacity); }
    else { CloseMeans(s, f, capacity); }
  }

  lemma NextLoses(s: State, e: Event, capacity: nat, k: nat)
    requires Inv(s) && Enabled(s, e)
    ensures Lossy(Next(s, e, capacity), k) <==> Lossy(s, k) || !HasRoom(s, e, capacity, k)
  {
    hide AnyDropped, SentChunks, HandleFrame, OpenAndOwn, AllSane, LeakFree, Keys;
    match e
    case Handle(f) => FrameLoses(s, f, capacity, k);
    case CleanUp =>
      CleanUpMeans(s, capacity);
      if k < |s.channels| { DroppedSnoc(s.channels[k].ops, Closed); }
    case _ =>
      WorkerEventChannels(s, e, capacity);
      hide Next;
      assert k < |s.channels| ==> SameUse(s.channels[k], Next(s, e, capacity).channels[k]);
  }

  lemma {:induction false} RunLoses(s: State, events: seq<Event>, capacity: nat, k: nat)
    requires Inv(s) && Run(s, events, capacity).Some?
    ensures Lossy(Run(s, events, capacity).value, k) <==> Lossy(s, k) || !NeverFull(s, events, capacity, k)
    decreases |events|
  {
    if events == [] {
    } else {
      NextInv(s, events[0], capacity);
      NextLoses(s, events[0], capacity, k);
      hide Inv, Next, Enabled, HasRoom, Lossy;
      RunLoses(Next(s, events[0], capacity), events[1..], capacity, k);
    }
  }

  /** In every run a channel drops nothing exactly if it had room at every data frame of its service; then it accepted
      all of these, in order. */
  lemma NothingDroppedIff(events: seq<Event>, capacity: nat, k: nat)
    requires Run(START, events, capacity).Some?
    requires k < |Run(START, events, capacity).value.channels|
    ensures var s := Run(START, events, capacity).value;
            var c := s.channels[k];
            var n := EndOf(s.handled, c.since, c.owner);
            && c.since < n
            && (NeverFull(START, events, capacity, k) <==> forall i :: 0 <= i < |c.ops| ==> !c.ops[i].Dropped?)
            && (NeverFull(START, events, capacity, k) ==>
                  SentChunks(c.ops) == ChunksOf(s.handled[c.since..n], c.owner))
  {
    hide Run, ChunksOf, SentChunks, EndOf, NeverFull, Inv;
    StartInv();
    EveryChannel(events, capacity, k);
    RunLoses(START, events, capacity, k);
  }
}
