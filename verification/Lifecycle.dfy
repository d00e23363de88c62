/** What the discipline of the Proxy spares the Processor, whatever is lost between them. */
module Lifecycle {
  import opened Bytes
  import opened Packets
  import opened Frames
  import opened Subsequences
  import opened Proxies
  import opened Processors

  // ---------------------------------------------------------------- discipline

  predicate About(f: Frame, id: uint64) {
    GameFrame(f) && f.connectionId == id
  }

  predicate Follow(f: Frame, g: Frame) {
    About(g, f.connectionId) && GameFrame(f) ==>
      g.frameType != FRAME_TYPE_CONN_OPEN && f.frameType != FRAME_TYPE_CONN_CLOSE
  }

  /** No frame of a connection comes before its Open or after its Close. */
  ghost predicate Disciplined(frames: seq<Frame>) {
    forall i, j :: 0 <= i < j < |frames| ==> Follow(frames[i], frames[j])
  }

  /** What reaches the Processor of a trace: some of its frames, in order, among frames that are not about a
      connection. */
  ghost predicate Disturbed(frames: seq<Frame>, trace: seq<Frame>) {
    exists at: seq<int> :: Places(frames, trace, at)
  }

  ghost predicate Places(frames: seq<Frame>, trace: seq<Frame>, at: seq<int>) {
    && |at| == |frames|
    && (forall i :: 0 <= i < |frames| && GameFrame(frames[i]) ==> 0 <= at[i] < |trace| && trace[at[i]] == frames[i])
    && (forall i, j :: 0 <= i < j < |frames| && GameFrame(frames[i]) && GameFrame(frames[j]) ==> at[i] < at[j])
  }

  lemma DisturbedDisciplined(frames: seq<Frame>, trace: seq<Frame>)
    requires Disciplined(trace) && Disturbed(frames, trace)
    ensures Disciplined(frames)
  {
    var at :| Places(frames, trace, at);
    forall i, j | 0 <= i < j < |frames| ensures Follow(frames[i], frames[j]) {
      if GameFrame(frames[i]) && GameFrame(frames[j]) {
        assert Follow(trace[at[i]], trace[at[j]]);
      }
    }
  }

  lemma LostDisturbed(frames: seq<Frame>, trace: seq<Frame>)
    requires Subsequence(frames, trace)
    ensures Disturbed(frames, trace)
  {
    var at: seq<nat> :| Positions(at, |trace|) && Pick(trace, at) == frames;
    var at': seq<int> := at;
    assert Places(frames, trace, at');
  }

  // --- the Proxy is disciplined

  lemma {:induction false} Member(frames: seq<Frame>, id: uint64, i: nat)
    requires i < |frames| && frames[i].connectionId == id
    ensures exists j :: 0 <= j < |FramesOf(frames, id)| && FramesOf(frames, id)[j] == frames[i]
  {
    var last := |frames| - 1;
    var before := FramesOf(frames[..last], id);
    if i == last {
      assert FramesOf(frames, id)[|before|] == frames[i];
    } else {
      Member(frames[..last], id, i);
      var j :| 0 <= j < |before| && before[j] == frames[..last][i];
      assert FramesOf(frames, id)[j] == frames[i];
    }
  }

  lemma LifePrefix(frames: seq<Frame>, f: Frame)
    requires PartOfLife(frames + [f])
    ensures PartOfLife(frames)
    ensures forall g <- frames :: f.frameType != FRAME_TYPE_CONN_OPEN && g.frameType != FRAME_TYPE_CONN_CLOSE
  {
    var all := frames + [f];
    assert all[..|all| - 1] == frames;
    if Opened(all) && frames != [] {
      assert all[1..] == frames[1..] + [f];
      assert frames[1..] == all[1..][..|frames| - 1];
      assert f == all[1..][|frames| - 1];
    }
    if frames != [] {
      assert Opened(frames);
      forall i | 0 <= i < |frames| ensures frames[i].frameType != FRAME_TYPE_CONN_CLOSE {
        if i > 0 { assert frames[i] == frames[1..][i - 1]; }
      }
    }
  }

  lemma {:induction false} LivesDisciplined(frames: seq<Frame>)
    requires forall id :: PartOfLife(FramesOf(frames, id))
    ensures Disciplined(frames)
  {
    if frames == [] {
    } else {
      var last := |frames| - 1;
      var before, f := frames[..last], frames[last];
      assert frames == before + [f];
      forall id ensures PartOfLife(FramesOf(before, id)) {
        FramesOfSnoc(before, f, id);
        if f.connectionId == id { LifePrefix(FramesOf(before, id), f); }
        else { assert FramesOf(before, id) + [] == FramesOf(before, id); }
      }
      LivesDisciplined(before);
      forall i | 0 <= i < last ensures Follow(frames[i], f) {
        var id := f.connectionId;
        if frames[i].connectionId == id {
          FramesOfSnoc(before, f, id);
          LifePrefix(FramesOf(before, id), f);
          Member(before, id, i);
          assert frames[i] in FramesOf(before, id);
        }
      }
      forall i, j | 0 <= i < j < |frames| ensures Follow(frames[i], frames[j]) {
        if j < last { assert Follow(before[i], before[j]); }
      }
    }
  }

  // ---------------------------------------------------------------- the Processor under discipline

  predicate Heard(frames: seq<Frame>, id: uint64) {
    exists i :: 0 <= i < |frames| && About(frames[i], id)
  }

  /** A Close of id was handled. */
  predicate Hung(frames: seq<Frame>, id: uint64) {
    exists i :: 0 <= i < |frames| && About(frames[i], id) && frames[i].frameType == FRAME_TYPE_CONN_CLOSE
  }

  lemma HeardSnoc(frames: seq<Frame>, f: Frame, id: uint64)
    ensures Heard(frames + [f], id) <==> Heard(frames, id) || About(f, id)
    ensures Hung(frames + [f], id) <==> Hung(frames, id) || (About(f, id) && f.frameType == FRAME_TYPE_CONN_CLOSE)
  {
    var all := frames + [f];
    assert all[|frames|] == f;
    assert forall i :: 0 <= i < |frames| ==> all[i] == frames[i];
  }

  /** A disciplined frame is not late, and an Open is the first of its connection. */
  lemma LastDisciplined(frames: seq<Frame>, f: Frame)
    requires Disciplined(frames + [f])
    ensures Disciplined(frames)
    ensures GameFrame(f) ==> !Hung(frames, f.connectionId)
    ensures f.frameType == FRAME_TYPE_CONN_OPEN ==> !Heard(frames, f.connectionId)
  {
    var all := frames + [f];
    forall i, j | 0 <= i < j < |frames| ensures Follow(frames[i], frames[j]) {
      assert Follow(all[i], all[j]);
    }
    forall i | 0 <= i < |frames| ensures Follow(frames[i], f) {
      assert Follow(all[i], all[|frames|]);
    }
  }

  /** No worker was ever displaced, and a live one has been heard of and not hung up. */
  ghost predicate Protected(s: Processors.State) {
    && !s.displaced
    && forall id <- s.workers :: Heard(s.handled, id) && !Hung(s.handled, id)
  }

  lemma NextProtected(s: Processors.State, e: Processors.Event, capacity: nat)
    requires Protected(s) && Processors.Enabled(s, e)
    requires Disciplined(Processors.Next(s, e, capacity).handled)
    ensures Protected(Processors.Next(s, e, capacity))
  {
    if e.Handle? {
      LastDisciplined(s.handled, e.frame);
      var s' := Processors.Next(s, e, capacity);
      hide Heard, Hung, Disciplined;
      forall id <- s'.workers ensures Heard(s'.handled, id) && !Hung(s'.handled, id) {
        HeardSnoc(s.handled, e.frame, id);
      }
    }
  }

  lemma {:induction false} RunProtected(s: Processors.State, events: seq<Processors.Event>, capacity: nat)
    requires Protected(s) && Processors.Run(s, events, capacity).Some?
    requires Disciplined(Processors.Run(s, events, capacity).value.handled)
    ensures Protected(Processors.Run(s, events, capacity).value)
    decreases |events|
  {
    if events == [] {
    } else {
      var next := Processors.Next(s, events[0], capacity);
      EarlierDisciplined(next, events[1..], capacity);
      NextProtected(s, events[0], capacity);
      hide Protected, Disciplined, Processors.Next, Processors.Enabled;
      RunProtected(next, events[1..], capacity);
    }
  }

  lemma {:induction false} EarlierDisciplined(s: Processors.State, events: seq<Processors.Event>, capacity: nat)
    requires Processors.Run(s, events, capacity).Some?
    requires Disciplined(Processors.Run(s, events, capacity).value.handled)
    ensures Disciplined(s.handled)
    decreases |events|
  {
    if events == [] {
    } else {
      var next := Processors.Next(s, events[0], capacity);
      EarlierDisciplined(next, events[1..], capacity);
      if events[0].Handle? {
        LastDisciplined(s.handled, events[0].frame);
      }
    }
  }

  /** The frames of a Proxy, any of them lost and disconnects anywhere in between, make the Processor displace no
      worker, make none after its Close was handled, and forget no channel open. */
  lemma ProxyProtects(
    proxy: seq<Proxies.Event>, events: seq<Processors.Event>, capacity: nat)
    requires Proxies.Run(Proxies.START, proxy).Some?
    requires Processors.Run(Processors.START, events, capacity).Some?
    requires Disturbed(Processors.Run(Processors.START, events, capacity).value.handled,
                       Proxies.Run(Proxies.START, proxy).value.frames)
    ensures var s := Processors.Run(Processors.START, events, capacity).value;
            && !s.displaced
            && (forall i :: 0 <= i < |s.handled| && s.handled[i].frameType == FRAME_TYPE_CONN_CLOSE ==>
                  s.handled[i].connectionId !in s.workers)
            && (forall k :: 0 <= k < |s.channels| ==> Serves(s.workers, s.channels, k) || s.channels[k].IsClosed())
  {
    var trace := Proxies.Run(Proxies.START, proxy).value.frames;
    var s := Processors.Run(Processors.START, events, capacity).value;
    Proxies.EveryRun(proxy);
    LivesDisciplined(trace);
    DisturbedDisciplined(s.handled, trace);
    assert Protected(Processors.START);
    RunProtected(Processors.START, events, capacity);
    Processors.EveryRun(events, capacity);
    hide Proxies.Run, Processors.Run;
    forall i | 0 <= i < |s.handled| && s.handled[i].frameType == FRAME_TYPE_CONN_CLOSE
      ensures s.handled[i].connectionId !in s.workers
    {
      assert About(s.handled[i], s.handled[i].connectionId);
    }
    forall k: nat | k < |s.channels| ensures Serves(s.workers, s.channels, k) || s.channels[k].IsClosed() {
      assert Kept(s, k);
    }
  }

  // ---------------------------------------------------------------- one worker for each connection

  /** The channel was offered all the data frames of its connection. */
  ghost predicate FullyOffered(s: Processors.State, k: nat) {
    k < |s.channels| && Heard(s.handled, s.channels[k].owner)
    && OfferedChunks(s.channels[k].ops) == ChunksOf(s.handled, s.channels[k].owner)
  }

  ghost predicate Reachable(s: Processors.State, id: uint64) {
    Heard(s.handled, id) && !Hung(s.handled, id) ==> id in s.workers
  }

  /** While only frames about connections arrive: each connection heard of has one channel, offered all its data. */
  ghost predicate OneEach(s: Processors.State) {
    && (forall k :: 0 <= k < |s.channels| ==> FullyOffered(s, k))
    && (forall j, k :: 0 <= j < k < |s.channels| ==> s.channels[j].owner != s.channels[k].owner)
    && (!s.cleanedUp ==> forall id :: Reachable(s, id))
  }

  lemma {:induction false} NotHeard(frames: seq<Frame>, id: uint64)
    requires !Heard(frames, id)
    ensures ChunksOf(frames, id) == []
  {
    if frames == [] {
    } else {
      var last := |frames| - 1;
      assert frames == frames[..last] + [frames[last]];
      HeardSnoc(frames[..last], frames[last], id);
      NotHeard(frames[..last], id);
    }
  }

  /** The channels other than that of the frame are offered nothing, and go on being whole. */
  lemma OtherOffered(s: Processors.State, f: Frame, s': Processors.State, k: nat)
    requires FullyOffered(s, k) && k < |s'.channels| && s'.handled == s.handled + [f]
    requires s'.channels[k].owner == s.channels[k].owner
    requires OfferedChunks(s'.channels[k].ops) == OfferedChunks(s.channels[k].ops) +
               if f.frameType == FRAME_TYPE_DATA && f.connectionId == s.channels[k].owner then [f.ToRawChunk()] else []
    ensures FullyOffered(s', k)
  {
    HeardSnoc(s.handled, f, s.channels[k].owner);
    ChunksOfSnoc(s.handled, f, s.channels[k].owner);
  }

  lemma StillReachable(s: Processors.State, f: Frame, s': Processors.State)
    requires forall id :: Reachable(s, id)
    requires s'.handled == s.handled + [f] && GameFrame(f)
    requires forall id <- s.workers ::
               id in s'.workers || (id == f.connectionId && f.frameType == FRAME_TYPE_CONN_CLOSE)
    requires f.frameType != FRAME_TYPE_CONN_CLOSE ==> f.connectionId in s'.workers
    ensures forall id :: Reachable(s', id)
  {
    forall id ensures Reachable(s', id) {
      HeardSnoc(s.handled, f, id);
      assert Reachable(s, id);
    }
  }

  lemma FreshOwner(s: Processors.State, id: uint64)
    requires OneEach(s) && !Heard(s.handled, id)
    ensures forall k :: 0 <= k < |s.channels| ==> s.channels[k].owner != id
  {
    forall k | 0 <= k < |s.channels| ensures s.channels[k].owner != id {
      assert FullyOffered(s, k);
    }
  }

  /** A connection heard of for the first time gets its channel. */
  lemma MakeOneEach(s: Processors.State, f: Frame)
    requires OneEach(s) && !Heard(s.handled, f.connectionId)
    ensures var m := Make(s, f);
            && (forall k :: 0 <= k < |s.channels| ==> m.channels[k] == s.channels[k] && FullyOffered(s, k))
            && (forall j, k :: 0 <= j < k < |m.channels| ==> m.channels[j].owner != m.channels[k].owner)
            && |m.channels| == |s.channels| + 1 && m.channels[|s.channels|].ops == []
            && m.channels[|s.channels|].owner == f.connectionId
            && ChunksOf(s.handled, f.connectionId) == []
  {
    FreshOwner(s, f.connectionId);
    NotHeard(s.handled, f.connectionId);
  }

  lemma OpenOneEach(s: Processors.State, f: Frame, capacity: nat)
    requires OneEach(s) && !s.cleanedUp && f.frameType == FRAME_TYPE_CONN_OPEN
    requires Disciplined(s.handled + [f])
    ensures OneEach(HandleFrame(s, f, capacity))
  {
    var s' := HandleFrame(s, f, capacity);
    LastDisciplined(s.handled, f);
    MakeOneEach(s, f);
    StillReachable(s, f, s');
    hide Disciplined, Reachable;
    forall k: nat | k < |s'.channels| ensures FullyOffered(s', k) {
      if k < |s.channels| {
        assert OfferedChunks(s.channels[k].ops) + [] == OfferedChunks(s.channels[k].ops);
        OtherOffered(s, f, s', k);
      } else {
        HeardSnoc(s.handled, f, f.connectionId);
        ChunksOfSnoc(s.handled, f, f.connectionId);
      }
    }
  }

  lemma CloseOneEach(s: Processors.State, f: Frame, capacity: nat)
    requires OneEach(s) && OpenAndOwn(s) && AllSane(s) && !s.cleanedUp && f.frameType == FRAME_TYPE_CONN_CLOSE
    ensures OneEach(HandleFrame(s, f, capacity))
  {
    var s' := HandleFrame(s, f, capacity);
    var id := f.connectionId;
    if id in s.workers { assert Owns(s, id); }
    StillReachable(s, f, s');
    hide Reachable;
    forall k: nat | k < |s'.channels| ensures FullyOffered(s', k) && s'.channels[k].owner == s.channels[k].owner {
      assert FullyOffered(s, k);
      OpsSnoc(s.channels[k].ops, Closed);
      hide OfferedChunks, Heard;
      assert OfferedChunks(s.channels[k].ops) + [] == OfferedChunks(s.channels[k].ops);
      OtherOffered(s, f, s', k);
    }
  }

  predicate Unshared(m: Processors.State) {
    forall j, k :: 0 <= j < k < |m.channels| ==> m.channels[j].owner != m.channels[k].owner
  }

  /** Delivering offers the chunk to the channel of the connection and to no other. */
  lemma DeliverOffers(m: Processors.State, f: Frame, capacity: nat, k: nat)
    requires Owns(m, f.connectionId) && Unshared(m) && k < |m.channels|
    ensures var d := Deliver(m, f, capacity);
            && |d.channels| == |m.channels| && d.channels[k].owner == m.channels[k].owner
            && OfferedChunks(d.channels[k].ops) == OfferedChunks(m.channels[k].ops) +
                 if m.channels[k].owner == f.connectionId then [f.ToRawChunk()] else []
  {
    hide OfferedChunks, Channel.Offer;
    OfferOne(m.channels[m.workers[f.connectionId]], f.ToRawChunk(), capacity);
    assert OfferedChunks(m.channels[k].ops) + [] == OfferedChunks(m.channels[k].ops);
  }

  function Served(s: Processors.State, f: Frame): Processors.State {
    if f.connectionId in s.workers then s else Make(s, f)
  }

  /** Channel k after a worker was made for f if there was none. */
  ghost predicate ServedChannel(s: Processors.State, f: Frame, k: nat) {
    var m := Served(s, f);
    k < |m.channels| &&
    if k < |s.channels| then m.channels[k] == s.channels[k] && FullyOffered(s, k)
    else m.channels[k].owner == f.connectionId && m.channels[k].ops == [] && ChunksOf(s.handled, f.connectionId) == []
  }

  lemma ServedIsReady(s: Processors.State, f: Frame)
    requires OneEach(s) && OpenAndOwn(s) && !s.cleanedUp && f.frameType == FRAME_TYPE_DATA
    requires Disciplined(s.handled + [f])
    ensures var m := Served(s, f);
            && Owns(m, f.connectionId) && Unshared(m) && |m.channels| >= |s.channels| && |m.channels| > 0
            && (forall id <- s.workers :: id in m.workers)
            && (forall k :: 0 <= k < |m.channels| ==> ServedChannel(s, f, k))
  {
    LastDisciplined(s.handled, f);
    assert Reachable(s, f.connectionId);
    hide Reachable, Heard, Hung, Disciplined, OfferedChunks, ChunksOf;
    if f.connectionId in s.workers {
      assert Owns(s, f.connectionId);
    } else {
      MakeOneEach(s, f);
    }
  }

  lemma DataReachable(s: Processors.State, f: Frame, capacity: nat)
    requires (forall id :: Reachable(s, id)) && f.frameType == FRAME_TYPE_DATA
    ensures forall id :: Reachable(HandleFrame(s, f, capacity), id)
  {
    hide Reachable, Channel.Offer;
    StillReachable(s, f, HandleFrame(s, f, capacity));
  }

  lemma DataOneEach(s: Processors.State, f: Frame, capacity: nat)
    requires OneEach(s) && OpenAndOwn(s) && !s.cleanedUp && f.frameType == FRAME_TYPE_DATA
    requires Disciplined(s.handled + [f])
    ensures OneEach(HandleFrame(s, f, capacity))
  {
    hide Disciplined, OpenAndOwn, Owns, Reachable, FullyOffered, Served, ServedChannel, HandleFrame;
    var m, s' := Served(s, f), HandleFrame(s, f, capacity);
    ServedIsReady(s, f);
    DataOffered(s, f, capacity, 0);
    DataReachable(s, f, capacity);
    forall k: nat | k < |m.channels|
      ensures FullyOffered(s', k) && s'.channels[k].owner == m.channels[k].owner && |s'.channels| == |m.channels|
    {
      DataOffered(s, f, capacity, k);
    }
  }

  lemma DataOffered(s: Processors.State, f: Frame, capacity: nat, k: nat)
    requires f.frameType == FRAME_TYPE_DATA
    requires Owns(Served(s, f), f.connectionId) && Unshared(Served(s, f)) && ServedChannel(s, f, k)
    ensures var s' := HandleFrame(s, f, capacity);
            FullyOffered(s', k) && s'.channels[k].owner == Served(s, f).channels[k].owner
              && |s'.channels| == |Served(s, f).channels|
  {
    var s' := HandleFrame(s, f, capacity);
    DeliverOffers(Served(s, f), f, capacity, k);
    assert s' == Deliver(Served(s, f), f, capacity).(handled := s.handled + [f]);
    hide Deliver, Heard, Owns, Unshared;
    if k < |s.channels| {
      OtherOffered(s, f, s', k);
    } else {
      HeardSnoc(s.handled, f, f.connectionId);
      ChunksOfSnoc(s.handled, f, f.connectionId);
    }
  }

  /** Steps that change neither what channels were offered, nor whose they are, nor the frames. */
  lemma SameOneEach(s: Processors.State, s': Processors.State)
    requires OneEach(s) && s'.handled == s.handled && |s'.channels| == |s.channels|
    requires forall k :: 0 <= k < |s.channels| ==> SameOffers(s.channels[k], s'.channels[k])
    requires s'.cleanedUp || (s'.workers == s.workers && !s.cleanedUp)
    ensures OneEach(s')
  {
    hide OfferedChunks, ChunksOf, Heard, Hung;
    forall k: nat | k < |s.channels| ensures FullyOffered(s', k) && s'.channels[k].owner == s.channels[k].owner {
      assert FullyOffered(s, k) && SameOffers(s.channels[k], s'.channels[k]);
    }
    if !s'.cleanedUp {
      forall id ensures Reachable(s', id) {
        assert Reachable(s, id);
      }
    }
  }

  predicate SameOffers(c: Channel, c': Channel) {
    c'.owner == c.owner && OfferedChunks(c'.ops) == OfferedChunks(c.ops)
  }

  lemma NextOneEach(s: Processors.State, e: Processors.Event, capacity: nat)
    requires Processors.Inv(s) && OneEach(s) && Processors.Enabled(s, e)
    requires e.Handle? ==> GameFrame(e.frame) && Disciplined(s.handled + [e.frame])
    ensures OneEach(Processors.Next(s, e, capacity))
  {
    var s' := Processors.Next(s, e, capacity);
    if e.Handle? {
      hide OneEach, OpenAndOwn, AllSane, Disciplined;
      if e.frame.frameType == FRAME_TYPE_CONN_OPEN { OpenOneEach(s, e.frame, capacity); }
      else if e.frame.frameType == FRAME_TYPE_CONN_CLOSE { CloseOneEach(s, e.frame, capacity); }
      else { DataOneEach(s, e.frame, capacity); }
    } else if e.CleanUp? {
      forall k: nat | k < |s.channels| ensures SameOffers(s.channels[k], s'.channels[k]) {
        OpsSnoc(s.channels[k].ops, Closed);
        assert OfferedChunks(s.channels[k].ops) + [] == OfferedChunks(s.channels[k].ops);
      }
      hide SameOffers, OneEach;
      SameOneEach(s, s');
    } else {
      WorkerEventChannels(s, e, capacity);
      hide OneEach, Processors.Next, OfferedChunks;
      forall k: nat | k < |s.channels| ensures SameOffers(s.channels[k], s'.channels[k]) {
        assert SameUse(s.channels[k], s'.channels[k]);
      }
      SameOneEach(s, s');
    }
  }

  lemma {:induction false} RunOneEach(s: Processors.State, events: seq<Processors.Event>, capacity: nat)
    requires Processors.Inv(s) && OneEach(s) && Processors.Run(s, events, capacity).Some?
    requires Disciplined(Processors.Run(s, events, capacity).value.handled)
    requires forall f <- Processors.Run(s, events, capacity).value.handled :: GameFrame(f)
    ensures OneEach(Processors.Run(s, events, capacity).value)
    decreases |events|
  {
    if events == [] {
    } else {
      var e, later := events[0], events[1..];
      var next := Processors.Next(s, e, capacity);
      EarlierDisciplined(next, later, capacity);
      EarlierHandled(next, later, capacity);
      assert e.Handle? ==> next.handled == s.handled + [e.frame] && e.frame in next.handled;
      hide Processors.Inv, OneEach, Disciplined, Processors.Next, Processors.Enabled;
      Processors.NextInv(s, e, capacity);
      NextOneEach(s, e, capacity);
      RunOneEach(next, later, capacity);
    }
  }

  lemma {:induction false} EarlierHandled(s: Processors.State, events: seq<Processors.Event>, capacity: nat)
    requires Processors.Run(s, events, capacity).Some?
    ensures s.handled <= Processors.Run(s, events, capacity).value.handled
    decreases |events|
  {
    if events == [] {
    } else {
      var next := Processors.Next(s, events[0], capacity);
      assert s.handled <= next.handled;
      hide Processors.Next, Processors.Enabled;
      EarlierHandled(next, events[1..], capacity);
    }
  }

  /** Disciplined frames about connections make one worker for each connection, offered all its data frames. */
  lemma OneWorkerEach(events: seq<Processors.Event>, capacity: nat, k: nat)
    requires Processors.Run(Processors.START, events, capacity).Some?
    requires var s := Processors.Run(Processors.START, events, capacity).value;
             k < |s.channels| && Disciplined(s.handled) && forall f <- s.handled :: GameFrame(f)
    ensures var s := Processors.Run(Processors.START, events, capacity).value;
            && (forall j :: 0 <= j < |s.channels| && j != k ==> s.channels[j].owner != s.channels[k].owner)
            && OfferedChunks(s.channels[k].ops) == ChunksOf(s.handled, s.channels[k].owner)
            && (exists i :: 0 <= i < |s.handled| && About(s.handled[i], s.channels[k].owner))
  {
    Processors.StartInv();
    assert OneEach(Processors.START);
    RunOneEach(Processors.START, events, capacity);
    var s := Processors.Run(Processors.START, events, capacity).value;
    hide Processors.Run, Disciplined, OfferedChunks, ChunksOf;
    assert FullyOffered(s, k);
  }
}
