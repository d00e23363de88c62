/** The queue of API requests and its one consumer (internal/common/api.go). */
module ApiQueue {
  import opened Bytes
  import opened Packets

  const MAX_RETRIES := 100

  /** id tells requests apart; marshals whether json.Marshal accepts the payload. */
  datatype Request = Request(id: nat, marshals: bool, retries: uint32)

  /** The request the consumer has taken: just popped, or being sent. */
  datatype Hand = Empty | Popped(request: Request) | Sending(request: Request)

  /** pushed requests have ids 0, 1, ...; rejections[id] counts the responses to request id that were not 2xx, and
      marshals[id] records whether its payload can be marshalled. */
  datatype State = State(
    queue: seq<Request>, hand: Hand, delivered: seq<nat>, abandoned: seq<nat>, unmarshalled: seq<nat>,
    pushed: nat, rejections: seq<nat>, marshals: seq<bool>)

  const START := State([], Empty, [], [], [], 0, [], [])

  datatype Event =
    | Push(marshals: bool)   // SendToAPI
    | Pop
    | Abandon                // too many retries
    | Unmarshalled
    | Begin                  // sendRequest enters its loop
    | TransportError         // no request or no response: the loop goes on
    | Accepted(code: int)    // a response of status 2xx
    | Rejected(code: int)    // of any other status: back to the end of the queue

  predicate IsSuccess(code: int) {
    200 <= code < 300
  }

  predicate Enabled(s: State, e: Event) {
    match e
    case Push(_) => true
    case Pop => s.hand.Empty? && s.queue != []
    case Abandon => s.hand.Popped? && s.hand.request.retries >= MAX_RETRIES
    case Unmarshalled => s.hand.Popped? && s.hand.request.retries < MAX_RETRIES && !s.hand.request.marshals
    case Begin => s.hand.Popped? && s.hand.request.retries < MAX_RETRIES && s.hand.request.marshals
    case TransportError => s.hand.Sending?
    case Accepted(code) => s.hand.Sending? && IsSuccess(code)
    case Rejected(code) =>
      && s.hand.Sending? && !IsSuccess(code)
      && s.hand.request.retries + 1 < TWO_TO_THE_32 && s.hand.request.id < |s.rejections|
  }

  function Next(s: State, e: Event): State
    requires Enabled(s, e)
  {
    match e
    case Push(marshals) =>
      s.(queue := s.queue + [Request(s.pushed, marshals, 0)], pushed := s.pushed + 1,
         rejections := s.rejections + [0], marshals := s.marshals + [marshals])
    case Pop => s.(hand := Popped(s.queue[0]), queue := s.queue[1..])
    case Abandon => s.(hand := Empty, abandoned := s.abandoned + [s.hand.request.id])
    case Unmarshalled => s.(hand := Empty, unmarshalled := s.unmarshalled + [s.hand.request.id])
    case Begin => s.(hand := Sending(s.hand.request))
    case TransportError => s
    case Accepted(_) => s.(hand := Empty, delivered := s.delivered + [s.hand.request.id])
    case Rejected(_) =>
      var r := s.hand.request;
      s.(hand := Empty, queue := s.queue + [r.(retries := r.retries + 1)],
         rejections := s.rejections[r.id := s.rejections[r.id] + 1])
  }

  function Run(s: State, events: seq<Event>): Option<State>
    decreases |events|
  {
    if events == [] then Some(s)
    else if Enabled(s, events[0]) then Run(Next(s, events[0]), events[1..])
    else None
  }

  // ---------------------------------------------------------------- no request is lost or duplicated

  function Ids(queue: seq<Request>): seq<nat> {
    if queue == [] then [] else [queue[0].id] + Ids(queue[1..])
  }

  lemma {:induction false} IdsAppend(a: seq<Request>, b: seq<Request>)
    ensures Ids(a + b) == Ids(a) + Ids(b)
  {
    if a == [] {
      assert a + b == b;
    } else {
      assert (a + b)[0] == a[0] && (a + b)[1..] == a[1..] + b;
      IdsAppend(a[1..], b);
    }
  }

  function InHand(hand: Hand): seq<nat> {
    if hand.Empty? then [] else [hand.request.id]
  }

  /** Where every request is. */
  function Places(s: State): multiset<nat> {
    multiset(Ids(s.queue)) + multiset(InHand(s.hand)) + multiset(s.delivered) + multiset(s.abandoned)
    + multiset(s.unmarshalled)
  }

  function Everyone(n: nat): multiset<nat> {
    if n == 0 then multiset{} else Everyone(n - 1) + multiset{n - 1}
  }

  lemma {:induction false} EveryoneOnce(n: nat, id: nat)
    ensures Everyone(n)[id] == if id < n then 1 else 0
  {
    if n == 0 {
    } else {
      EveryoneOnce(n - 1, id);
    }
  }

  /** Moving a request between two places: the sum is the same. */
  lemma Moved(a: multiset<nat>, b: multiset<nat>, c: multiset<nat>, d: multiset<nat>, e: multiset<nat>,
              x: multiset<nat>)
    ensures a + x + b + c + d + e == a + b + c + d + e + x
    ensures a + (b + x) + c + d + e == a + b + c + d + e + x
    ensures a + b + (c + x) + d + e == a + b + c + d + e + x
    ensures a + b + c + (d + x) + e == a + b + c + d + e + x
    ensures a + b + c + d + (e + x) == a + b + c + d + e + x
  {
  }

  lemma Snoc(ids: seq<nat>, id: nat)
    ensures multiset(ids + [id]) == multiset(ids) + multiset{id}
    ensures multiset([id] + ids) == multiset(ids) + multiset{id}
  {
  }

  lemma NextPlaces(s: State, e: Event)
    requires Enabled(s, e)
    ensures Places(Next(s, e)) == Places(s) + if e.Push? then multiset{s.pushed} else multiset{}
  {
    var queued, hand := multiset(Ids(s.queue)), multiset(InHand(s.hand));
    var delivered, abandoned, lost := multiset(s.delivered), multiset(s.abandoned), multiset(s.unmarshalled);
    var none := multiset{};
    assert Places(s) + none == Places(s);
    if e.Push? {
      var r := Request(s.pushed, e.marshals, 0);
      IdsAppend(s.queue, [r]);
      assert Ids([r]) == [s.pushed];
      Snoc(Ids(s.queue), s.pushed);
      hide Ids;
      Moved(queued, hand, delivered, abandoned, lost, multiset{s.pushed});
    } else if e.Pop? {
      var id := s.queue[0].id;
      assert Ids(s.queue) == [id] + Ids(s.queue[1..]);
      Snoc(Ids(s.queue[1..]), id);
      assert InHand(Popped(s.queue[0])) == [id] && multiset([id]) == none + multiset{id};
      hide Ids;
      Moved(multiset(Ids(s.queue[1..])), none, delivered, abandoned, lost, multiset{id});
    } else if !e.Begin? && !e.TransportError? {
      HandPlaces(s, e);
    }
  }

  lemma HandPlaces(s: State, e: Event)
    requires Enabled(s, e) && (e.Abandon? || e.Unmarshalled? || e.Accepted? || e.Rejected?)
    ensures Places(Next(s, e)) == Places(s)
  {
    var id := s.hand.request.id;
    var queued, none := multiset(Ids(s.queue)), multiset{};
    var delivered, abandoned, lost := multiset(s.delivered), multiset(s.abandoned), multiset(s.unmarshalled);
    assert InHand(s.hand) == [id] && multiset([id]) == none + multiset{id} && multiset(InHand(Empty)) == none;
    Moved(queued, none, delivered, abandoned, lost, multiset{id});
    if e.Rejected? {
      var r := s.hand.request.(retries := s.hand.request.retries + 1);
      IdsAppend(s.queue, [r]);
      assert Ids([r]) == [id];
      Snoc(Ids(s.queue), id);
    } else if e.Abandon? {
      Snoc(s.abandoned, id);
    } else if e.Unmarshalled? {
      Snoc(s.unmarshalled, id);
    } else {
      Snoc(s.delivered, id);
    }
    hide Ids;
  }

  // ---------------------------------------------------------------- retries

  /** A request has been rejected as often as it was retried, and at most a hundred times. */
  predicate Counted(s: State, r: Request) {
    r.id < |s.rejections| && s.rejections[r.id] == r.retries <= MAX_RETRIES
  }

  ghost predicate Inv(s: State) {
    && |s.rejections| == s.pushed && Places(s) == Everyone(s.pushed)
    && (forall i :: 0 <= i < |s.queue| ==> Counted(s, s.queue[i]))
    && (!s.hand.Empty? ==> Counted(s, s.hand.request))
    && (s.hand.Sending? ==> s.hand.request.retries < MAX_RETRIES)
    && (forall id :: 0 <= id < |s.rejections| ==> s.rejections[id] <= MAX_RETRIES)
  }

  lemma {:induction false} IdsMember(queue: seq<Request>, i: nat)
    requires i < |queue|
    ensures queue[i].id in multiset(Ids(queue))
  {
    if i == 0 {
    } else {
      IdsMember(queue[1..], i - 1);
    }
  }

  /** The request in hand is not queued as well. */
  lemma NotTwice(s: State, i: nat)
    requires Places(s) == Everyone(s.pushed) && !s.hand.Empty? && i < |s.queue|
    ensures s.queue[i].id != s.hand.request.id
  {
    var id := s.hand.request.id;
    EveryoneOnce(s.pushed, id);
    IdsMember(s.queue, i);
    assert multiset(InHand(s.hand))[id] == 1;
    assert Places(s)[id] == 1;
    hide Ids;
    if s.queue[i].id == id {
      assert false;
    }
  }

  ghost predicate AllCounted(s: State) {
    && (forall i :: 0 <= i < |s.queue| ==> Counted(s, s.queue[i]))
    && (!s.hand.Empty? ==> Counted(s, s.hand.request))
    && (forall id :: 0 <= id < |s.rejections| ==> s.rejections[id] <= MAX_RETRIES)
  }

  lemma PushCounted(s: State, e: Event)
    requires AllCounted(s) && e.Push? && |s.rejections| == s.pushed
    ensures AllCounted(Next(s, e))
  {
    var s' := Next(s, e);
    forall i | 0 <= i < |s'.queue| ensures Counted(s', s'.queue[i]) {
      if i < |s.queue| { assert Counted(s, s.queue[i]); }
    }
  }

  lemma RejectedCounted(s: State, e: Event)
    requires Inv(s) && AllCounted(s) && e.Rejected? && Enabled(s, e)
    ensures AllCounted(Next(s, e))
  {
    hide Places, Everyone;
    var s' := Next(s, e);
    forall i | 0 <= i < |s'.queue| ensures Counted(s', s'.queue[i]) {
      if i < |s.queue| {
        NotTwice(s, i);
        assert Counted(s, s.queue[i]);
      }
    }
  }

  /** Whatever is queued or in hand is still counted. */
  lemma NextCounted(s: State, e: Event)
    requires Inv(s) && Enabled(s, e)
    ensures AllCounted(Next(s, e))
  {
    hide Places, Everyone;
    assert AllCounted(s);
    if e.Push? {
      PushCounted(s, e);
    } else if e.Rejected? {
      RejectedCounted(s, e);
    } else if e.Pop? {
      assert Counted(s, s.queue[0]);
      hide Counted;
      var s' := Next(s, e);
      forall i | 0 <= i < |s'.queue| ensures Counted(s', s'.queue[i]) {
        assert Counted(s, s.queue[i + 1]);
        StillCounted(s, s', s.queue[i + 1]);
      }
      StillCounted(s, s', s.queue[0]);
    }
  }

  lemma StillCounted(s: State, s': State, r: Request)
    requires Counted(s, r) && s'.rejections == s.rejections
    ensures Counted(s', r)
  {
  }

  lemma NextInv(s: State, e: Event)
    requires Inv(s) && Enabled(s, e)
    ensures Inv(Next(s, e))
  {
    hide Places, Everyone, Counted;
    NextPlaces(s, e);
    NextCounted(s, e);
    PushedOne(s, e);
  }

  lemma PushedOne(s: State, e: Event)
    requires Places(s) == Everyone(s.pushed) && Enabled(s, e)
    ensures Places(s) + (if e.Push? then multiset{s.pushed} else multiset{}) == Everyone(Next(s, e).pushed)
  {
    hide Places;
  }

  lemma {:induction false} RunInv(s: State, events: seq<Event>)
    requires Inv(s) && Run(s, events).Some?
    ensures Inv(Run(s, events).value)
    decreases |events|
  {
    if events == [] {
    } else {
      NextInv(s, events[0]);
      hide Inv, Next, Enabled;
      RunInv(Next(s, events[0]), events[1..]);
    }
  }

  /** In every run each request pushed is in exactly one place, no request is rejected more than a hundred times, and no
      more than a hundred retries are ever queued. */
  lemma EveryRun(events: seq<Event>, id: nat)
    requires Run(START, events).Some?
    ensures var s := Run(START, events).value;
            && multiset(Ids(s.queue))[id] + multiset(InHand(s.hand))[id] + multiset(s.delivered)[id]
               + multiset(s.abandoned)[id] + multiset(s.unmarshalled)[id] == (if id < s.pushed then 1 else 0)
            && (forall i :: 0 <= i < |s.queue| ==> s.queue[i].retries <= MAX_RETRIES)
            && |s.rejections| == s.pushed && forall i :: 0 <= i < |s.rejections| ==> s.rejections[i] <= MAX_RETRIES
  {
    var s := Run(START, events).value;
    assert Places(START) == Everyone(0);
    RunInv(START, events);
    EveryoneOnce(s.pushed, id);
    assert Places(s)[id] == Everyone(s.pushed)[id];
    hide Run, Ids;
    forall i | 0 <= i < |s.queue| ensures s.queue[i].retries <= MAX_RETRIES {
      assert Counted(s, s.queue[i]);
    }
  }

  // ---------------------------------------------------------------- first tries come in order

  /** Requests that were not tried yet stand in the queue in the order pushed, behind the one in hand. */
  ghost predicate InOrder(s: State) {
    && (forall i, j :: 0 <= i < j < |s.queue| && s.queue[i].retries == 0 && s.queue[j].retries == 0 ==>
          s.queue[i].id < s.queue[j].id)
    && (forall i :: 0 <= i < |s.queue| && s.queue[i].retries == 0 ==>
          && s.queue[i].id < s.pushed
          && (!s.hand.Empty? && s.hand.request.retries == 0 ==> s.hand.request.id < s.queue[i].id))
    && (!s.hand.Empty? ==> s.hand.request.id < s.pushed)
  }

  lemma NextInOrder(s: State, e: Event)
    requires Inv(s) && InOrder(s) && Enabled(s, e)
    ensures InOrder(Next(s, e))
  {
    hide Places, Everyone;
    if e.Pop? { assert Counted(s, s.queue[0]); }
    hide Inv, Counted;
  }

  /** In every run each request that is tried for the first time was pushed before all those that are still to be. */
  lemma {:induction false} FirstTriesInOrder(s: State, events: seq<Event>)
    requires Inv(s) && InOrder(s) && Run(s, events).Some?
    ensures InOrder(Run(s, events).value)
    decreases |events|
  {
    if events == [] {
    } else {
      NextInv(s, events[0]);
      NextInOrder(s, events[0]);
      hide Inv, InOrder, Next, Enabled;
      FirstTriesInOrder(Next(s, events[0]), events[1..]);
    }
  }

  // ---------------------------------------------------------------- which requests are lost

  /** A request carries what was recorded of it when it was pushed. */
  predicate Recorded(s: State, r: Request) {
    r.id < |s.marshals| && r.marshals == s.marshals[r.id]
  }

  /** Rejected requests were marshalled; those abandoned were rejected a hundred times, those delivered less often, and
      those not marshalled never. */
  predicate Fits(s: State, id: nat)
    requires id < |s.rejections| && id < |s.marshals|
  {
    && (s.rejections[id] > 0 ==> s.marshals[id])
    && (id in s.abandoned ==> s.rejections[id] == MAX_RETRIES)
    && (id in s.delivered ==> s.rejections[id] < MAX_RETRIES && s.marshals[id])
    && (id in s.unmarshalled ==> !s.marshals[id])
  }

  ghost predicate Exact(s: State) {
    && |s.rejections| == |s.marshals| == s.pushed
    && (forall i :: 0 <= i < |s.queue| ==> Recorded(s, s.queue[i]))
    && (!s.hand.Empty? ==> Recorded(s, s.hand.request))
    && (s.hand.Sending? ==> s.hand.request.marshals)
    && (forall id: nat :: id < s.pushed ==> Fits(s, id))
  }

  /** What is in hand was neither delivered nor given up, and neither was what is still to be pushed. */
  lemma NotSettled(s: State, id: nat)
    requires Places(s) == Everyone(s.pushed)
    requires id >= s.pushed || (!s.hand.Empty? && s.hand.request.id == id)
    ensures id !in s.delivered && id !in s.abandoned && id !in s.unmarshalled
  {
    EveryoneOnce(s.pushed, id);
    hide Ids, Everyone;
    assert !s.hand.Empty? && s.hand.request.id == id ==> multiset(InHand(s.hand))[id] == 1;
    assert Places(s)[id] == if id < s.pushed then 1 else 0;
    assert multiset(s.delivered)[id] == multiset(s.abandoned)[id] == multiset(s.unmarshalled)[id] == 0;
  }

  /** What Inv says of the request in hand and of the counters. */
  ghost predicate InHandCounted(s: State) {
    && |s.rejections| == s.pushed && (!s.hand.Empty? ==> Counted(s, s.hand.request))
    && (s.hand.Sending? ==> s.hand.request.retries < MAX_RETRIES)
  }

  lemma InvInHand(s: State)
    requires Inv(s)
    ensures InHandCounted(s) && Places(s) == Everyone(s.pushed)
  {
    hide Places, Everyone;
  }

  lemma ExactPush(s: State, e: Event)
    requires Inv(s) && Exact(s) && e.Push?
    ensures Exact(Next(s, e))
  {
    hide Inv, Places, Everyone;
    InvInHand(s);
    NotSettled(s, s.pushed);
    var s' := Next(s, e);
    forall id: nat | id < s'.pushed ensures Fits(s', id) {
      assert id < s.pushed ==> Fits(s, id);
    }
    forall i | 0 <= i < |s'.queue| ensures Recorded(s', s'.queue[i]) {
      assert i < |s.queue| ==> Recorded(s, s.queue[i]);
    }
  }

  lemma ExactNext(s: State, e: Event)
    requires Inv(s) && Exact(s) && Enabled(s, e)
    ensures Exact(Next(s, e))
  {
    hide Inv, Places, Everyone;
    InvInHand(s);
    var s' := Next(s, e);
    if e.Push? {
      ExactPush(s, e);
    } else {
      if !s.hand.Empty? { NotSettled(s, s.hand.request.id); }
      forall id: nat | id < s'.pushed ensures Fits(s', id) {
        assert Fits(s, id);
      }
      forall i | 0 <= i < |s'.queue| ensures Recorded(s', s'.queue[i]) {
        assert e.Pop? ==> Recorded(s, s.queue[i + 1]);
        assert !e.Pop? && i < |s.queue| ==> Recorded(s, s.queue[i]);
      }
    }
  }

  lemma {:induction false} RunExact(s: State, events: seq<Event>)
    requires Inv(s) && Exact(s) && Run(s, events).Some?
    ensures Exact(Run(s, events).value)
    decreases |events|
  {
    if events == [] {
    } else {
      NextInv(s, events[0]);
      ExactNext(s, events[0]);
      hide Inv, Exact, Next, Enabled;
      RunExact(Next(s, events[0]), events[1..]);
    }
  }

  /** In every run: what was abandoned was rejected exactly a hundred times, what was delivered could be marshalled and
      was rejected less often, and what was not marshalled could not be and was never rejected. */
  lemma Accounted(events: seq<Event>, id: nat)
    requires Run(START, events).Some? && id < Run(START, events).value.pushed
    ensures var s := Run(START, events).value;
            && |s.rejections| == |s.marshals| == s.pushed
            && (id in s.abandoned ==> s.rejections[id] == MAX_RETRIES && s.marshals[id])
            && (id in s.delivered ==> s.rejections[id] < MAX_RETRIES && s.marshals[id])
            && (id in s.unmarshalled ==> s.rejections[id] == 0 && !s.marshals[id])
  {
    StartInv();
    RunExact(START, events);
    hide Run, Inv;
    assert Fits(Run(START, events).value, id);
  }

  lemma StartInv()
    ensures Inv(START) && Exact(START)
  {
    assert Places(START) == Everyone(0);
  }

  /** The status codes of the responses to request id in a run from s. */
  function Codes(s: State, events: seq<Event>, id: nat): seq<int>
    decreases |events|
  {
    if events == [] || !Enabled(s, events[0]) then []
    else
      var e := events[0];
      (if (e.Accepted? || e.Rejected?) && s.hand.request.id == id then [e.code] else [])
      + Codes(Next(s, e), events[1..], id)
  }

  /** Those outside of 200 to 299. */
  function BadOnes(codes: seq<int>): (bad: seq<int>)
    ensures |bad| <= |codes|
  {
    if codes == [] then [] else (if 200 <= codes[0] < 300 then [] else [codes[0]]) + BadOnes(codes[1..])
  }

  lemma BadFirst(code: int, codes: seq<int>)
    ensures |BadOnes([code] + codes)| == |BadOnes(codes)| + if 200 <= code < 300 then 0 else 1
  {
    assert ([code] + codes)[1..] == codes;
  }

  lemma {:induction false} AllBad(codes: seq<int>)
    ensures |BadOnes(codes)| < |codes| <==> exists code <- codes :: 200 <= code < 300
  {
    if codes == [] {
    } else {
      AllBad(codes[1..]);
      var later := codes[1..];
      assert forall code <- later :: code in codes;
      if 200 <= codes[0] < 300 {
        assert codes[0] in codes;
      } else if code :| code in codes && 200 <= code < 300 {
        assert code in later;
      }
    }
  }

  function RejectionsOf(s: State, id: nat): nat {
    if id < |s.rejections| then s.rejections[id] else 0
  }

  predicate Answers(s: State, e: Event, id: nat) {
    (e.Accepted? || e.Rejected?) && s.hand.Sending? && s.hand.request.id == id
  }

  lemma CodesFirst(s: State, events: seq<Event>, id: nat)
    requires events != [] && Enabled(s, events[0])
    ensures var e, later := events[0], Codes(Next(s, events[0]), events[1..], id);
            Codes(s, events, id) == if Answers(s, e, id) then [e.code] + later else later
  {
    hide Next, IsSuccess;
  }

  /** The counters of a run are those of its responses: rejected once for each outside of 200 to 299, delivered once for
      each other. */
  lemma {:induction false} CodesRecorded(s: State, events: seq<Event>, id: nat)
    requires Inv(s) && Run(s, events).Some?
    ensures var t, codes := Run(s, events).value, Codes(s, events, id);
            && RejectionsOf(t, id) == RejectionsOf(s, id) + |BadOnes(codes)|
            && multiset(t.delivered)[id] == multiset(s.delivered)[id] + |codes| - |BadOnes(codes)|
    decreases |events|
  {
    hide Inv, Next, Enabled, RejectionsOf, InHandCounted, Codes;
    if events == [] {
      assert Codes(s, [], id) == [] by { NoCodes(s, id); }
    } else {
      var e, next := events[0], Next(s, events[0]);
      NextInv(s, e);
      InvInHand(s);
      NextRecorded(s, e, id);
      CodesFirst(s, events, id);
      CodesRecorded(next, events[1..], id);
      hide BadOnes, Run;
      if Answers(s, e, id) { BadFirst(e.code, Codes(next, events[1..], id)); }
    }
  }

  lemma NoCodes(s: State, id: nat)
    ensures Codes(s, [], id) == []
  {
  }

  lemma NextRecorded(s: State, e: Event, id: nat)
    requires InHandCounted(s) && Enabled(s, e)
    ensures var t := Next(s, e);
            var mine := Answers(s, e, id);
            && (mine ==> (e.Accepted? <==> 200 <= e.code < 300))
            && RejectionsOf(t, id) == RejectionsOf(s, id) + (if mine && e.Rejected? then 1 else 0)
            && multiset(t.delivered)[id] == multiset(s.delivered)[id] + (if mine && e.Accepted? then 1 else 0)
  {
  }

  /** Once everything is settled, exactly the requests rejected a hundred times were abandoned, exactly those that
      cannot be marshalled were lost for that, and all others were delivered. */
  lemma Settlement(events: seq<Event>, id: nat)
    requires Run(START, events).Some? && id < Run(START, events).value.pushed
    requires var s := Run(START, events).value; s.queue == [] && s.hand.Empty?
    ensures var s := Run(START, events).value;
            && |s.rejections| == |s.marshals| == s.pushed
            && (id in s.abandoned <==> |BadOnes(Codes(START, events, id))| == 100)
            && (id in s.unmarshalled <==> !s.marshals[id])
            && (id in s.delivered <==> s.marshals[id] && |BadOnes(Codes(START, events, id))| < 100)
            && (id in s.delivered <==> exists code <- Codes(START, events, id) :: 200 <= code < 300)
            && |Codes(START, events, id)| <= 100
  {
    Accounted(events, id);
    EveryRun(events, id);
    StartInv();
    CodesRecorded(START, events, id);
    AllBad(Codes(START, events, id));
    hide Run;
    var s := Run(START, events).value;
    assert multiset(s.delivered)[id] + multiset(s.abandoned)[id] + multiset(s.unmarshalled)[id] == 1;
  }

  /** A request is lost at once when it cannot be marshalled. */
  lemma LostUnmarshalled()
    ensures Run(START, [Push(false), Pop, Unmarshalled]) == Some(State([], Empty, [], [], [0], 1, [0], [false]))
  {
    var r := Request(0, false, 0);
    var s := State([r], Empty, [], [], [], 1, [0], [false]);
    Three(START, Push(false), Pop, Unmarshalled);
    hide Run;
    assert Next(START, Push(false)) == s;
    assert Next(s, Pop).queue == [] && Next(Next(s, Pop), Unmarshalled).unmarshalled == [0];
  }

  lemma {:induction false} RunAppend(s: State, events: seq<Event>, more: seq<Event>)
    requires Run(s, events).Some?
    ensures Run(s, events + more) == Run(Run(s, events).value, more)
    decreases |events|
  {
    hide Next, Enabled;
    if events == [] {
      assert events + more == more;
    } else {
      assert (events + more)[1..] == events[1..] + more;
      RunAppend(Next(s, events[0]), events[1..], more);
    }
  }

  /** One request, after n responses that were not 2xx. */
  function OnlyRequest(n: nat): State
    requires n <= MAX_RETRIES
  {
    State([Request(0, true, n)], Empty, [], [], [], 1, [n], [true])
  }

  lemma {:induction false} RejectedOften(n: nat) returns (events: seq<Event>)
    requires n <= MAX_RETRIES
    ensures Run(START, events) == Some(OnlyRequest(n))
  {
    if n == 0 {
      events := [Push(true)];
      assert Next(START, Push(true)) == OnlyRequest(0);
      assert Run(START, events) == Run(OnlyRequest(0), []);
    } else {
      var before := RejectedOften(n - 1);
      RejectedOnce(n - 1);
      hide Run;
      RunAppend(START, before, [Pop, Begin, Rejected(500)]);
      events := before + [Pop, Begin, Rejected(500)];
    }
  }

  lemma RejectedOnce(n: nat)
    requires n < MAX_RETRIES
    ensures Run(OnlyRequest(n), [Pop, Begin, Rejected(500)]) == Some(OnlyRequest(n + 1))
  {
    var s := OnlyRequest(n);
    Three(s, Pop, Begin, Rejected(500));
    hide Run;
    var sending := Next(Next(s, Pop), Begin);
    assert sending.queue == [] && Next(sending, Rejected(500)).queue == [Request(0, true, n + 1)];
    assert Next(sending, Rejected(500)).rejections == [n + 1];
  }

  /** And a request that is rejected a hundred times is lost for good. */
  lemma LostRejected() returns (events: seq<Event>)
    ensures Run(START, events) == Some(State([], Empty, [], [0], [], 1, [MAX_RETRIES], [true]))
  {
    var before := RejectedOften(MAX_RETRIES);
    var s := OnlyRequest(MAX_RETRIES);
    Two(s, Pop, Abandon);
    hide Run;
    assert Next(s, Pop).queue == [] && Next(Next(s, Pop), Abandon).abandoned == [0];
    RunAppend(START, before, [Pop, Abandon]);
    events := before + [Pop, Abandon];
  }

  // ---------------------------------------------------------------- the queue empties

  /** How often a request can still be popped. */
  function Tries(r: Request): int {
    MAX_RETRIES + 1 - r.retries
  }

  function TriesLeft(queue: seq<Request>): int {
    if queue == [] then 0 else Tries(queue[0]) + TriesLeft(queue[1..])
  }

  function PopsLeft(s: State): int {
    TriesLeft(s.queue) + if s.hand.Empty? then 0 else Tries(s.hand.request) - 1
  }

  lemma {:induction false} TriesAppend(a: seq<Request>, b: seq<Request>)
    ensures TriesLeft(a + b) == TriesLeft(a) + TriesLeft(b)
  {
    if a == [] {
      assert a + b == b;
    } else {
      assert (a + b)[0] == a[0] && (a + b)[1..] == a[1..] + b;
      TriesAppend(a[1..], b);
    }
  }

  lemma {:induction false} TriesPositive(s: State, queue: seq<Request>)
    requires forall i :: 0 <= i < |queue| ==> Counted(s, queue[i])
    ensures TriesLeft(queue) >= |queue|
  {
    if queue == [] {
    } else {
      TriesPositive(s, queue[1..]);
    }
  }

  /** Steps of the consumer that are not a wait for a better transport: three for each pop at most. */
  function WorkLeft(s: State): int {
    3 * PopsLeft(s) + if s.hand.Popped? then 2 else if s.hand.Sending? then 1 else 0
  }

  lemma NextWork(s: State, e: Event)
    requires Inv(s) && Enabled(s, e) && !e.Push?
    ensures PopsLeft(Next(s, e)) <= PopsLeft(s) - if e.Pop? then 1 else 0
    ensures WorkLeft(Next(s, e)) <= WorkLeft(s) - if e.TransportError? then 0 else 1
  {
    hide Places, Everyone;
    if e.Rejected? {
      var r := s.hand.request.(retries := s.hand.request.retries + 1);
      TriesAppend(s.queue, [r]);
      assert TriesLeft([r]) == Tries(r) + TriesLeft([]);
    }
  }

  function Count(events: seq<Event>, pops: bool): nat {
    if events == [] then 0
    else (if (if pops then events[0].Pop? else !events[0].TransportError?) then 1 else 0) + Count(events[1..], pops)
  }

  lemma {:induction false} RunWork(s: State, events: seq<Event>)
    requires Inv(s) && Run(s, events).Some? && forall i :: 0 <= i < |events| ==> !events[i].Push?
    ensures var t := Run(s, events).value;
            && Count(events, true) + PopsLeft(t) <= PopsLeft(s)
            && Count(events, false) + WorkLeft(t) <= WorkLeft(s)
    decreases |events|
  {
    if events == [] {
    } else {
      NextInv(s, events[0]);
      NextWork(s, events[0]);
      hide Inv, Next, Enabled, PopsLeft, WorkLeft;
      RunWork(Next(s, events[0]), events[1..]);
    }
  }

  lemma WorkPositive(s: State)
    requires Inv(s)
    ensures PopsLeft(s) >= 0 && WorkLeft(s) >= 0
  {
    TriesPositive(s, s.queue);
    hide Places, Everyone;
  }

  /** Without new pushes the queue is popped at most as often as the sum of 101 - retries, the consumer takes at most
      three steps for each (besides waiting for the transport), and when it can take none everything is settled. */
  lemma Drains(events: seq<Event>, more: seq<Event>)
    requires Run(START, events).Some? && Run(START, events).value.hand.Empty?
    requires Run(Run(START, events).value, more).Some? && forall i :: 0 <= i < |more| ==> !more[i].Push?
    ensures var s := Run(START, events).value;
            var t := Run(s, more).value;
            && Count(more, true) <= TriesLeft(s.queue)
            && Count(more, false) <= 3 * TriesLeft(s.queue)
            && ((forall e: Event :: Enabled(t, e) ==> e.Push?) <==> t.queue == [] && t.hand.Empty?)
  {
    var s := Run(START, events).value;
    var t := Run(s, more).value;
    assert Places(START) == Everyone(0);
    RunInv(START, events);
    RunInv(s, more);
    RunWork(s, more);
    WorkPositive(t);
    hide Run;
    Settled(t);
  }

  lemma Settled(t: State)
    ensures (forall e: Event :: Enabled(t, e) ==> e.Push?) <==> t.queue == [] && t.hand.Empty?
  {
    if forall e: Event :: Enabled(t, e) ==> e.Push? {
      assert !Enabled(t, Pop) && !Enabled(t, Abandon) && !Enabled(t, Unmarshalled) && !Enabled(t, Begin)
        && !Enabled(t, Accepted(200));
    }
  }

  // ---------------------------------------------------------------- the code

  /** What the HTTP client makes of one attempt. */
  datatype Response = NoResponse | Status(code: int)

  /** The first attempt that got a response, or the number of attempts. */
  function Answer(attempts: seq<Response>): (i: nat)
    ensures i <= |attempts| && (i < |attempts| ==> attempts[i].Status?)
    ensures forall j :: 0 <= j < i ==> attempts[j].NoResponse?
  {
    if attempts == [] || attempts[0].Status? then 0 else 1 + Answer(attempts[1..])
  }

  lemma AnswerIs(attempts: seq<Response>, i: nat)
    requires i <= |attempts| && (i < |attempts| ==> attempts[i].Status?)
    requires forall j :: 0 <= j < i ==> attempts[j].NoResponse?
    ensures Answer(attempts) == i
  {
  }

  /** Attempt i is the first that got a response. */
  predicate FirstResponse(attempts: seq<Response>, i: nat) {
    i < |attempts| && attempts[i].Status? && forall j :: 0 <= j < i ==> attempts[j].NoResponse?
  }

  class UnboundedAPIQueue {
    var items: seq<Request>

    constructor ()
      ensures items == []
    {
      items := [];
    }

    method Push(item: Request)
      modifies this
      ensures items == old(items) + [item]
    {
      items := items + [item];
    }

    /** Waits while the queue is empty, so it returns only from one that is not. */
    method Pop() returns (item: Request)
      requires items != []
      modifies this
      ensures item == old(items)[0] && items == old(items)[1..]
    {
      item := items[0];
      items := items[1..];
    }
  }

  datatype Fate = GaveUp | NotMarshalled | Delivered | Requeued | StillSending

  /** Abandoned after a hundred retries, lost when it does not marshal, tried until there is a response, and then
      delivered or put back. */
  function FateOf(req: Request, attempts: seq<Response>): Fate {
    if req.retries >= MAX_RETRIES then GaveUp
    else if !req.marshals then NotMarshalled
    else if Answer(attempts) == |attempts| then StillSending
    else if IsSuccess(attempts[Answer(attempts)].code) then Delivered
    else Requeued
  }

  function Again(req: Request): Request
    requires req.retries < MAX_RETRIES
  {
    req.(retries := req.retries + 1)
  }

  /** One request of consumeLoop, with the attempts its sending takes. */
  method ConsumeOne(queue: UnboundedAPIQueue, attempts: seq<Response>) returns (req: Request, fate: Fate)
    requires queue.items != []
    modifies queue
    ensures req.retries >= 100 ==> fate == GaveUp && queue.items == old(queue.items)[1..]
    ensures req.retries < 100 && !req.marshals ==> fate == NotMarshalled && queue.items == old(queue.items)[1..]
    ensures req.retries < 100 && req.marshals ==> forall i :: 0 <= i < |attempts| && FirstResponse(attempts, i) ==>
              if 200 <= attempts[i].code < 300
              then fate == Delivered && queue.items == old(queue.items)[1..]
              else fate == Requeued && queue.items == old(queue.items)[1..] + [req.(retries := req.retries + 1)]
    ensures req.retries < 100 && req.marshals && (forall i :: 0 <= i < |attempts| ==> attempts[i].NoResponse?) ==>
              fate == StillSending && queue.items == old(queue.items)[1..]
    ensures req == old(queue.items)[0] && fate == FateOf(req, attempts)
    ensures queue.items == old(queue.items)[1..] + if fate == Requeued then [Again(req)] else []
  {
    req := queue.Pop();
    if req.retries >= MAX_RETRIES {
      return req, GaveUp;
    }
    if !req.marshals {
      return req, NotMarshalled;
    }
    var i := 0;
    while i < |attempts|
      invariant 0 <= i <= |attempts| && forall j :: 0 <= j < i ==> attempts[j].NoResponse?
      invariant queue.items == old(queue.items)[1..]
    {
      if attempts[i].NoResponse? {
        i := i + 1;
        continue;
      }
      AnswerIs(attempts, i);
      if 200 <= attempts[i].code < 300 {
        return req, Delivered;
      }
      queue.Push(req.(retries := req.retries + 1));
      return req, Requeued;
    }
    AnswerIs(attempts, i);
    fate := StillSending;
  }

  /** The steps of the consumer for the request it pops. */
  function EventsOf(fate: Fate, code: int): seq<Event> {
    match fate
    case GaveUp => [Pop, Abandon]
    case NotMarshalled => [Pop, Unmarshalled]
    case Delivered => [Pop, Begin, Accepted(code)]
    case Requeued => [Pop, Begin, Rejected(code)]
    case StillSending => [Pop, Begin]
  }

  /** From s to s' the first request went to the one place its fate names, and nothing else changed. */
  ghost predicate Settles(s: State, s': State, fate: Fate)
    requires s.queue != []
  {
    var req := s.queue[0];
    && s'.queue == (if fate == Requeued && req.retries < MAX_RETRIES then s.queue[1..] + [Again(req)] else s.queue[1..])
    && s'.hand == (if fate == StillSending then Sending(req) else Empty)
    && s'.delivered == (if fate == Delivered then s.delivered + [req.id] else s.delivered)
    && s'.abandoned == (if fate == GaveUp then s.abandoned + [req.id] else s.abandoned)
    && s'.unmarshalled == (if fate == NotMarshalled then s.unmarshalled + [req.id] else s.unmarshalled)
    && s'.pushed == s.pushed && s'.marshals == s.marshals && req.id < |s.rejections|
    && s'.rejections == if fate == Requeued then s.rejections[req.id := s.rejections[req.id] + 1] else s.rejections
  }

  /** The status code of the response to a request, or 0. */
  function CodeOf(attempts: seq<Response>): int {
    if Answer(attempts) < |attempts| then attempts[Answer(attempts)].code else 0
  }

  /** What ConsumeOne does is what the events of its fate do, with the status code that came back. */
  lemma ConsumeIsRun(s: State, attempts: seq<Response>)
    requires Inv(s) && s.hand.Empty? && s.queue != []
    ensures var fate := FateOf(s.queue[0], attempts);
            var run := Run(s, EventsOf(fate, CodeOf(attempts)));
            run.Some? && Settles(s, run.value, fate)
  {
    hide Inv, Answer, Run, EventsOf, Settles, Next;
    QueueCounted(s);
    var fate, code := FateOf(s.queue[0], attempts), CodeOf(attempts);
    if fate == Delivered || fate == Requeued {
      SentIsRun(s, fate, code);
    } else {
      UnsentIsRun(s, fate, code);
    }
  }

  lemma UnsentIsRun(s: State, fate: Fate, code: int)
    requires s.hand.Empty? && s.queue != [] && Counted(s, s.queue[0])
    requires var req := s.queue[0];
             match fate
             case GaveUp => req.retries >= MAX_RETRIES
             case NotMarshalled => req.retries < MAX_RETRIES && !req.marshals
             case StillSending => req.retries < MAX_RETRIES && req.marshals
             case _ => false
    ensures Run(s, EventsOf(fate, code)).Some? && Settles(s, Run(s, EventsOf(fate, code)).value, fate)
  {
    hide Run;
    match fate
    case GaveUp => Two(s, Pop, Abandon);
    case NotMarshalled => Two(s, Pop, Unmarshalled);
    case StillSending => Two(s, Pop, Begin);
  }

  lemma SentIsRun(s: State, fate: Fate, code: int)
    requires s.hand.Empty? && s.queue != [] && Counted(s, s.queue[0])
    requires s.queue[0].retries < MAX_RETRIES && s.queue[0].marshals
    requires fate == if 200 <= code < 300 then Delivered else Requeued
    ensures Run(s, EventsOf(fate, code)).Some? && Settles(s, Run(s, EventsOf(fate, code)).value, fate)
  {
    hide Run;
    Three(s, Pop, Begin, if fate == Delivered then Accepted(code) else Rejected(code));
  }

  lemma QueueCounted(s: State)
    requires Inv(s)
    ensures forall i :: 0 <= i < |s.queue| ==> Counted(s, s.queue[i])
  {
  }

  lemma Two(s: State, a: Event, b: Event)
    requires Enabled(s, a) && Enabled(Next(s, a), b)
    ensures Run(s, [a, b]) == Some(Next(Next(s, a), b))
  {
    hide Next, Enabled;
    assert [a, b][1..] == [b] && [b][1..] == [];
    assert Run(Next(s, a), [b]) == Run(Next(Next(s, a), b), []);
  }

  lemma Three(s: State, a: Event, b: Event, c: Event)
    requires Enabled(s, a) && Enabled(Next(s, a), b) && Enabled(Next(Next(s, a), b), c)
    ensures Run(s, [a, b, c]) == Some(Next(Next(Next(s, a), b), c))
  {
    Two(Next(s, a), b, c);
    hide Next, Enabled;
    assert [a, b, c][1..] == [b, c];
  }
}
