/** The ring buffer of ipc.Client (internal/ipc/client.go): drop the oldest when full, put back at the front. */
module Rings {
  import opened Packets

  // ---------------------------------------------------------------- the ring as a value

  /** A nil slot of the source's array is None. */
  datatype Ring<T> = Ring(slots: seq<Option<T>>, head: int, tail: int, count: int)

  function EmptyRing<T>(size: nat): Ring<T> {
    Ring(seq(size, _ => None), 0, 0, 0)
  }

  predicate Shaped<T>(r: Ring<T>) {
    0 <= r.head < |r.slots| && 0 <= r.tail < |r.slots| && 0 <= r.count
  }

  /** Remainders of the indices that occur, as differences. */
  lemma Mod(x: nat, n: nat)
    requires x < 3 * n
    ensures x % n == if x < n then x else if x < 2 * n then x - n else x - 2 * n
  {
    var q := x / n;
    assert x == n * q + x % n;
    if q > 2 {
      assert false;
    } else if q == 0 {
    } else if q == 1 {
    } else {
      assert n * q == n * 2;
    }
  }

  /** x mod n, for the indices that occur. */
  function Around(x: int, n: nat): (r: int)
    requires 0 <= x < 3 * n
    ensures r == if x < n then x else if x < 2 * n then x - n else x - 2 * n
  {
    Mod(x, n);
    x % n
  }

  function Enqueue<T>(r: Ring<T>, frame: T): Ring<T>
    requires Shaped(r)
  {
    var n := |r.slots|;
    var r' := if r.count >= n then r.(head := Around(r.head + 1, n), count := r.count - 1) else r;
    Ring(r'.slots[r'.tail := Some(frame)], r'.head, Around(r'.tail + 1, n), r'.count + 1)
  }

  /** None stands for the nil that ends processBuffer: an empty ring, or an empty slot. */
  function Pop<T>(r: Ring<T>): (Option<T>, Ring<T>)
    requires Shaped(r)
  {
    if r.count == 0 then (None, r)
    else (r.slots[r.head], Ring(r.slots[r.head := None], Around(r.head + 1, |r.slots|), r.tail, r.count - 1))
  }

  /** There is no check for a full ring. */
  function PushFront<T>(r: Ring<T>, frame: T): Ring<T>
    requires Shaped(r)
  {
    var n := |r.slots|;
    var head := Around(r.head - 1 + n, n);
    Ring(r.slots[head := Some(frame)], head, r.tail, r.count + 1)
  }

  // ---------------------------------------------------------------- alignment, with no assumption

  predicate Aligned<T>(r: Ring<T>) {
    Shaped(r) && r.count <= |r.slots| + 1 && r.tail == Around(r.head + r.count, |r.slots|)
  }

  lemma EnqueueAligned<T>(r: Ring<T>, frame: T)
    requires Aligned(r)
    ensures var r' := Enqueue(r, frame);
            Aligned(r') && r'.count == if r.count >= |r.slots| then r.count else r.count + 1
  {
    hide Around;
  }

  lemma PopAligned<T>(r: Ring<T>)
    requires Aligned(r)
    ensures var r' := Pop(r).1; Aligned(r') && r'.count == if r.count == 0 then 0 else r.count - 1
  {
    hide Around;
  }

  /** Also on a full ring. */
  lemma PushFrontAligned<T>(r: Ring<T>, frame: T)
    requires Aligned(r) && r.count <= |r.slots|
    ensures Aligned(PushFront(r, frame))
  {
    hide Around;
  }

  // ---------------------------------------------------------------- the queue it stands for

  /** The slot of the i-th queued frame. */
  function Slot<T>(r: Ring<T>, i: nat): (k: nat)
    requires Shaped(r) && i <= |r.slots|
  {
    Around(r.head + i, |r.slots|)
  }

  /** No more frames than slots, and none of them nil. */
  ghost predicate Sound<T>(r: Ring<T>) {
    Aligned(r) && r.count <= |r.slots| && forall i :: 0 <= i < r.count ==> r.slots[Slot(r, i)].Some?
  }

  /** The queued frames, oldest first. */
  ghost function Queue<T>(r: Ring<T>): (q: seq<T>)
    requires Sound(r)
    ensures |q| == r.count
  {
    seq(r.count, i requires 0 <= i < r.count => r.slots[Slot(r, i)].value)
  }

  /** Where the i-th queued frame comes from when a frame is enqueued. */
  lemma EnqueueSlot<T>(r: Ring<T>, frame: T, i: nat)
    requires Aligned(r) && r.count <= |r.slots|
    requires Aligned(Enqueue(r, frame)) && i < Enqueue(r, frame).count <= |r.slots|
    ensures var r', drop := Enqueue(r, frame), if r.count == |r.slots| then 1 else 0;
            && |r'.slots| == |r.slots|
            && r'.slots[Slot(r', i)] == if i == r'.count - 1 then Some(frame) else r.slots[Slot(r, i + drop)]
  {
    hide Around;
  }

  /** Send drops the oldest frame if the ring is full, and appends. */
  lemma EnqueueQueue<T>(r: Ring<T>, frame: T)
    requires Sound(r)
    ensures var r' := Enqueue(r, frame);
            Sound(r') && Queue(r') == (if r.count == |r.slots| then Queue(r)[1..] else Queue(r)) + [frame]
  {
    EnqueueAligned(r, frame);
    var r', drop := Enqueue(r, frame), if r.count == |r.slots| then 1 else 0;
    assert r'.count == r.count - drop + 1 && |r'.slots| == |r.slots|;
    hide Enqueue, Aligned, Slot;
    forall i: nat | i < r'.count
      ensures r'.slots[Slot(r', i)] == if i == r'.count - 1 then Some(frame) else r.slots[Slot(r, i + drop)]
    {
      EnqueueSlot(r, frame, i);
    }
    Appended(Queue(r), Queue(r'), frame, drop);
  }

  lemma Appended<T>(q: seq<T>, q': seq<T>, frame: T, drop: nat)
    requires drop <= |q| && |q'| == |q| - drop + 1
    requires forall i :: 0 <= i < |q'| ==> q'[i] == if i == |q'| - 1 then frame else q[i + drop]
    ensures q' == q[drop..] + [frame] && (drop == 0 ==> q' == q + [frame])
  {
  }

  lemma PopEmpty<T>(r: Ring<T>)
    requires Shaped(r) && r.count == 0
    ensures Pop(r) == (None, r)
  {
  }

  /** The n-th of a queue moves from what is left to what has gone. */
  lemma OneMore<T>(queue: seq<T>, n: nat)
    requires n < |queue|
    ensures queue[..n + 1] == queue[..n] + [queue[n]]
    ensures queue[n..] == [queue[n]] + queue[n + 1..] && queue[n..][0] == queue[n] && queue[n..][1..] == queue[n + 1..]
  {
  }

  lemma PopQueue<T>(r: Ring<T>)
    requires Sound(r) && r.count > 0
    ensures var (frame, r') := Pop(r);
            Sound(r') && frame == Some(Queue(r)[0]) && Queue(r') == Queue(r)[1..]
  {
    PopAligned(r);
    assert Slot(r, 0) == r.head;
    var r' := Pop(r).1;
    assert r'.head == Slot(r, 1);
    hide Aligned, Around;
    forall i | 0 <= i < r'.count ensures r'.slots[Slot(r', i)] == r.slots[Slot(r, i + 1)] {
    }
  }

  lemma PushFrontQueue<T>(r: Ring<T>, frame: T)
    requires Sound(r) && r.count < |r.slots|
    ensures var r' := PushFront(r, frame);
            Sound(r') && Queue(r') == [frame] + Queue(r)
  {
    PushFrontAligned(r, frame);
    var r' := PushFront(r, frame);
    var n := |r.slots|;
    hide Aligned, Around;
    forall i | 0 <= i < r'.count
      ensures r'.slots[Slot(r', i)] == if i == 0 then Some(frame) else r.slots[Slot(r, i - 1)]
    {
    }
  }

  /** Put back on a full ring, the frame overwrites the newest one and the count exceeds the slots. */
  lemma PushFrontFull<T>(r: Ring<T>, frame: T)
    requires Sound(r) && r.count == |r.slots|
    ensures var r' := PushFront(r, frame);
            && r'.count == |r'.slots| + 1 && !Sound(r')
            && forall i :: 0 <= i < |r.slots| ==>
                 r'.slots[Slot(r', i)] == Some(if i == 0 then frame else Queue(r)[i - 1])
  {
    var r' := PushFront(r, frame);
    var n := |r.slots|;
    hide Aligned, Around;
    forall i | 0 <= i < n ensures r'.slots[Slot(r', i)] == Some(if i == 0 then frame else Queue(r)[i - 1]) {
    }
  }

  /** From then on the next frame sent overtakes all the others, and the one put back comes last. */
  lemma Overtaken<T>(r: Ring<T>, again: T, newest: T)
    requires Sound(r) && r.count == |r.slots|
    ensures var r' := Enqueue(PushFront(r, again), newest);
            && Aligned(r') && Pop(r').0 == Some(newest)
            && (|r.slots| > 1 ==> r'.slots[Slot(r', |r.slots| - 1)] == Some(again))
  {
    var n := |r.slots|;
    var mid := PushFront(r, again);
    PushFrontAligned(r, again);
    EnqueueAligned(mid, newest);
  }

  // ---------------------------------------------------------------- the code

  /** The other end of the socket: it takes frames while the script of write outcomes says so. */
  class Wire<T> {
    var outcomes: seq<bool>
    var delivered: seq<T>

    constructor (outcomes: seq<bool>)
      ensures this.outcomes == outcomes && delivered == []
    {
      this.outcomes, delivered := outcomes, [];
    }

    /** sendFrame: the frame is delivered whole, or not at all. A script that has run out is a closed connection. */
    method Send(frame: T) returns (ok: bool)
      modifies this
      ensures delivered == if ok then old(delivered) + [frame] else old(delivered)
      ensures ok == (old(outcomes) != [] && old(outcomes)[0])
      ensures outcomes == if old(outcomes) == [] then [] else old(outcomes)[1..]
    {
      ok := outcomes != [] && outcomes[0];
      if outcomes != [] {
        outcomes := outcomes[1..];
      }
      if ok {
        delivered := delivered + [frame];
      }
    }
  }

  /** How many of n writes succeed before the first that fails. */
  function Writes(outcomes: seq<bool>, n: nat): (m: nat)
    ensures m <= n
  {
    if n == 0 || outcomes == [] || !outcomes[0] then 0 else 1 + Writes(outcomes[1..], n - 1)
  }

  lemma {:induction false} WritesIs(outcomes: seq<bool>, n: nat, m: nat)
    requires m <= n && m <= |outcomes| && forall i :: 0 <= i < m ==> outcomes[i]
    requires m == n || m == |outcomes| || !outcomes[m]
    ensures Writes(outcomes, n) == m
  {
    if m == 0 {
    } else {
      WritesIs(outcomes[1..], n - 1, m - 1);
    }
  }

  class Client<T> {
    const buffer: array<Option<T>>
    var head: int
    var tail: int
    var count: int
    /** The one token of sendChan. */
    var token: bool

    ghost predicate Valid()
      reads this, buffer
    {
      Shaped(View())
    }

    ghost function View(): (r: Ring<T>)
      reads this, buffer
    {
      Ring(buffer[..], head, tail, count)
    }

    constructor (size: nat)
      requires size > 0
      ensures Valid() && fresh(buffer) && !token
      ensures View() == EmptyRing(size)
    {
      buffer := new Option<T>[size](_ => None);
      head, tail, count, token := 0, 0, 0, false;
      new;
      assert buffer[..] == EmptyRing<T>(size).slots;
    }

    method Send(frame: T)
      requires Valid()
      modifies this, buffer
      ensures Valid() && View() == Enqueue(old(View()), frame) && token
    {
      if count >= buffer.Length {
        head := (head + 1) % buffer.Length;
        count := count - 1;
      }
      buffer[tail] := Some(frame);
      tail := (tail + 1) % buffer.Length;
      count := count + 1;
      token := true;
    }

    method PopFrame() returns (frame: Option<T>)
      requires Valid()
      modifies this`head, this`count, buffer
      ensures Valid() && (frame, View()) == Pop(old(View()))
    {
      if count == 0 {
        return None;
      }
      frame := buffer[head];
      buffer[head] := None;
      head := (head + 1) % buffer.Length;
      count := count - 1;
    }

    method PutBack(frame: T)
      requires Valid()
      modifies this`head, this`count, buffer
      ensures Valid() && View() == PushFront(old(View()), frame)
    {
      head := (head - 1 + buffer.Length) % buffer.Length;
      buffer[head] := Some(frame);
      count := count + 1;
    }

    /** One turn of processBuffer: the oldest frame is sent, or put back where it was. */
    method SendOldest(wire: Wire<T>) returns (empty: bool, failed: bool)
      requires Valid() && Sound(View())
      modifies this`head, this`count, buffer, wire
      ensures Valid() && Sound(View())
      ensures empty == (old(Queue(View())) == []) && (failed ==> !empty)
      ensures empty ==>
                && Queue(View()) == []
                && wire.delivered == old(wire.delivered) && wire.outcomes == old(wire.outcomes)
      ensures !empty ==>
                && failed == !(old(wire.outcomes) != [] && old(wire.outcomes)[0])
                && wire.outcomes == (if old(wire.outcomes) == [] then [] else old(wire.outcomes)[1..])
                && var queue := old(Queue(View()));
                   if failed then Queue(View()) == queue && wire.delivered == old(wire.delivered)
                   else Queue(View()) == queue[1..] && wire.delivered == old(wire.delivered) + [queue[0]]
    {
      assert count <= buffer.Length;
      hide Queue, Sound, Pop, PushFront;
      ghost var before := View();
      var frame := PopFrame();
      if before.count == 0 { PopEmpty(before); } else { PopQueue(before); }
      if frame.None? {
        return true, false;
      }
      ghost var popped := View();
      var ok := wire.Send(frame.value);
      if !ok {
        PushFrontQueue(popped, frame.value);
        PutBack(frame.value);
      }
      return false, !ok;
    }

    /** With no producer in between, one round moves frames from the ring to the wire, in order, up to the first write
        that fails; it fails exactly when one of them does, and loses none. */
    method ProcessBuffer(wire: Wire<T>) returns (failed: bool)
      requires Valid() && Sound(View())
      modifies this`head, this`count, buffer, wire
      ensures Valid() && Sound(View())
      ensures var queue := old(Queue(View()));
              var n := Writes(old(wire.outcomes), |queue|);
              && wire.delivered == old(wire.delivered) + queue[..n] && Queue(View()) == queue[n..]
              && failed == (n < |queue|)
    {
      hide Queue, Sound;
      ghost var queue, outcomes, n: nat := Queue(View()), wire.outcomes, 0;
      while true
        invariant Valid() && Sound(View())
        invariant n <= |queue| && Queue(View()) == queue[n..] && wire.delivered == old(wire.delivered) + queue[..n]
        invariant n <= |outcomes| && wire.outcomes == outcomes[n..] && forall i :: 0 <= i < n ==> outcomes[i]
        decreases |queue| - n
      {
        if n < |queue| { OneMore(queue, n); }
        if n < |outcomes| { OneMore(outcomes, n); }
        var empty, bad := SendOldest(wire);
        if empty || bad {
          WritesIs(outcomes, |queue|, n);
          return bad;
        }
        n := n + 1;
      }
    }
  }
}
