/** The receiving end of the wire (internal/ipc/server.go): decode, and enqueue if there is room. */
module Servers {
  import opened Bytes
  import opened Packets
  import opened Frames
  import opened FrameCode
  import opened Subsequences

  // Whether the channel has room for what comes next, told in advance; it has room when nothing is said.

  function HasRoom(room: seq<bool>): bool {
    room == [] || room[0]
  }

  function NextRoom(room: seq<bool>): seq<bool> {
    if room == [] then [] else room[1..]
  }

  /** The frames for which the channel had room. */
  function Admitted(frames: seq<Frame>, room: seq<bool>): seq<Frame> {
    if frames == [] then []
    else
      var later := Admitted(frames[1..], NextRoom(room));
      if HasRoom(room) then [frames[0]] + later else later
  }

  function RoomAfter(frames: seq<Frame>, room: seq<bool>): seq<bool> {
    if frames == [] then room else RoomAfter(frames[1..], NextRoom(room))
  }

  /** Frames are only ever lost. */
  lemma {:induction false} AdmittedLost(frames: seq<Frame>, room: seq<bool>)
    ensures Subsequence(Admitted(frames, room), frames)
  {
    if frames == [] {
      Empty<Frame>([]);
    } else {
      hide Subsequence;
      AdmittedLost(frames[1..], NextRoom(room));
      Prepend(Admitted(frames[1..], NextRoom(room)), frames[1..], frames[0]);
      assert frames == [frames[0]] + frames[1..];
    }
  }

  /** The channel has room for the n-th thing offered to it. */
  predicate RoomAt(room: seq<bool>, n: nat) {
    n < |room| ==> room[n]
  }

  /** A frame is admitted, behind those before it, exactly if there is room for it. */
  lemma {:induction false} AdmittedLast(frames: seq<Frame>, f: Frame, room: seq<bool>)
    ensures Admitted(frames + [f], room) == Admitted(frames, room) + if RoomAt(room, |frames|) then [f] else []
    ensures Admitted([], room) == []
  {
    if frames == [] {
      assert [] + [f] == [f] && [f][1..] == [];
    } else {
      var later := NextRoom(room);
      assert (frames + [f])[1..] == frames[1..] + [f];
      AdmittedLast(frames[1..], f, later);
      assert RoomAt(later, |frames| - 1) <==> RoomAt(room, |frames|);
    }
  }

  lemma {:induction false} RoomIs(frames: seq<Frame>, room: seq<bool>)
    ensures HasRoom(RoomAfter(frames, room)) <==> RoomAt(room, |frames|)
  {
    if frames == [] {
    } else {
      RoomIs(frames[1..], NextRoom(room));
    }
  }

  /** None is lost if there was always room. */
  lemma {:induction false} AllAdmitted(frames: seq<Frame>, room: seq<bool>)
    requires forall i :: 0 <= i < |room| ==> room[i]
    ensures Admitted(frames, room) == frames
  {
    if frames == [] {
    } else {
      AllAdmitted(frames[1..], NextRoom(room));
    }
  }

  lemma AdmittedFirst(f: Frame, later: seq<Frame>, room: seq<bool>, before: seq<Frame>)
    ensures RoomAfter([f] + later, room) == RoomAfter(later, NextRoom(room))
    ensures before + Admitted([f] + later, room) ==
              (if HasRoom(room) then before + [f] else before) + Admitted(later, NextRoom(room))
  {
    assert ([f] + later)[1..] == later;
  }

  const DISCONNECT := Frame(FRAME_TYPE_IPC_DISCONNECT, 0, 0, ServerToClient, [], [], [])

  /** frameChan: what was put into it, and whether there is room for what comes next (the Processor empties it). */
  class FrameChannel {
    var received: seq<Frame>
    var room: seq<bool>

    constructor (room: seq<bool>)
      ensures received == [] && this.room == room
    {
      received, this.room := [], room;
    }

    /** The non-blocking send. */
    method Offer(f: Frame)
      modifies this
      ensures received == if old(room) == [] || old(room)[0] then old(received) + [f] else old(received)
      ensures room == NextRoom(old(room))
    {
      if room == [] || room[0] {
        received := received + [f];
      }
      if room != [] {
        room := room[1..];
      }
    }
  }

  /** handleConnection, until reading fails: the channel gets the frames of the stream, in order, less those for which
      it had no room, and then a disconnect if it has room for it. Indexing a malformed body out of range crashes. */
  method HandleConnection(r: Reader, frameChan: FrameChannel) returns (crashed: bool)
    modifies r, frameChan
    ensures var stream := DecodeStream(old(r.data));
            && crashed == (stream.error == Panic)
            && frameChan.received ==
                 old(frameChan.received) + Admitted(stream.frames, old(frameChan.room)) +
                 if !crashed && RoomAt(old(frameChan.room), |stream.frames|)
                 then [Frame(0x03, 0, 0, ServerToClient, [], [], [])] else []
  {
    ghost var stream := DecodeStream(r.data);
    RoomIs(stream.frames, frameChan.room);
    ghost var all := frameChan.received + Admitted(stream.frames, frameChan.room);
    ghost var lastRoom := RoomAfter(stream.frames, frameChan.room);
    while true
      invariant DecodeStream(r.data).error == stream.error
      invariant frameChan.received + Admitted(DecodeStream(r.data).frames, frameChan.room) == all
      invariant RoomAfter(DecodeStream(r.data).frames, frameChan.room) == lastRoom
      decreases |r.data|
    {
      ghost var s := r.data;
      StreamStep(s);
      hide Decode, DecodeStream, Admitted, RoomAfter;
      var result := DecodeFrame(r);
      match result {
        case Failed(error) =>
          NothingMore(frameChan.received, frameChan.room);
          if error == Panic {
            return true;
          }
          frameChan.Offer(DISCONNECT);
          return false;
        case Decoded(frame, rest) =>
          AdmittedFirst(frame, DecodeStream(rest).frames, frameChan.room, frameChan.received);
          frameChan.Offer(frame);
      }
    }
  }

  lemma NothingMore(received: seq<Frame>, room: seq<bool>)
    ensures received + Admitted([], room) == received && received + [] == received
    ensures RoomAfter([], room) == room
  {
  }

  lemma StreamStep(s: seq<byte>)
    ensures match Decode(s)
            case Failed(error) => DecodeStream(s).frames == [] && DecodeStream(s).error == error
            case Decoded(frame, rest) =>
              && |rest| < |s| && DecodeStream(s).frames == [frame] + DecodeStream(rest).frames
              && DecodeStream(s).error == DecodeStream(rest).error
  {
    hide DecodeBody, DecodeHeader;
  }
}
