/** Packet specifications and parsed packets (internal/common/base.go, internal/packets/parser.go). */
module Packets {
  import opened Bytes

  datatype Option<+T> = None | Some(value: T) {
    predicate IsFailure() { None? }

    function PropagateFailure<U>(): Option<U>
      requires None?
    {
      None
    }

    function Extract(): T
      requires Some?
    {
      value
    }
  }

  datatype PacketDirection = ServerToClient | ClientToServer

  datatype PacketSizeType = FIXED | INDICATED_IN_PACKET | UNKNOWN | FIXED_MIN | HTTP

  datatype PacketSpec = PacketSpec(size: int, sizeType: PacketSizeType)

  type PacketTable = map<nat, PacketSpec>

  datatype PacketDatabase = PacketDatabase(receive: PacketTable, send: PacketTable) {
    function Table(direction: PacketDirection): PacketTable {
      if direction == ServerToClient then receive else send
    }
  }

  datatype RawChunk = RawChunk(connectionId: uint64, timestamp: int64, direction: PacketDirection, data: seq<byte>)

  datatype ParsedPacket = ParsedPacket(
    direction: PacketDirection, opcode: nat, payload: seq<byte>, checksum: Option<byte>)

  function Concat<T>(parts: seq<seq<T>>): (whole: seq<T>) {
    if parts == [] then [] else parts[0] + Concat(parts[1..])
  }

  lemma {:induction false} ConcatAppend<T>(a: seq<seq<T>>, b: seq<seq<T>>)
    ensures Concat(a + b) == Concat(a) + Concat(b)
  {
    if a == [] {
      assert a + b == b;
    } else {
      assert (a + b)[0] == a[0] && (a + b)[1..] == a[1..] + b;
      ConcatAppend(a[1..], b);
    }
  }
}
