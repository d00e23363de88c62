/** The code of Frame.Encode and DecodeFrame (internal/ipc/frame.go), proved against the format of Frames. */
module FrameCode {
  import opened Bytes
  import opened Packets
  import opened Frames

  /** Writes p into buf at offset, as the Put functions of encoding/binary and copy do. */
  method Put(buf: array<byte>, offset: nat, p: seq<byte>) returns (next: nat)
    requires offset + |p| <= buf.Length
    modifies buf
    ensures next == offset + |p|
    ensures buf[..next] == old(buf[..offset]) + p
  {
    for i := 0 to |p|
      invariant buf[..offset] == old(buf[..offset])
      invariant buf[offset..offset + i] == p[..i]
    {
      buf[offset + i] := p[i];
    }
    next := offset + |p|;
    assert buf[..next] == buf[..offset] + buf[offset..next];
  }

  /** Magic number, version and body length. */
  method PutHeader(buf: array<byte>, frameLen: nat) returns (next: nat)
    requires 7 <= buf.Length
    modifies buf
    ensures next == 7 && buf[..next] == EncodeHeader(frameLen)
  {
    hide PutLittleEndian;
    next := Put(buf, 0, PutLittleEndian(MAGIC_NUMBER, 2));
    next := Put(buf, next, [VERSION]);
    next := Put(buf, next, PutLittleEndian(frameLen % TWO_TO_THE_32, 4));
  }

  /** Frame type, connection, timestamp and direction. */
  method PutFixed(buf: array<byte>, offset: nat, f: Frame) returns (next: nat)
    requires offset + 18 <= buf.Length
    modifies buf
    ensures next == offset + 18 && buf[..next] == old(buf[..offset]) + EncodeFixed(f)
  {
    hide PutLittleEndian;
    ghost var before := buf[..offset];
    next := Put(buf, offset, [f.frameType]);
    next := Put(buf, next, PutLittleEndian(f.connectionId, 8));
    next := Put(buf, next, PutLittleEndian(Unsigned(f.timestamp), 8));
    next := Put(buf, next, [if f.direction == ServerToClient then 0x01 else 0x00]);
    Regroup4(before, [f.frameType], PutLittleEndian(f.connectionId, 8), PutLittleEndian(Unsigned(f.timestamp), 8),
             [DirectionByte(f.direction)]);
  }

  lemma Regroup4<T>(s: seq<T>, a: seq<T>, b: seq<T>, c: seq<T>, d: seq<T>)
    ensures s + a + b + c + d == s + (a + (b + (c + d)))
  {
  }

  method PutAddress(buf: array<byte>, offset: nat, address: seq<byte>) returns (next: nat)
    requires offset + 1 + |address| <= buf.Length
    modifies buf
    ensures next == offset + 1 + |address| && buf[..next] == old(buf[..offset]) + EncodeAddress(address)
  {
    ghost var before := buf[..offset];
    next := Put(buf, offset, [|address| % 256]);
    next := Put(buf, next, address);
    assert before + [|address| % 256] + address == before + ([|address| % 256] + address);
  }

  method PutData(buf: array<byte>, offset: nat, data: seq<byte>) returns (next: nat)
    requires offset + 4 + |data| <= buf.Length
    modifies buf
    ensures next == offset + 4 + |data| && buf[..next] == old(buf[..offset]) + EncodeData(data)
  {
    hide PutLittleEndian;
    ghost var before, size := buf[..offset], PutLittleEndian(|data| % TWO_TO_THE_32, 4);
    next := Put(buf, offset, PutLittleEndian(|data| % TWO_TO_THE_32, 4));
    next := Put(buf, next, data);
    assert before + size + data == before + (size + data);
  }

  method EncodeFrame(f: Frame) returns (buf: array<byte>)
    ensures fresh(buf) && buf[..] == Encode(f)
    ensures Layout(f, buf[..])
  {
    LayoutOfEncode(f);
    hide Layout;
    hide EncodeHeader, EncodeFixed, EncodeAddress, EncodeData;
    var frameLen := 1 + 8 + 8 + 1 + 1 + |f.clientAddr| + 1 + |f.serverAddr| + 4 + |f.data|;
    buf := new byte[2 + 1 + 4 + frameLen];
    var offset := PutHeader(buf, frameLen);
    offset := PutFixed(buf, offset, f);
    offset := PutAddress(buf, offset, f.clientAddr);
    offset := PutAddress(buf, offset, f.serverAddr);
    offset := PutData(buf, offset, f.data);
    assert buf[..offset] == buf[..];
    Regroup4(EncodeHeader(frameLen), EncodeFixed(f), EncodeAddress(f.clientAddr), EncodeAddress(f.serverAddr),
             EncodeData(f.data));
  }

  /** The read side of the socket: what it still delivers. */
  class Reader {
    var data: seq<byte>

    constructor (data: seq<byte>)
      ensures this.data == data
    {
      this.data := data;
    }

    /** io.ReadFull. */
    method ReadFull(n: nat) returns (p: Option<seq<byte>>)
      modifies this
      ensures match Split(old(data), n)
              case Some((read, rest)) => p == Some(read) && data == rest
              case None => p == None && data == []
    {
      if n <= |data| {
        p, data := Some(data[..n]), data[n..];
      } else {
        p, data := None, [];
      }
    }
  }

  /** body[offset:offset+n], which panics when it is out of range. */
  method Slice(body: seq<byte>, offset: nat, n: nat) returns (p: Option<seq<byte>>, next: nat)
    requires offset <= |body|
    ensures next == if p.Some? then offset + n else offset
    ensures p.Some? ==> next <= |body|
    ensures Split(body[offset..], n) == if p.Some? then Some((p.value, body[next..])) else None
  {
    p, next := None, offset;
    if offset + n <= |body| {
      p, next := Some(body[offset..offset + n]), offset + n;
      assert body[offset..][..n] == body[offset..offset + n] && body[offset..][n..] == body[next..];
    }
  }

  method DecodeFrame(r: Reader) returns (result: DecodeResult)
    modifies r
    ensures result == Decode(old(r.data))
    ensures result.Decoded? ==> r.data == result.rest
  {
    hide LittleEndian;
    ghost var s := r.data;
    var available := |r.data|;
    var header := r.ReadFull(7);
    if header.None? {
      return Failed(ReadError(available));
    }
    var magic := LittleEndian(header.value[..2]);
    if magic != MAGIC_NUMBER {
      return Failed(InvalidMagic);
    }
    if header.value[2] != VERSION {
      return Failed(InvalidVersion);
    }
    var frameLen := LittleEndian(header.value[3..7]);
    assert DecodeHeader(header.value) == BodyLength(frameLen);
    hide DecodeHeader, DecodeBody;
    available := |r.data|;
    var body := r.ReadFull(frameLen);
    if body.None? {
      return Failed(ReadError(available));
    }
    var frame := DecodeFields(body.value);
    if frame.None? {
      return Failed(Panic);
    }
    return Decoded(frame.value, r.data);
  }

  /** The fields of the body in turn; None is an index out of range. */
  method DecodeFields(body: seq<byte>) returns (frame: Option<Frame>)
    ensures frame == DecodeBody(body)
  {
    assert body[0..] == body;
    hide LittleEndian, Split;
    var frameType, offset := Slice(body, 0, 1);
    if frameType.None? { return None; }
    var connID, timestamp, direction: Option<seq<byte>>;
    connID, offset := Slice(body, offset, 8);
    if connID.None? { return None; }
    timestamp, offset := Slice(body, offset, 8);
    if timestamp.None? { return None; }
    direction, offset := Slice(body, offset, 1);
    if direction.None? { return None; }
    assert |frameType.value| == 1 && |connID.value| == 8 && |timestamp.value| == 8 && |direction.value| == 1;
    var fixed := Frame(frameType.value[0], Uint64(connID.value), Signed(Uint64(timestamp.value)),
                       if direction.value[0] == 0x01 then ServerToClient else ClientToServer, [], [], []);
    assert DecodeFixed(body) == Some((fixed, body[offset..]));
    hide DecodeFixed;

    var clientAddrLen, clientAddr, serverAddrLen, serverAddr: Option<seq<byte>>;
    clientAddrLen, offset := Slice(body, offset, 1);
    if clientAddrLen.None? { return None; }
    clientAddr, offset := Slice(body, offset, clientAddrLen.value[0]);
    if clientAddr.None? { return None; }
    serverAddrLen, offset := Slice(body, offset, 1);
    if serverAddrLen.None? { return None; }
    serverAddr, offset := Slice(body, offset, serverAddrLen.value[0]);
    if serverAddr.None? { return None; }

    var dataLen, data: Option<seq<byte>>;
    dataLen, offset := Slice(body, offset, 4);
    if dataLen.None? { return None; }
    data, offset := Slice(body, offset, LittleEndian(dataLen.value));
    if data.None? { return None; }
    return Some(fixed.(clientAddr := clientAddr.value, serverAddr := serverAddr.value, data := data.value));
  }
}
