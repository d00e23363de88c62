/** The wire format between Proxy and Analyzer (internal/ipc/frame.go). */
module Frames {
  import opened Bytes
  import opened Packets

  const MAGIC_NUMBER := 0x524F
  const VERSION: byte := 0x01

  const FRAME_TYPE_DATA: byte := 0x00
  const FRAME_TYPE_CONN_OPEN: byte := 0x01
  const FRAME_TYPE_CONN_CLOSE: byte := 0x02
  const FRAME_TYPE_IPC_DISCONNECT: byte := 0x03

  datatype Frame = Frame(
    frameType: byte, connectionId: uint64, timestamp: int64, direction: PacketDirection,
    clientAddr: seq<byte>, serverAddr: seq<byte>, data: seq<byte>)
  {
    function ToRawChunk(): RawChunk {
      RawChunk(connectionId, timestamp, direction, data)
    }
  }

  // ---------------------------------------------------------------- the format

  function Unsigned(t: int64): (u: uint64) {
    if t < 0 then t + TWO_TO_THE_64 else t
  }

  function Signed(u: uint64): (t: int64) {
    if u >= 0x8000_0000_0000_0000 then u - TWO_TO_THE_64 else u
  }

  function DirectionByte(d: PacketDirection): byte {
    if d == ServerToClient then 0x01 else 0x00
  }

  function EncodeFixed(f: Frame): seq<byte> {
    [f.frameType] + (PutLittleEndian(f.connectionId, 8) +
    (PutLittleEndian(Unsigned(f.timestamp), 8) + [DirectionByte(f.direction)]))
  }

  /** The length of an address is cut to a byte, as the conversion of the source does. */
  function EncodeAddress(address: seq<byte>): seq<byte> {
    [|address| % 256] + address
  }

  /** The data length is cut to 32 bits. */
  function EncodeData(data: seq<byte>): seq<byte> {
    PutLittleEndian(|data| % TWO_TO_THE_32, 4) + data
  }

  function EncodeVariable(f: Frame): seq<byte> {
    EncodeAddress(f.clientAddr) + (EncodeAddress(f.serverAddr) + EncodeData(f.data))
  }

  function EncodeBody(f: Frame): (body: seq<byte>)
    ensures |body| == BodySize(f)
  {
    EncodeFixed(f) + EncodeVariable(f)
  }

  function BodySize(f: Frame): (n: nat) {
    24 + |f.clientAddr| + |f.serverAddr| + |f.data|
  }

  function EncodeHeader(bodySize: nat): (header: seq<byte>)
    ensures |header| == 7
  {
    PutLittleEndian(MAGIC_NUMBER, 2) + [VERSION] + PutLittleEndian(bodySize % TWO_TO_THE_32, 4)
  }

  function Encode(f: Frame): (s: seq<byte>)
    ensures |s| == 7 + BodySize(f)
  {
    EncodeHeader(BodySize(f)) + EncodeBody(f)
  }

  predicate Encodable(f: Frame) {
    |f.clientAddr| <= 255 && |f.serverAddr| <= 255 && BodySize(f) < TWO_TO_THE_32
  }

  datatype DecodeError = EndOfFile | UnexpectedEndOfFile | InvalidMagic | InvalidVersion | Panic

  datatype DecodeResult = Decoded(frame: Frame, rest: seq<byte>) | Failed(error: DecodeError)

  /** The first n bytes and the others; None where the source indexes out of range. */
  function Split(b: seq<byte>, n: nat): (r: Option<(seq<byte>, seq<byte>)>)
    ensures r.Some? ==> r.value.0 + r.value.1 == b && |r.value.0| == n
  {
    if n <= |b| then Some((b[..n], b[n..])) else None
  }

  /** io.ReadFull. */
  function ReadError(available: nat): DecodeError {
    if available == 0 then EndOfFile else UnexpectedEndOfFile
  }

  function DecodeFixed(body: seq<byte>): Option<(Frame, seq<byte>)> {
    var (frameType, b1) :- Split(body, 1);
    var (connectionId, b2) :- Split(b1, 8);
    var (timestamp, b3) :- Split(b2, 8);
    var (direction, b4) :- Split(b3, 1);
    Some((Frame(frameType[0], Uint64(connectionId), Signed(Uint64(timestamp)),
                if direction[0] == 0x01 then ServerToClient else ClientToServer, [], [], []), b4))
  }

  function DecodeAddress(b: seq<byte>): Option<(seq<byte>, seq<byte>)> {
    var (length, b') :- Split(b, 1);
    Split(b', length[0])
  }

  function DecodeData(b: seq<byte>): Option<seq<byte>> {
    var (length, b') :- Split(b, 4);
    var (data, _) :- Split(b', LittleEndian(length));
    Some(data)
  }

  function DecodeVariable(fixed: Frame, b4: seq<byte>): Option<Frame> {
    var (clientAddr, b6) :- DecodeAddress(b4);
    var (serverAddr, b8) :- DecodeAddress(b6);
    var data :- DecodeData(b8);
    Some(fixed.(clientAddr := clientAddr, serverAddr := serverAddr, data := data))
  }

  function DecodeBody(body: seq<byte>): Option<Frame> {
    var (fixed, b4) :- DecodeFixed(body);
    DecodeVariable(fixed, b4)
  }

  function Uint64(s: seq<byte>): uint64
    requires |s| == 8
  {
    Widths();
    LittleEndian(s)
  }

  datatype HeaderResult = BodyLength(size: nat) | BadHeader(error: DecodeError)

  function DecodeHeader(header: seq<byte>): HeaderResult
    requires |header| == 7
  {
    if LittleEndian(header[..2]) != MAGIC_NUMBER then BadHeader(InvalidMagic)
    else if header[2] != VERSION then BadHeader(InvalidVersion)
    else BodyLength(LittleEndian(header[3..7]))
  }

  function Decode(s: seq<byte>): DecodeResult {
    match Split(s, 7)
    case None => Failed(ReadError(|s|))
    case Some((header, s')) =>
      match DecodeHeader(header)
      case BadHeader(error) => Failed(error)
      case BodyLength(frameLen) =>
        match Split(s', frameLen)
        case None => Failed(ReadError(|s'|))
        case Some((body, rest)) =>
          match DecodeBody(body)
          case None => Failed(Panic)
          case Some(frame) => Decoded(frame, rest)
  }

  // ---------------------------------------------------------------- the format, byte by byte

  /** Every byte of the encoding of f: magic, version, length of what follows, type, connection, timestamp in two's
      complement, direction, and the three fields of variable length, each behind its length. */
  predicate Layout(f: Frame, s: seq<byte>) {
    var a, b, d := |f.clientAddr|, |f.serverAddr|, |f.data|;
    && |s| == 31 + a + b + d
    && s[0] == 0x4F && s[1] == 0x52 && s[2] == 0x01
    && Number32At(s, 3, (24 + a + b + d) % 0x1_0000_0000)
    && s[7] == f.frameType
    && Number64At(s, 8, f.connectionId)
    && Number64At(s, 16, if f.timestamp < 0 then f.timestamp + 0x1_0000_0000_0000_0000 else f.timestamp)
    && s[24] == (if f.direction == ServerToClient then 0x01 else 0x00)
    && s[25] == a % 256 && s[26..26 + a] == f.clientAddr
    && s[26 + a] == b % 256 && s[27 + a..27 + a + b] == f.serverAddr
    && Number32At(s, 27 + a + b, d % 0x1_0000_0000)
    && s[31 + a + b..] == f.data
  }

  lemma PieceAt(a: seq<byte>, piece: seq<byte>, b: seq<byte>)
    ensures (a + (piece + b))[|a|..|a| + |piece|] == piece
  {
  }

  lemma HeaderLayout(bodySize: nat, rest: seq<byte>)
    ensures var s := EncodeHeader(bodySize) + rest;
            && s[0] == 0x4F && s[1] == 0x52 && s[2] == 0x01
            && Number32At(s, 3, bodySize % 0x1_0000_0000)
  {
    Widths();
    var size := PutLittleEndian(bodySize % TWO_TO_THE_32, 4);
    var magic := PutLittleEndian(MAGIC_NUMBER, 2);
    assert magic == [0x4F] + PutLittleEndian(0x52, 1) == [0x4F, 0x52];
    PutThenGet(bodySize % TWO_TO_THE_32, 4);
    hide PutLittleEndian, LittleEndian, Pow256;
    PieceAt(magic + [VERSION], size, rest);
    assert EncodeHeader(bodySize) + rest == magic + [VERSION] + (size + rest);
    FourBytes(EncodeHeader(bodySize) + rest, 3);
  }

  lemma FixedPieces(before: seq<byte>, kind: byte, id: seq<byte>, time: seq<byte>, d: byte, rest: seq<byte>)
    requires |id| == 8 && |time| == 8
    ensures var s, i := before + ([kind] + (id + (time + [d])) + rest), |before|;
            && |s| == i + 18 + |rest| && s[i] == kind && s[i + 17] == d
            && s[i + 1..i + 9] == id && s[i + 9..i + 17] == time
  {
  }

  lemma FixedLayout(f: Frame, before: seq<byte>, rest: seq<byte>)
    ensures var s, i := before + (EncodeFixed(f) + rest), |before|;
            && s[i] == f.frameType
            && Number64At(s, i + 1, f.connectionId)
            && Number64At(s, i + 9, Unsigned(f.timestamp))
            && s[i + 17] == DirectionByte(f.direction)
  {
    hide PutLittleEndian, LittleEndian, Pow256, Number64At, Unsigned, DirectionByte;
    Widths();
    PutThenGet(f.connectionId, 8);
    PutThenGet(Unsigned(f.timestamp), 8);
    var s, i := before + (EncodeFixed(f) + rest), |before|;
    FixedPieces(before, f.frameType, PutLittleEndian(f.connectionId, 8), PutLittleEndian(Unsigned(f.timestamp), 8),
                DirectionByte(f.direction), rest);
    hide EncodeFixed;
    EightBytes(s, i + 1);
    EightBytes(s, i + 9);
  }

  lemma AddressLayout(address: seq<byte>, before: seq<byte>, rest: seq<byte>)
    ensures var s, i := before + (EncodeAddress(address) + rest), |before|;
            s[i] == |address| % 256 && s[i + 1..i + 1 + |address|] == address
  {
  }

  lemma DataLayout(data: seq<byte>, before: seq<byte>)
    ensures var s, i := before + EncodeData(data), |before|;
            Number32At(s, i, |data| % 0x1_0000_0000) && s[i + 4..] == data
  {
    Widths();
    PutThenGet(|data| % TWO_TO_THE_32, 4);
    hide PutLittleEndian, LittleEndian, Pow256;
    var s, i := before + EncodeData(data), |before|;
    assert s[i..i + 4] == PutLittleEndian(|data| % TWO_TO_THE_32, 4);
    FourBytes(s, i);
  }

  lemma LayoutOfEncode(f: Frame)
    ensures Layout(f, Encode(f))
  {
    hide EncodeHeader, EncodeFixed, EncodeAddress, EncodeData, Number32At, Number64At;
    var header, fixed := EncodeHeader(BodySize(f)), EncodeFixed(f);
    var client, server, data := EncodeAddress(f.clientAddr), EncodeAddress(f.serverAddr), EncodeData(f.data);
    Grouped(header, fixed, client, server, data);
    Sizes(f);
    HeaderLayout(BodySize(f), EncodeBody(f));
    FixedLayout(f, header, client + (server + data));
    AddressLayout(f.clientAddr, header + fixed, server + data);
    AddressLayout(f.serverAddr, header + fixed + client, data);
    DataLayout(f.data, header + fixed + client + server);
  }

  lemma Sizes(f: Frame)
    ensures |EncodeHeader(BodySize(f))| == 7 && |EncodeFixed(f)| == 18
    ensures |EncodeAddress(f.clientAddr)| == 1 + |f.clientAddr| && |EncodeAddress(f.serverAddr)| == 1 + |f.serverAddr|
    ensures |EncodeData(f.data)| == 4 + |f.data|
  {
  }

  lemma Grouped(a: seq<byte>, b: seq<byte>, c: seq<byte>, d: seq<byte>, e: seq<byte>)
    ensures a + (b + (c + (d + e))) == a + b + (c + (d + e)) == a + b + c + (d + e) == a + b + c + d + e
  {
  }

  // ---------------------------------------------------------------- what is read, of any bytes

  /** The body holds all fields: 18 bytes, two addresses and the data, as long as their lengths say. */
  predicate Holds(body: seq<byte>) {
    && |body| >= 19
    && var a := body[18] as int;
       && |body| >= 20 + a
       && var b := body[19 + a] as int;
          && |body| >= 24 + a + b
          && |body| >= 24 + a + b + Number32(body, 20 + a + b)
  }

  /** The fields of a body that holds them all; what is behind them is ignored. */
  predicate FieldsOf(body: seq<byte>, f: Frame)
    requires Holds(body)
  {
    var a := body[18] as int;
    var b := body[19 + a] as int;
    && f.frameType == body[0]
    && Number64At(body, 1, f.connectionId)
    && Number64At(body, 9, if f.timestamp < 0 then f.timestamp + 0x1_0000_0000_0000_0000 else f.timestamp)
    && f.direction == (if body[17] == 0x01 then ServerToClient else ClientToServer)
    && f.clientAddr == body[19..19 + a]
    && f.serverAddr == body[20 + a..20 + a + b]
    && f.data == body[24 + a + b..24 + a + b + Number32(body, 20 + a + b)]
  }

  lemma FixedFieldsMean(body: seq<byte>)
    ensures var r := DecodeFixed(body);
            && (r.Some? <==> |body| >= 18)
            && (r.Some? ==>
                  && r.value.1 == body[18..]
                  && var f := r.value.0;
                     && f.frameType == body[0]
                     && Number64At(body, 1, f.connectionId) && Number64At(body, 9, Unsigned(f.timestamp))
                     && f.direction == if body[17] == 0x01 then ServerToClient else ClientToServer)
  {
    hide LittleEndian, Number64At;
    if |body| >= 18 {
      var b1 := body[1..];
      var b2 := b1[8..];
      var b3 := b2[8..];
      assert b2 == body[9..] && b3 == body[17..] && b3[1..] == body[18..];
      assert b1[..8] == body[1..9] && b2[..8] == body[9..17];
      EightBytes(body, 1);
      EightBytes(body, 9);
    }
  }

  lemma AddressFieldMeans(body: seq<byte>, i: nat)
    requires i <= |body|
    ensures var r := DecodeAddress(body[i..]);
            && (r.Some? <==> i < |body| && i + 1 + body[i] as int <= |body|)
            && (r.Some? ==> r.value == (body[i + 1..i + 1 + body[i] as int], body[i + 1 + body[i] as int..]))
  {
    if i < |body| {
      var n := body[i] as int;
      assert body[i..][1..] == body[i + 1..];
      if i + 1 + n <= |body| {
        assert body[i + 1..][..n] == body[i + 1..i + 1 + n] && body[i + 1..][n..] == body[i + 1 + n..];
      }
    }
  }

  lemma DataFieldMeans(body: seq<byte>, i: nat)
    requires i <= |body|
    ensures var r := DecodeData(body[i..]);
            && (r.Some? <==> i + 4 <= |body| && i + 4 + Number32(body, i) <= |body|)
            && (r.Some? ==> r.value == body[i + 4..i + 4 + Number32(body, i)])
  {
    hide LittleEndian;
    if i + 4 <= |body| {
      FourBytes(body, i);
      assert body[i..][..4] == body[i..i + 4] && body[i..][4..] == body[i + 4..];
    }
  }

  lemma BodyMeans(body: seq<byte>)
    ensures DecodeBody(body).Some? <==> Holds(body)
    ensures Holds(body) ==> FieldsOf(body, DecodeBody(body).value)
  {
    hide DecodeFixed, DecodeAddress, DecodeData, Number64At, Number32;
    FixedFieldsMean(body);
    if |body| >= 18 {
      AddressFieldMeans(body, 18);
      if |body| >= 19 {
        var a := body[18] as int;
        if |body| >= 19 + a { AddressFieldMeans(body, 19 + a); }
        if |body| >= 20 + a {
          var b := body[19 + a] as int;
          if |body| >= 20 + a + b { DataFieldMeans(body, 20 + a + b); }
        }
      }
    }
  }

  /** Whatever the bytes: what is refused, and why, and what is read otherwise. */
  lemma DecodeMeans(s: seq<byte>)
    ensures match Decode(s)
            case Failed(error) =>
              if |s| < 7 then error == if s == [] then EndOfFile else UnexpectedEndOfFile
              else if s[0] != 0x4F || s[1] != 0x52 then error == InvalidMagic
              else if s[2] != 0x01 then error == InvalidVersion
              else
                var n := Number32(s, 3);
                if |s| < 7 + n then error == if |s| == 7 then EndOfFile else UnexpectedEndOfFile
                else error == Panic && !Holds(s[7..7 + n])
            case Decoded(frame, rest) =>
              && |s| >= 7 && s[0] == 0x4F && s[1] == 0x52 && s[2] == 0x01
              && var n := Number32(s, 3);
                 && |s| >= 7 + n && rest == s[7 + n..]
                 && Holds(s[7..7 + n]) && FieldsOf(s[7..7 + n], frame)
  {
    hide LittleEndian, DecodeBody, Holds, FieldsOf, Number32, Number32At;
    if |s| >= 7 {
      var header := s[..7];
      MagicMeans(header);
      FourBytes(s, 3);
      assert header[3..7] == s[3..7];
      NumberIs(s, 3, LittleEndian(s[3..7]));
      var n := Number32(s, 3);
      if |s| >= 7 + n {
        assert s[7..][..n] == s[7..7 + n] && s[7..][n..] == s[7 + n..];
        BodyMeans(s[7..7 + n]);
      }
    }
  }

  lemma MagicMeans(header: seq<byte>)
    requires |header| == 7
    ensures LittleEndian(header[..2]) == MAGIC_NUMBER <==> header[0] == 0x4F && header[1] == 0x52
  {
    assert header[..2][1..] == [header[1]] && LittleEndian([header[1]]) == header[1];
    assert LittleEndian(header[..2]) == header[0] as int + 256 * header[1] as int;
  }

  // ---------------------------------------------------------------- one frame

  lemma SplitConcat(a: seq<byte>, b: seq<byte>)
    ensures Split(a + b, |a|) == Some((a, b))
  {
    assert (a + b)[..|a|] == a && (a + b)[|a|..] == b;
  }

  lemma FixedRoundTrip(f: Frame, rest: seq<byte>)
    ensures DecodeFixed(EncodeFixed(f) + rest) == Some((f.(clientAddr := [], serverAddr := [], data := []), rest))
  {
    Widths();
    var idBytes, timeBytes := PutLittleEndian(f.connectionId, 8), PutLittleEndian(Unsigned(f.timestamp), 8);
    PutThenGet(f.connectionId, 8);
    PutThenGet(Unsigned(f.timestamp), 8);
    hide PutLittleEndian, LittleEndian, Pow256, Split;
    var b3 := [DirectionByte(f.direction)] + rest;
    var b2 := timeBytes + b3;
    var b1 := idBytes + b2;
    SplitConcat([f.frameType], b1);
    SplitConcat(idBytes, b2);
    SplitConcat(timeBytes, b3);
    SplitConcat([DirectionByte(f.direction)], rest);
    assert EncodeFixed(f) + rest == [f.frameType] + b1;
  }

  lemma AddressRoundTrip(address: seq<byte>, rest: seq<byte>)
    requires |address| <= 255
    ensures DecodeAddress(EncodeAddress(address) + rest) == Some((address, rest))
  {
    SplitConcat([|address|], address + rest);
    SplitConcat(address, rest);
    assert EncodeAddress(address) + rest == [|address|] + (address + rest);
    hide Split;
  }

  lemma DataRoundTrip(data: seq<byte>)
    requires |data| < TWO_TO_THE_32
    ensures DecodeData(EncodeData(data)) == Some(data)
  {
    hide PutLittleEndian, LittleEndian, Pow256, Split;
    Widths();
    PutThenGet(|data|, 4);
    SplitConcat(PutLittleEndian(|data|, 4), data);
    SplitConcat(data, []);
    assert data + [] == data;
  }

  lemma VariableRoundTrip(f: Frame, fixed: Frame)
    requires Encodable(f)
    requires fixed == f.(clientAddr := [], serverAddr := [], data := [])
    ensures DecodeVariable(fixed, EncodeVariable(f)) == Some(f)
  {
    hide EncodeAddress, EncodeData, DecodeAddress, DecodeData;
    AddressRoundTrip(f.clientAddr, EncodeAddress(f.serverAddr) + EncodeData(f.data));
    AddressRoundTrip(f.serverAddr, EncodeData(f.data));
    DataRoundTrip(f.data);
  }

  lemma BodyRoundTrip(f: Frame)
    requires Encodable(f)
    ensures DecodeBody(EncodeBody(f)) == Some(f)
  {
    var fixed := f.(clientAddr := [], serverAddr := [], data := []);
    FixedRoundTrip(f, EncodeVariable(f));
    VariableRoundTrip(f, fixed);
    hide DecodeFixed, DecodeVariable, EncodeFixed, EncodeVariable;
  }

  lemma HeaderRoundTrip(bodySize: nat)
    requires bodySize < TWO_TO_THE_32
    ensures DecodeHeader(EncodeHeader(bodySize)) == BodyLength(bodySize)
  {
    Widths();
    PutThenGet(MAGIC_NUMBER, 2);
    PutThenGet(bodySize, 4);
    var magic, size := PutLittleEndian(MAGIC_NUMBER, 2), PutLittleEndian(bodySize, 4);
    var header := EncodeHeader(bodySize);
    assert header[..2] == magic && header[2] == VERSION && header[3..7] == size;
    hide PutLittleEndian, LittleEndian, Pow256;
  }

  lemma HeaderThenBody(f: Frame, rest: seq<byte>)
    requires BodySize(f) < TWO_TO_THE_32
    ensures var s := Encode(f) + rest;
            && Split(s, 7) == Some((s[..7], EncodeBody(f) + rest))
            && DecodeHeader(s[..7]) == BodyLength(BodySize(f))
  {
    var header := EncodeHeader(BodySize(f));
    HeaderRoundTrip(BodySize(f));
    hide EncodeHeader, DecodeHeader, EncodeBody;
    SplitConcat(header, EncodeBody(f) + rest);
    assert header + EncodeBody(f) + rest == header + (EncodeBody(f) + rest);
  }

  lemma VariableBounds(fixed: Frame, b: seq<byte>)
    ensures var r := DecodeVariable(fixed, b);
            r.Some? ==>
              && |r.value.clientAddr| <= 255 && |r.value.serverAddr| <= 255
              && 6 + |r.value.clientAddr| + |r.value.serverAddr| + |r.value.data| <= |b|
  {
    hide LittleEndian;
  }

  /** What was decoded could have been encoded: nested lengths bound the fields. */
  lemma DecodedIsEncodable(s: seq<byte>)
    ensures Decode(s).Decoded? ==> Encodable(Decode(s).frame)
  {
    if Decode(s).Decoded? {
      Widths();
      var header := s[..7];
      var body := Split(s[7..], DecodeHeader(header).size).value.0;
      assert |body| == LittleEndian(header[3..7]) < TWO_TO_THE_32;
      var (fixed, b4) := DecodeFixed(body).value;
      assert 18 + |b4| == |body|;
      hide LittleEndian, DecodeFixed, DecodeVariable;
      VariableBounds(fixed, b4);
    }
  }

  /** A frame comes back, timestamp sign included, with what follows it untouched, exactly when it is encodable. */
  lemma RoundTrip(f: Frame, rest: seq<byte>)
    ensures Decode(Encode(f) + rest) == Decoded(f, rest) <==> Encodable(f)
  {
    DecodedIsEncodable(Encode(f) + rest);
    if Encodable(f) {
      HeaderThenBody(f, rest);
      BodyRoundTrip(f);
      SplitConcat(EncodeBody(f), rest);
      hide DecodeHeader, DecodeBody, Encode, EncodeBody, Split;
    }
  }

  /** Decoding reads no further than the frame: a stream cut inside it ends, one cut later decodes the same. */
  lemma DecodePrefix(s: seq<byte>, k: nat)
    requires Decode(s).Decoded? && k <= |s|
    ensures var n := |s| - |Decode(s).rest|;
            && n >= 7
            && (k < n ==> Decode(s[..k]) == Failed(CutError(k)))
            && (k >= n ==> Decode(s[..k]) == Decoded(Decode(s).frame, Decode(s).rest[..k - n]))
  {
    hide DecodeHeader, DecodeBody;
    var n := |s| - |Decode(s).rest|;
    if k >= 7 {
      assert s[..k][..7] == s[..7];
      var frameLen := DecodeHeader(s[..7]).size;
      var body := s[7..][..frameLen];
      if k >= n {
        assert s[..k][7..][..frameLen] == body;
        assert s[..k][7..][frameLen..] == s[7..][frameLen..][..k - n];
      }
    }
  }

  /** The error n bytes into a frame: a cut right behind the header reads as a clean end of file too. */
  function CutError(n: nat): DecodeError {
    if n == 0 || n == 7 then EndOfFile else UnexpectedEndOfFile
  }

  // ---------------------------------------------------------------- a stream of frames

  function EncodeAll(frames: seq<Frame>): seq<byte> {
    if frames == [] then [] else Encode(frames[0]) + EncodeAll(frames[1..])
  }

  /** What a reader gets by decoding until the first error. */
  datatype Stream = Stream(frames: seq<Frame>, rest: seq<byte>, error: DecodeError)

  function DecodeStream(s: seq<byte>): Stream
    decreases |s|
  {
    match Decode(s)
    case Failed(error) => Stream([], s, error)
    case Decoded(frame, rest) =>
      var later := DecodeStream(rest);
      later.(frames := [frame] + later.frames)
  }

  /** Decoding the cut stream gives the first m frames, and what is left is less than one more. */
  ghost predicate WholeFrames(frames: seq<Frame>, cut: seq<byte>, m: nat)
  {
    var stream := DecodeStream(cut);
    && m <= |frames| && stream.frames == frames[..m]
    && EncodeAll(frames[..m]) + stream.rest == cut
    && (if m < |frames| then |stream.rest| < |Encode(frames[m])| else stream.rest == [])
    && stream.error == CutError(|stream.rest|)
  }

  /** However a stream of encodings is cut short, exactly the frames that are whole in it are decoded, in order, and
      then the stream is found to end. */
  lemma {:induction false} CutStream(frames: seq<Frame>, k: nat) returns (m: nat)
    requires forall f <- frames :: Encodable(f)
    requires k <= |EncodeAll(frames)|
    ensures WholeFrames(frames, EncodeAll(frames)[..k], m)
  {
    if frames == [] {
      return 0;
    }
    var f, tail := frames[0], frames[1..];
    assert frames == [f] + tail;
    var n := |Encode(f)|;
    if k < n {
      CutInside(f, EncodeAll(tail), k);
      m := 0;
    } else {
      hide WholeFrames, Encode, Encodable;
      var m' := CutStream(tail, k - n);
      CutLater(f, tail, k, m');
      m := m' + 1;
    }
  }

  lemma CutLater(f: Frame, tail: seq<Frame>, k: nat, m: nat)
    requires Encodable(f) && |Encode(f)| <= k <= |EncodeAll([f] + tail)|
    requires k - |Encode(f)| <= |EncodeAll(tail)|
    requires WholeFrames(tail, EncodeAll(tail)[..k - |Encode(f)|], m)
    ensures WholeFrames([f] + tail, EncodeAll([f] + tail)[..k], m + 1)
  {
    hide Encode, DecodeStream, EncodeAll, Encodable;
    var frames := [f] + tail;
    EncodeAllFirst(f, tail, []);
    EncodeAllFirst(f, tail[..m], DecodeStream(EncodeAll(tail)[..k - |Encode(f)|]).rest);
    CutAfter(f, EncodeAll(tail), k);
    assert frames[..m + 1] == [f] + tail[..m];
    assert m < |tail| ==> frames[m + 1] == tail[m];
  }

  lemma CutAfter(f: Frame, later: seq<byte>, k: nat)
    requires Encodable(f) && |Encode(f)| <= k <= |Encode(f) + later|
    ensures var tail := later[..k - |Encode(f)|];
            && (Encode(f) + later)[..k] == Encode(f) + tail
            && DecodeStream((Encode(f) + later)[..k])
            == DecodeStream(tail).(frames := [f] + DecodeStream(tail).frames)
  {
    var tail := later[..k - |Encode(f)|];
    RoundTrip(f, tail);
    hide Encode, Decode;
    assert (Encode(f) + later)[..k] == Encode(f) + tail;
  }

  lemma CutInside(f: Frame, later: seq<byte>, k: nat)
    requires Encodable(f) && k < |Encode(f)|
    ensures DecodeStream((Encode(f) + later)[..k]) == Stream([], (Encode(f) + later)[..k], CutError(k))
  {
    RoundTrip(f, later);
    hide Encode, Decode;
    DecodePrefix(Encode(f) + later, k);
  }

  lemma EncodeAllFirst(f: Frame, frames: seq<Frame>, rest: seq<byte>)
    ensures EncodeAll([f] + frames) == Encode(f) + EncodeAll(frames)
    ensures EncodeAll([f] + frames) + rest == Encode(f) + (EncodeAll(frames) + rest)
  {
    hide Encode;
    assert ([f] + frames)[1..] == frames;
  }

  /** Any list of encodable frames survives the wire with nothing left over. */
  lemma StreamRoundTrip(frames: seq<Frame>)
    requires forall f <- frames :: Encodable(f)
    ensures DecodeStream(EncodeAll(frames)) == Stream(frames, [], EndOfFile)
  {
    var whole := EncodeAll(frames);
    assert whole[..|whole|] == whole;
    var m := CutStream(frames, |whole|);
    var cut := DecodeStream(whole);
    if m < |frames| {
      SplitFrames(frames, m);
      assert false;
    } else {
      assert frames[..m] == frames;
    }
  }

  lemma {:induction false} SplitFrames(frames: seq<Frame>, m: nat)
    requires m < |frames|
    ensures |EncodeAll(frames)| >= |EncodeAll(frames[..m])| + |Encode(frames[m])|
  {
    hide Encode;
    if m == 0 {
    } else {
      assert frames[..m][1..] == frames[1..][..m - 1];
      SplitFrames(frames[1..], m - 1);
    }
  }
}
