/** What Worker.tryParsePackets (internal/analyzer/worker.go) computes, as a function of the buffered bytes. */
module Parser {
  import opened Bytes
  import opened Packets

  // ---------------------------------------------------------------- one packet

  const DELIMITER: seq<byte> := [0x0D, 0x0A, 0x0D, 0x0A]

  predicate DelimiterAt(s: seq<byte>, i: nat) {
    i + 4 <= |s| && s[i..i + 4] == DELIMITER
  }

  /** bytes.Index: the first place at or after i where the delimiter stands. */
  function IndexFrom(s: seq<byte>, i: nat): (at: Option<nat>)
    requires i <= |s|
    ensures at.Some? ==> i <= at.value && DelimiterAt(s, at.value)
    ensures forall j :: i <= j && (at.Some? ==> j < at.value) ==> !DelimiterAt(s, j)
    decreases |s| - i
  {
    if i + 4 > |s| then None
    else if DelimiterAt(s, i) then Some(i)
    else IndexFrom(s, i + 1)
  }

  /** parseHTTPPacket: the size of the packet that ends with the first blank line. */
  function HttpPacketSize(s: seq<byte>): (size: Option<nat>)
    ensures size.Some? ==> 4 <= size.value <= |s|
  {
    match IndexFrom(s, 0)
    case None => None
    case Some(headerEnd) => Some(headerEnd + 4)
  }

  /** One turn of the parsing loop: wait for more bytes, skip a byte, or take a packet.
      A FIXED entry of negative size makes the source panic, and one of size zero makes it loop for ever. */
  datatype Decision = Wait | Skip | Take(size: nat) | Panic | Spin

  function Sized(size: int, buffered: nat): Decision {
    if buffered < size then Wait
    else if size < 0 then Panic
    else if size == 0 then Spin
    else Take(size)
  }

  function Decide(table: PacketTable, buf: seq<byte>): (d: Decision)
    ensures d.Take? ==> 0 < d.size <= |buf|
    ensures d != Wait ==> |buf| >= 2
  {
    if |buf| < 2 then Wait
    else if Uint16(buf, 0) !in table then Skip
    else
      var spec := table[Uint16(buf, 0)];
      match spec.sizeType
      case FIXED => Sized(spec.size, |buf|)
      case FIXED_MIN => Sized(spec.size, |buf|)
      case INDICATED_IN_PACKET =>
        if |buf| < 4 then Wait
        else
          var size := Uint16(buf, 2);
          Sized(if size < 2 || size > 10 * 1024 * 1024 then 2 else size, |buf|)
      case HTTP =>
        (match HttpPacketSize(buf)
         case None => Wait
         case Some(size) => Take(size))
      case UNKNOWN => Skip
  }

  /** How many bytes after a packet are taken for its checksum: the guess looks at where the buffer ends. */
  function ChecksumSize(db: PacketDatabase, direction: PacketDirection, rest: seq<byte>): (n: nat)
    ensures n <= 1 && n <= |rest|
  {
    if direction == ServerToClient || |rest| == 0 then 0
    else if |rest| == 1 then 1
    else if Uint16(rest, 0) in db.send then 0
    else if |rest| >= 3 && Uint16(rest, 1) in db.send then 1
    else 0
  }

  /** The packet handed to the deserializers: the payload starts after 2 or 4 bytes, or is empty in a shorter packet. */
  function MakePacket(direction: PacketDirection, opcode: nat, spec: PacketSpec, raw: seq<byte>, checksum: Option<byte>)
    : ParsedPacket
  {
    var startData := if spec.size == -1 then 4 else 2;
    ParsedPacket(direction, opcode, raw[if startData > |raw| then |raw| else startData..], checksum)
  }

  // ---------------------------------------------------------------- a whole buffer

  datatype Step = Skipped(b: byte) | Parsed(raw: seq<byte>, packet: ParsedPacket) {
    function Bytes(): seq<byte> {
      match this
      case Skipped(b) => [b]
      case Parsed(raw, packet) => raw + if packet.checksum.Some? then [packet.checksum.value] else []
    }
  }

  datatype Stop = Waiting | Panicked | Spinning

  /** What a parse consumed, what it left in the buffer and why it stopped. */
  datatype Run = Run(steps: seq<Step>, rest: seq<byte>, stop: Stop) {
    function After(earlier: seq<Step>): Run {
      Run(earlier + steps, rest, stop)
    }
  }

  /** The part of a loop turn that consumes bytes. */
  function Consume(db: PacketDatabase, direction: PacketDirection, buf: seq<byte>): (r: (Step, seq<byte>))
    requires Decide(db.Table(direction), buf).Skip? || Decide(db.Table(direction), buf).Take?
    ensures |r.1| < |buf|
  {
    match Decide(db.Table(direction), buf)
    case Skip => (Skipped(buf[0]), buf[1..])
    case Take(size) =>
      var raw, rest := buf[..size], buf[size..];
      var n := ChecksumSize(db, direction, rest);
      var opcode := Uint16(buf, 0);
      var checksum := if n == 1 then Some(rest[0]) else None;
      (Parsed(raw, MakePacket(direction, opcode, db.Table(direction)[opcode], raw, checksum)), rest[n..])
  }

  function Parse(db: PacketDatabase, direction: PacketDirection, buf: seq<byte>): (run: Run)
    decreases |buf|
  {
    match Decide(db.Table(direction), buf)
    case Wait => Run([], buf, Waiting)
    case Panic => Run([], buf, Panicked)
    case Spin => Run([], buf, Spinning)
    case _ =>
      var (step, rest) := Consume(db, direction, buf);
      Parse(db, direction, rest).After([step])
  }

  function PacketsOf(steps: seq<Step>): (packets: seq<ParsedPacket>)
    ensures |packets| <= |steps|
  {
    if steps == [] then []
    else (if steps[0].Parsed? then [steps[0].packet] else []) + PacketsOf(steps[1..])
  }

  function BytesOf(steps: seq<Step>): seq<byte> {
    if steps == [] then [] else steps[0].Bytes() + BytesOf(steps[1..])
  }

  lemma PacketsOfFirst(step: Step, steps: seq<Step>)
    ensures PacketsOf([step] + steps) == (if step.Parsed? then [step.packet] else []) + PacketsOf(steps)
  {
    assert ([step] + steps)[1..] == steps;
  }

  lemma {:induction false} PacketsOfAppend(a: seq<Step>, b: seq<Step>)
    ensures PacketsOf(a + b) == PacketsOf(a) + PacketsOf(b)
  {
    if a == [] {
      assert a + b == b;
    } else {
      assert a + b == [a[0]] + (a[1..] + b);
      PacketsOfFirst(a[0], a[1..] + b);
      PacketsOfAppend(a[1..], b);
    }
  }

  lemma BytesOfFirst(step: Step, steps: seq<Step>, rest: seq<byte>)
    ensures BytesOf([step] + steps) + rest == step.Bytes() + (BytesOf(steps) + rest)
  {
    assert ([step] + steps)[1..] == steps;
  }

  lemma AfterAfter(run: Run, a: seq<Step>, b: seq<Step>)
    ensures run.After(b).After(a) == run.After(a + b)
    ensures run.After([]) == run
  {
    assert a + (b + run.steps) == a + b + run.steps;
    assert [] + run.steps == run.steps;
  }

  // ---------------------------------------------------------------- conservation

  /** The length of a packet is the one its table entry calls for: the size of the entry, or the size the packet
      indicates (2 or 3 leave no room to indicate one), or up to and including its first blank line. */
  predicate Framed(spec: PacketSpec, raw: seq<byte>) {
    match spec.sizeType
    case FIXED => |raw| == spec.size
    case FIXED_MIN => |raw| == spec.size
    case INDICATED_IN_PACKET => |raw| >= 2 && (|raw| >= 4 ==> Uint16(raw, 2) == |raw|)
    case HTTP => |raw| >= 4 && DelimiterAt(raw, |raw| - 4) && forall j: nat :: j < |raw| - 4 ==> !DelimiterAt(raw, j)
    case UNKNOWN => false
  }

  lemma TakenIsFramed(table: PacketTable, buf: seq<byte>)
    requires Decide(table, buf).Take?
    ensures Framed(table[Uint16(buf, 0)], buf[..Decide(table, buf).size])
    ensures CallsFor(table[Uint16(buf, 0)], buf, Decide(table, buf).size)
  {
    var size := Decide(table, buf).size;
    TakesIff(table, buf, size);
    var raw := buf[..size];
    if table[Uint16(buf, 0)].sizeType == HTTP {
      forall j: nat | j + 4 <= size ensures DelimiterAt(raw, j) == DelimiterAt(buf, j) {
        assert raw[j..j + 4] == buf[j..j + 4];
      }
    }
  }

  /** A parsed packet is framed by the entry of its own opcode, carries as payload what follows its clamped header, and
      a checksum only from the client. */
  ghost predicate FaithfulStep(table: PacketTable, direction: PacketDirection, step: Step) {
    step.Parsed? ==>
      && step.packet.direction == direction
      && step.packet.opcode in table
      && Framed(table[step.packet.opcode], step.raw)
      && (step.packet.checksum.Some? ==> direction == ClientToServer)
      && 0 < |step.raw|
      && (|step.raw| >= 2 ==> step.packet.opcode == Uint16(step.raw, 0))
      && var header := if table[step.packet.opcode].size == -1 then 4 else 2;
         step.packet.payload == if |step.raw| <= header then [] else step.raw[header..]
  }

  lemma ConsumeBytes(db: PacketDatabase, direction: PacketDirection, buf: seq<byte>)
    requires Decide(db.Table(direction), buf).Skip? || Decide(db.Table(direction), buf).Take?
    ensures var (step, rest) := Consume(db, direction, buf);
            && step.Bytes() + rest == buf
            && (step.Parsed? ==>
                  && 0 < |step.raw| && step.raw <= buf && step.raw <= step.Bytes()
                  && var tail := buf[|step.raw|..];
                     rest == tail[ChecksumSize(db, direction, tail)..])
  {
    var d := Decide(db.Table(direction), buf);
    var (step, rest) := Consume(db, direction, buf);
    hide Decide;
    if d.Take? {
      var tail := buf[d.size..];
      var n := ChecksumSize(db, direction, tail);
      hide ChecksumSize;
      assert step.Bytes() == buf[..d.size] + tail[..n];
      SplitTwice(buf, d.size, n);
    }
  }

  lemma SplitTwice(buf: seq<byte>, size: nat, n: nat)
    requires size + n <= |buf|
    ensures buf[..size] + buf[size..][..n] + buf[size..][n..] == buf
  {
  }

  /** No byte is lost, duplicated or reordered, whatever the table, the direction and the reason for stopping. */
  lemma {:induction false} Conservation(db: PacketDatabase, direction: PacketDirection, buf: seq<byte>)
    ensures var run := Parse(db, direction, buf);
            BytesOf(run.steps) + run.rest == buf
    decreases |buf|
  {
    var d := Decide(db.Table(direction), buf);
    if d.Skip? || d.Take? {
      var (step, rest) := Consume(db, direction, buf);
      ConsumeBytes(db, direction, buf);
      Conservation(db, direction, rest);
      var run := Parse(db, direction, rest);
      BytesOfFirst(step, run.steps, run.rest);
    }
  }

  lemma FaithfulFirst(db: PacketDatabase, direction: PacketDirection, buf: seq<byte>)
    requires Decide(db.Table(direction), buf).Skip? || Decide(db.Table(direction), buf).Take?
    ensures FaithfulStep(db.Table(direction), direction, Consume(db, direction, buf).0)
  {
    if Decide(db.Table(direction), buf).Take? {
      TakenIsFramed(db.Table(direction), buf);
    }
    hide Framed;
  }

  /** Every packet parsed is faithful, and a buffer is left waiting only when it holds no whole packet. */
  lemma {:induction false} Faithful(db: PacketDatabase, direction: PacketDirection, buf: seq<byte>)
    ensures var run := Parse(db, direction, buf);
            && (forall step <- run.steps :: FaithfulStep(db.Table(direction), direction, step))
            && (run.stop == Waiting ==> Decide(db.Table(direction), run.rest) == Wait)
    decreases |buf|
  {
    var d := Decide(db.Table(direction), buf);
    if d.Skip? || d.Take? {
      var (step, rest) := Consume(db, direction, buf);
      FaithfulFirst(db, direction, buf);
      hide Decide, Consume, FaithfulStep;
      Faithful(db, direction, rest);
    }
  }

  // ---------------------------------------------------------------- what the format says

  /** The buffer starts with an opcode, low byte first, of a type that makes packets. */
  predicate Known(table: PacketTable, buf: seq<byte>) {
    && |buf| >= 2
    && var opcode := buf[0] as int + 256 * buf[1] as int;
       opcode in table && table[opcode].sizeType != UNKNOWN
  }

  /** A blank line, two CR LF in a row, ends right before place n. */
  predicate BlankLineBefore(s: seq<byte>, n: int) {
    4 <= n <= |s| && s[n - 4] == 0x0D && s[n - 3] == 0x0A && s[n - 2] == 0x0D && s[n - 1] == 0x0A
  }

  /** The entry calls for a packet of n bytes at the front of the buffer: its own size, the size the packet indicates in
      its third and fourth byte but at least 2, or all up to and including the first blank line. */
  ghost predicate CallsFor(spec: PacketSpec, buf: seq<byte>, n: int) {
    match spec.sizeType
    case FIXED => n == spec.size
    case FIXED_MIN => n == spec.size
    case INDICATED_IN_PACKET =>
      && |buf| >= 4
      && var indicated := buf[2] as int + 256 * buf[3] as int;
         n == if indicated < 2 then 2 else indicated
    case HTTP => BlankLineBefore(buf, n) && forall m :: m < n ==> !BlankLineBefore(buf, m)
    case UNKNOWN => false
  }

  /** Of a packet of its own: its entry calls for just its length. From 4 bytes on, an indicated size is exact. */
  ghost predicate Whole(table: PacketTable, raw: seq<byte>) {
    Known(table, raw) && CallsFor(table[raw[0] as int + 256 * raw[1] as int], raw, |raw|)
  }

  /** What stands behind a packet of the client looks like a checksum: a single byte, or a byte that starts no known
      opcode but is followed by one. */
  predicate LooksLikeChecksum(send: PacketTable, tail: seq<byte>) {
    || |tail| == 1
    || (&& |tail| >= 3
        && tail[0] as int + 256 * tail[1] as int !in send
        && tail[1] as int + 256 * tail[2] as int in send)
  }

  /** With these bytes behind it, the step is what the format says of the bytes it consumed. */
  ghost predicate RightStep(db: PacketDatabase, direction: PacketDirection, step: Step, behind: seq<byte>) {
    var buf := step.Bytes() + behind;
    match step
    case Skipped(_) => |buf| >= 2 && !Known(db.Table(direction), buf)
    case Parsed(raw, packet) =>
      && Known(db.Table(direction), buf)
      && packet.opcode == buf[0] as int + 256 * buf[1] as int
      && var spec := db.Table(direction)[packet.opcode];
         && raw != [] && CallsFor(spec, buf, |raw|)
         && packet.direction == direction
         && (var header := if spec.size == -1 then 4 else 2;
             packet.payload == if |raw| <= header then [] else raw[header..])
         && (packet.checksum.Some? <==>
               direction == ClientToServer && LooksLikeChecksum(db.send, buf[|raw|..]))
  }

  /** Why a parse ends before these bytes: they are fewer than the packet they start, or than an opcode; or the packet
      has a negative size, or none. */
  ghost predicate Stopped(table: PacketTable, rest: seq<byte>, stop: Stop) {
    if !Known(table, rest) then |rest| < 2 && stop == Waiting
    else
      var spec := table[rest[0] as int + 256 * rest[1] as int];
      match stop
      case Waiting => forall n :: CallsFor(spec, rest, n) ==> n > |rest|
      case Panicked => exists n :: n < 0 && CallsFor(spec, rest, n)
      case Spinning => CallsFor(spec, rest, 0)
  }

  /** Nothing but what the format says, without the loop: the steps consume the buffer up to the rest, each of them
      right before the bytes that follow it, and the parse ends there for the reason given. */
  ghost predicate IsParse(db: PacketDatabase, direction: PacketDirection, buf: seq<byte>, run: Run) {
    && BytesOf(run.steps) + run.rest == buf
    && (forall i :: 0 <= i < |run.steps| ==>
          RightStep(db, direction, run.steps[i], BytesOf(run.steps[i + 1..]) + run.rest))
    && Stopped(db.Table(direction), run.rest, run.stop)
  }

  lemma BlankLines(buf: seq<byte>)
    ensures forall i: nat :: DelimiterAt(buf, i) <==> BlankLineBefore(buf, i + 4)
  {
    forall i: nat ensures DelimiterAt(buf, i) <==> BlankLineBefore(buf, i + 4) {
      if i + 4 <= |buf| {
        var at := buf[i..i + 4];
        assert at == [at[0], at[1], at[2], at[3]];
      }
    }
  }

  lemma HttpMeans(spec: PacketSpec, buf: seq<byte>, n: int)
    requires spec.sizeType == HTTP
    ensures CallsFor(spec, buf, n) <==> n >= 0 && HttpPacketSize(buf) == Some(n)
  {
    BlankLines(buf);
    var at := IndexFrom(buf, 0);
    if CallsFor(spec, buf, n) {
      assert DelimiterAt(buf, n - 4);
      assert at.Some? && !(at.value < n - 4) by {
        assert at.Some? ==> BlankLineBefore(buf, at.value + 4);
      }
    } else if at.Some? && at.value + 4 == n {
      forall m | m < n ensures !BlankLineBefore(buf, m) {
        assert m >= 4 ==> !DelimiterAt(buf, m - 4);
      }
    }
  }

  /** A turn takes n bytes exactly when the entry calls for them and they are there. */
  lemma TakesIff(table: PacketTable, buf: seq<byte>, n: int)
    ensures (Known(table, buf) && CallsFor(table[Uint16(buf, 0)], buf, n) && 0 < n <= |buf|)
        <==> (n >= 0 && Decide(table, buf) == Take(n))
  {
    if Known(table, buf) && table[Uint16(buf, 0)].sizeType == HTTP {
      HttpMeans(table[Uint16(buf, 0)], buf, n);
    }
    hide HttpPacketSize;
  }

  lemma SkipsIff(table: PacketTable, buf: seq<byte>)
    ensures Decide(table, buf).Skip? <==> |buf| >= 2 && !Known(table, buf)
  {
  }

  function StopOf(d: Decision): Stop
    requires d.Wait? || d.Panic? || d.Spin?
  {
    if d.Wait? then Waiting else if d.Panic? then Panicked else Spinning
  }

  lemma StopsIff(table: PacketTable, buf: seq<byte>, stop: Stop)
    ensures var d := Decide(table, buf);
            Stopped(table, buf, stop) <==> !d.Skip? && !d.Take? && stop == StopOf(d)
  {
    if Known(table, buf) {
      var spec := table[Uint16(buf, 0)];
      match spec.sizeType
      case FIXED =>
        assert CallsFor(spec, buf, spec.size);
      case FIXED_MIN =>
        assert CallsFor(spec, buf, spec.size);
      case INDICATED_IN_PACKET =>
        assert |buf| >= 4 ==>
            CallsFor(spec, buf, if Uint16(buf, 2) < 2 then 2 else Uint16(buf, 2));
      case HTTP =>
        forall n: int ensures CallsFor(spec, buf, n) <==> n >= 0 && HttpPacketSize(buf) == Some(n) {
          HttpMeans(spec, buf, n);
        }
        hide HttpPacketSize;
        assert HttpPacketSize(buf).Some? ==> CallsFor(spec, buf, HttpPacketSize(buf).value);
      case UNKNOWN =>
    }
  }

  lemma GuessIff(db: PacketDatabase, direction: PacketDirection, tail: seq<byte>)
    ensures ChecksumSize(db, direction, tail) == 1 <==>
              direction == ClientToServer && LooksLikeChecksum(db.send, tail)
  {
  }

  lemma MarkMeans(checksum: Option<byte>, behind: seq<byte>, n: nat)
    requires n <= 1
    ensures var tail := (if checksum.Some? then [checksum.value] else []) + behind;
            (n <= |tail| && tail[n..] == behind && checksum == if n == 1 then Some(tail[0]) else None) <==>
            (checksum.Some? <==> n == 1)
  {
  }

  lemma PacketMeans(direction: PacketDirection, opcode: nat, spec: PacketSpec, raw: seq<byte>, checksum: Option<byte>,
      packet: ParsedPacket)
    ensures packet == MakePacket(direction, opcode, spec, raw, checksum) <==>
            && packet.direction == direction && packet.opcode == opcode && packet.checksum == checksum
            && var header := if spec.size == -1 then 4 else 2;
               packet.payload == if |raw| <= header then [] else raw[header..]
  {
  }

  lemma TakeMeans(db: PacketDatabase, direction: PacketDirection, raw: seq<byte>, packet: ParsedPacket,
      behind: seq<byte>)
    requires Decide(db.Table(direction), Parsed(raw, packet).Bytes() + behind) == Take(|raw|)
    ensures var buf := Parsed(raw, packet).Bytes() + behind;
            var opcode := Uint16(buf, 0);
            var spec := db.Table(direction)[opcode];
            var header := if spec.size == -1 then 4 else 2;
            Consume(db, direction, buf) == (Parsed(raw, packet), behind) <==>
            && packet.opcode == opcode && packet.direction == direction
            && packet.payload == (if |raw| <= header then [] else raw[header..])
            && (packet.checksum.Some? <==> ChecksumSize(db, direction, buf[|raw|..]) == 1)
  {
    var buf := Parsed(raw, packet).Bytes() + behind;
    var tail := (if packet.checksum.Some? then [packet.checksum.value] else []) + behind;
    var opcode, n := Uint16(buf, 0), ChecksumSize(db, direction, tail);
    var spec, checksum := db.Table(direction)[opcode], if n == 1 then Some(tail[0]) else None;
    assert buf == raw + tail;
    assert buf[..|raw|] == raw && buf[|raw|..] == tail;
    MarkMeans(packet.checksum, behind, n);
    PacketMeans(direction, opcode, spec, raw, checksum, packet);
    hide Decide, ChecksumSize, MakePacket;
    assert Consume(db, direction, buf) == (Parsed(raw, MakePacket(direction, opcode, spec, raw, checksum)), tail[n..]);
    hide Consume;
  }

  lemma ConsumedTake(db: PacketDatabase, direction: PacketDirection, buf: seq<byte>)
    requires Decide(db.Table(direction), buf).Skip? || Decide(db.Table(direction), buf).Take?
    ensures var step := Consume(db, direction, buf).0;
            if step.Parsed? then Decide(db.Table(direction), buf) == Take(|step.raw|)
            else Decide(db.Table(direction), buf) == Skip && step.b == buf[0]
  {
    hide Decide, ChecksumSize, MakePacket;
  }

  /** A turn consumes what the format says, and nothing else is right. */
  lemma RightIff(db: PacketDatabase, direction: PacketDirection, step: Step, behind: seq<byte>)
    ensures var buf := step.Bytes() + behind;
            var d := Decide(db.Table(direction), buf);
            RightStep(db, direction, step, behind) <==>
              (d.Skip? || d.Take?) && Consume(db, direction, buf) == (step, behind)
  {
    hide Decide, ChecksumSize, CallsFor, MakePacket, LooksLikeChecksum, Consume;
    var table, buf := db.Table(direction), step.Bytes() + behind;
    var d := Decide(table, buf);
    if d.Skip? || d.Take? {
      ConsumedTake(db, direction, buf);
    }
    match step
    case Skipped(b) =>
      SkipsIff(table, buf);
      assert buf[0] == b && buf[1..] == behind;
      if d.Skip? {
        SkipMeans(db, direction, buf);
      }
    case Parsed(raw, packet) =>
      TakesIff(table, buf, |raw|);
      GuessIff(db, direction, buf[|raw|..]);
      if d == Take(|raw|) {
        TakeMeans(db, direction, raw, packet, behind);
      }
  }

  lemma SkipMeans(db: PacketDatabase, direction: PacketDirection, buf: seq<byte>)
    requires Decide(db.Table(direction), buf).Skip?
    ensures |buf| >= 2 && Consume(db, direction, buf) == (Skipped(buf[0]), buf[1..])
  {
  }

  lemma StepsBehind(step: Step, steps: seq<Step>, i: nat)
    requires i <= |steps|
    ensures ([step] + steps)[i + 1..] == steps[i..]
  {
  }

  /** A first right step, and then a parse of what is behind it, make a parse; and the other way round. */
  lemma IsParseFirst(db: PacketDatabase, direction: PacketDirection, buf: seq<byte>, step: Step, run: Run)
    ensures IsParse(db, direction, buf, run.After([step])) <==>
              var behind := BytesOf(run.steps) + run.rest;
              && step.Bytes() + behind == buf
              && RightStep(db, direction, step, behind)
              && IsParse(db, direction, behind, run)
  {
    hide RightStep, Stopped, BytesOf;
    var steps := [step] + run.steps;
    BytesOfFirst(step, run.steps, run.rest);
    StepsBehind(step, run.steps, 0);
    assert run.steps[0..] == run.steps && steps[0] == step;
    if IsParse(db, direction, buf, run.After([step])) {
      forall i | 0 <= i < |run.steps|
        ensures RightStep(db, direction, run.steps[i], BytesOf(run.steps[i + 1..]) + run.rest)
      {
        StepsBehind(step, run.steps, i + 1);
        assert steps[i + 1] == run.steps[i];
      }
    } else if IsParse(db, direction, BytesOf(run.steps) + run.rest, run) {
      forall i | 0 < i < |steps| ensures RightStep(db, direction, steps[i], BytesOf(steps[i + 1..]) + run.rest) {
        StepsBehind(step, run.steps, i);
        assert steps[i] == run.steps[i - 1];
      }
    }
  }

  /** The loop computes the one run that is right, for every table, direction and buffer. */
  lemma {:induction false} ParseIff(db: PacketDatabase, direction: PacketDirection, buf: seq<byte>, run: Run)
    ensures IsParse(db, direction, buf, run) <==> Parse(db, direction, buf) == run
    decreases |buf|
  {
    hide Decide, Consume, RightStep, Stopped;
    var d := Decide(db.Table(direction), buf);
    if run.steps == [] {
      assert BytesOf(run.steps) + run.rest == run.rest;
      StopsIff(db.Table(direction), buf, run.stop);
    } else {
      var step, later := run.steps[0], run.(steps := run.steps[1..]);
      var behind := BytesOf(later.steps) + later.rest;
      assert run == later.After([step]) by { assert run.steps == [step] + run.steps[1..]; }
      IsParseFirst(db, direction, buf, step, later);
      RightIff(db, direction, step, behind);
      hide IsParse;
      if d.Skip? || d.Take? {
        var (step', rest) := Consume(db, direction, buf);
        ConsumeBytes(db, direction, buf);
        Conservation(db, direction, rest);
        ParseIff(db, direction, rest, later);
        assert Parse(db, direction, buf) == run ==> step' == step && Parse(db, direction, rest) == later by {
          assert ([step'] + Parse(db, direction, rest).steps)[1..] == Parse(db, direction, rest).steps;
        }
      }
    }
  }

  /** In particular, whatever stands behind it, a packet its entry calls for is the first one parsed. An indicated size
      below 2 takes 2 bytes, and one of 2 or 3 takes as many. */
  lemma FirstTaken(db: PacketDatabase, direction: PacketDirection, buf: seq<byte>, n: nat)
    requires Known(db.Table(direction), buf) && CallsFor(db.Table(direction)[Uint16(buf, 0)], buf, n) && 0 < n <= |buf|
    ensures var run := Parse(db, direction, buf);
            && run.steps != [] && run.steps[0].Parsed? && run.steps[0].raw == buf[..n]
            && (run.steps[0].packet.checksum.Some? <==>
                  direction == ClientToServer && LooksLikeChecksum(db.send, buf[n..]))
            && run == Parse(db, direction, buf[|run.steps[0].Bytes()|..]).After([run.steps[0]])
  {
    TakesIff(db.Table(direction), buf, n);
    GuessIff(db, direction, buf[n..]);
    var (step, rest) := Consume(db, direction, buf);
    ConsumeBytes(db, direction, buf);
    ParseFirst(db, direction, buf);
    assert buf[|step.Bytes()|..] == rest;
    hide Decide, ChecksumSize, Parse, CallsFor, LooksLikeChecksum;
  }

  /** So a whole packet is parsed as itself in front of any bytes. */
  lemma WholeTaken(db: PacketDatabase, direction: PacketDirection, raw: seq<byte>, end: seq<byte>)
    requires Whole(db.Table(direction), raw)
    ensures var run := Parse(db, direction, raw + end);
            run.steps != [] && run.steps[0].Parsed? && run.steps[0].raw == raw
  {
    WholeDecides(db.Table(direction), raw);
    DecideStable(db.Table(direction), raw, end);
    TakesIff(db.Table(direction), raw + end, |raw|);
    FirstTaken(db, direction, raw + end, |raw|);
    assert (raw + end)[..|raw|] == raw;
  }

  lemma WholeDecides(table: PacketTable, raw: seq<byte>)
    ensures Whole(table, raw) <==> Decide(table, raw) == Take(|raw|)
  {
    TakesIff(table, raw, |raw|);
    hide Decide, CallsFor;
  }

  /** Packets of the server laid end to end are parsed into just these packets, with nothing left. */
  lemma {:induction false} ServerRoundTrip(db: PacketDatabase, raws: seq<seq<byte>>)
    requires forall raw <- raws :: Whole(db.receive, raw)
    ensures var run := Parse(db, ServerToClient, Concat(raws));
            && run.stop == Waiting && run.rest == [] && |run.steps| == |raws|
            && forall i :: 0 <= i < |raws| ==>
                 run.steps[i].Parsed? && run.steps[i].Bytes() == run.steps[i].raw == raws[i]
  {
    if raws == [] {
    } else {
      hide Parse, Whole, LooksLikeChecksum;
      var raw, end := raws[0], Concat(raws[1..]);
      assert raw in raws;
      ServerFirst(db, raw, end);
      ServerRoundTrip(db, raws[1..]);
    }
  }

  lemma ServerFirst(db: PacketDatabase, raw: seq<byte>, end: seq<byte>)
    requires Whole(db.receive, raw)
    ensures var run := Parse(db, ServerToClient, raw + end);
            && run.steps != [] && run.steps[0].Parsed? && run.steps[0].Bytes() == run.steps[0].raw == raw
            && run == Parse(db, ServerToClient, end).After([run.steps[0]])
  {
    hide Parse, CallsFor, LooksLikeChecksum;
    WholeDecides(db.receive, raw);
    DecideStable(db.receive, raw, end);
    TakesIff(db.receive, raw + end, |raw|);
    FirstTaken(db, ServerToClient, raw + end, |raw|);
    assert (raw + end)[..|raw|] == raw && (raw + end)[|raw|..] == end;
  }

  // ---------------------------------------------------------------- stability under more bytes

  lemma HttpStable(x: seq<byte>, y: seq<byte>)
    requires HttpPacketSize(x).Some?
    ensures HttpPacketSize(x + y) == HttpPacketSize(x)
  {
    var at := IndexFrom(x, 0).value;
    forall j: nat | j <= at ensures DelimiterAt(x + y, j) == DelimiterAt(x, j) {
      assert (x + y)[j..j + 4] == x[j..j + 4];
    }
  }

  /** Once a decision is taken, later bytes do not change it. */
  lemma DecideStable(table: PacketTable, x: seq<byte>, y: seq<byte>)
    requires Decide(table, x) != Wait
    ensures Decide(table, x + y) == Decide(table, x)
  {
    if Uint16(x, 0) in table && table[Uint16(x, 0)].sizeType == HTTP {
      HttpStable(x, y);
    }
  }

  /** The bytes that stood after the last packet when its checksum was decided. */
  function AfterLastPacket(steps: seq<Step>, rest: seq<byte>): (tail: Option<seq<byte>>)
    ensures tail.None? ==> PacketsOf(steps) == []
  {
    if steps == [] then None
    else
      var later := AfterLastPacket(steps[1..], rest);
      if later.Some? then later
      else if steps[0].Skipped? then None
      else Some(steps[0].Bytes()[|steps[0].raw|..] + BytesOf(steps[1..]) + rest)
  }

  /** The checksum guess after the last packet of x stays what it was when y is there too. */
  predicate CutAgrees(db: PacketDatabase, direction: PacketDirection, x: seq<byte>, y: seq<byte>) {
    var run := Parse(db, direction, x);
    match AfterLastPacket(run.steps, run.rest)
    case None => true
    case Some(tail) => ChecksumSize(db, direction, tail + y) == ChecksumSize(db, direction, tail)
  }

  /** Of a loop turn, more bytes can only change the checksum guess. */
  lemma ConsumeMore(db: PacketDatabase, direction: PacketDirection, x: seq<byte>, y: seq<byte>)
    requires Decide(db.Table(direction), x).Skip? || Decide(db.Table(direction), x).Take?
    ensures Decide(db.Table(direction), x + y) == Decide(db.Table(direction), x)
    ensures var (step, rest) := Consume(db, direction, x);
            var (step', rest') := Consume(db, direction, x + y);
            match step
            case Skipped(_) => step' == step && rest' == rest + y
            case Parsed(raw, packet) =>
              && raw <= x && step'.Parsed?
              && var tail := x[|raw|..];
                 if ChecksumSize(db, direction, tail + y) == ChecksumSize(db, direction, tail)
                 then step' == step && rest' == rest + y
                 else step'.packet.checksum != packet.checksum
  {
    DecideStable(db.Table(direction), x, y);
    var d := Decide(db.Table(direction), x);
    assert Uint16(x + y, 0) == Uint16(x, 0);
    hide Decide, ChecksumSize, LittleEndian;
    if d.Take? {
      assert (x + y)[..d.size] == x[..d.size] && (x + y)[d.size..] == x[d.size..] + y;
    }
  }

  /** A checksum guess that more bytes could change is followed by no other packet and no bad stop. */
  lemma LaterPacket(db: PacketDatabase, direction: PacketDirection, tail: seq<byte>, y: seq<byte>)
    requires var run := Parse(db, direction, tail[ChecksumSize(db, direction, tail)..]);
             AfterLastPacket(run.steps, run.rest).Some? || run.stop != Waiting
    ensures ChecksumSize(db, direction, tail + y) == ChecksumSize(db, direction, tail)
  {
    if direction == ClientToServer {
      if |tail| < 2 {
        assert false;
      } else if |tail| == 2 && Uint16(tail, 0) !in db.send {
        assert false;
      } else {
        assert Uint16(tail + y, 0) == Uint16(tail, 0);
        assert |tail| >= 3 ==> Uint16(tail + y, 1) == Uint16(tail, 1);
      }
    }
  }

  lemma AfterLastPacketFirst(step: Step, steps: seq<Step>, rest: seq<byte>)
    ensures var later := AfterLastPacket(steps, rest);
            AfterLastPacket([step] + steps, rest) ==
              if later.Some? then later
              else if step.Skipped? then None
              else Some(step.Bytes()[|step.raw|..] + BytesOf(steps) + rest)
  {
    assert ([step] + steps)[1..] == steps;
  }

  lemma TailIs(raw: seq<byte>, sum: seq<byte>, later: seq<byte>, rest: seq<byte>, x: seq<byte>)
    requires raw <= sum && sum + (later + rest) == x
    ensures raw <= x && x[|raw|..] == sum[|raw|..] + later + rest
  {
    assert sum == raw + sum[|raw|..];
    assert x == raw + (sum[|raw|..] + later + rest);
  }

  /** Of the packets in x, only the last can see its checksum guess change. */
  lemma CutStep(db: PacketDatabase, direction: PacketDirection, x: seq<byte>, y: seq<byte>)
    requires Decide(db.Table(direction), x).Skip? || Decide(db.Table(direction), x).Take?
    ensures var (step, rest) := Consume(db, direction, x);
            var run := Parse(db, direction, rest);
            var later := AfterLastPacket(run.steps, run.rest);
            && (later.Some? || step.Skipped? ==>
              (CutAgrees(db, direction, x, y) <==> CutAgrees(db, direction, rest, y)))
            && (step.Parsed? ==>
                  && step.raw <= x
                  && var tail := x[|step.raw|..];
                     var same := ChecksumSize(db, direction, tail + y) == ChecksumSize(db, direction, tail);
                     && (later.None? ==> (CutAgrees(db, direction, x, y) <==> same))
                     && (later.Some? || run.stop != Waiting ==> same))
  {
    var (step, rest) := Consume(db, direction, x);
    var run := Parse(db, direction, rest);
    assert Parse(db, direction, x) == run.After([step]);
    AfterLastPacketFirst(step, run.steps, run.rest);
    ConsumeBytes(db, direction, x);
    if step.Parsed? {
      Conservation(db, direction, rest);
      TailIs(step.raw, step.Bytes(), BytesOf(run.steps), run.rest, x);
      if AfterLastPacket(run.steps, run.rest).Some? || run.stop != Waiting {
        LaterPacket(db, direction, x[|step.raw|..], y);
      }
    }
  }

  // ---------------------------------------------------------------- two chunks, then any number

  /** If the cut agrees, parsing x and then the rest with y is parsing both at once. */
  lemma {:induction false} Resume(db: PacketDatabase, direction: PacketDirection, x: seq<byte>, y: seq<byte>)
    requires CutAgrees(db, direction, x, y)
    requires Parse(db, direction, x).stop == Waiting
    ensures var run := Parse(db, direction, x);
            Parse(db, direction, x + y) == Parse(db, direction, run.rest + y).After(run.steps)
    decreases |x|
  {
    var d := Decide(db.Table(direction), x);
    if d == Wait {
      AfterAfter(Parse(db, direction, x + y), [], []);
    } else {
      var (step, rest) := Consume(db, direction, x);
      CutStep(db, direction, x, y);
      ConsumeMore(db, direction, x, y);
      Resume(db, direction, rest, y);
      var run := Parse(db, direction, rest);
      AfterAfter(Parse(db, direction, run.rest + y), [step], run.steps);
    }
  }

  /** A panic or an endless loop does not depend on what follows either. */
  lemma {:induction false} BadStopStable(db: PacketDatabase, direction: PacketDirection, x: seq<byte>, y: seq<byte>)
    requires Parse(db, direction, x).stop != Waiting
    ensures var run := Parse(db, direction, x);
            Parse(db, direction, x + y) == run.(rest := run.rest + y)
    decreases |x|
  {
    var d := Decide(db.Table(direction), x);
    hide Decide, Consume, ChecksumSize;
    if d.Skip? || d.Take? {
      CutStep(db, direction, x, y);
      ConsumeMore(db, direction, x, y);
      BadStopStable(db, direction, Consume(db, direction, x).1, y);
    } else {
      DecideStable(db.Table(direction), x, y);
    }
  }

  /** If the cut does not agree, the packets differ, whatever is parsed afterwards. */
  lemma {:induction false} Diverge(
    db: PacketDatabase, direction: PacketDirection, x: seq<byte>, y: seq<byte>, more: seq<Step>)
    requires !CutAgrees(db, direction, x, y)
    requires Parse(db, direction, x).stop == Waiting
    ensures PacketsOf(Parse(db, direction, x + y).steps) != PacketsOf(Parse(db, direction, x).steps + more)
    decreases |x|
  {
    hide Decide, Consume, Parse, CutAgrees, ChecksumSize, PacketsOf, AfterLastPacket;
    CutConsumes(db, direction, x, y);
    var (step, rest) := Consume(db, direction, x);
    var run := Parse(db, direction, rest);
    ParseFirst(db, direction, x);
    DivergeStep(db, direction, x, y);
    if step.Skipped? || AfterLastPacket(run.steps, run.rest).Some? {
      Diverge(db, direction, rest, y, more);
      DifferLater(step, Parse(db, direction, Consume(db, direction, x + y).1).steps, run.steps + more);
    } else {
      DifferNow(Consume(db, direction, x + y).0, Parse(db, direction, Consume(db, direction, x + y).1).steps,
                step, run.steps + more);
    }
    assert [step] + run.steps + more == [step] + (run.steps + more);
  }

  /** At a cut that disagrees, either a first step is the same and the rest disagrees, or the packet itself differs. */
  lemma DivergeStep(db: PacketDatabase, direction: PacketDirection, x: seq<byte>, y: seq<byte>)
    requires !CutAgrees(db, direction, x, y) && Parse(db, direction, x).stop == Waiting
    requires Decide(db.Table(direction), x).Skip? || Decide(db.Table(direction), x).Take?
    ensures Decide(db.Table(direction), x + y) == Decide(db.Table(direction), x)
    ensures var (step, rest) := Consume(db, direction, x);
            var (step', rest') := Consume(db, direction, x + y);
            var run := Parse(db, direction, rest);
            && Parse(db, direction, x + y).steps == [step'] + Parse(db, direction, rest').steps
            && if step.Skipped? || AfterLastPacket(run.steps, run.rest).Some?
               then step' == step && rest' == rest + y && !CutAgrees(db, direction, rest, y)
               else step'.Parsed? && step.Parsed? && step'.packet != step.packet
  {
    hide Decide, Consume, Parse, CutAgrees, ChecksumSize, AfterLastPacket;
    ConsumeMore(db, direction, x, y);
    ParseFirst(db, direction, x + y);
    CutStep(db, direction, x, y);
  }

  lemma ParseFirst(db: PacketDatabase, direction: PacketDirection, x: seq<byte>)
    requires Decide(db.Table(direction), x).Skip? || Decide(db.Table(direction), x).Take?
    ensures var (step, rest) := Consume(db, direction, x);
            Parse(db, direction, x) == Parse(db, direction, rest).After([step]) && |rest| < |x|
  {
    hide Decide;
  }

  /** A cut can only disagree behind something that was parsed. */
  lemma CutConsumes(db: PacketDatabase, direction: PacketDirection, x: seq<byte>, y: seq<byte>)
    requires !CutAgrees(db, direction, x, y)
    ensures Decide(db.Table(direction), x).Skip? || Decide(db.Table(direction), x).Take?
  {
    hide Decide, ChecksumSize;
  }

  lemma DifferLater(step: Step, a: seq<Step>, b: seq<Step>)
    requires PacketsOf(a) != PacketsOf(b)
    ensures PacketsOf([step] + a) != PacketsOf([step] + b)
  {
    PacketsOfFirst(step, a);
    PacketsOfFirst(step, b);
    SameHead(if step.Parsed? then [step.packet] else [], PacketsOf(a), PacketsOf(b));
  }

  lemma DifferNow(p: Step, a: seq<Step>, q: Step, b: seq<Step>)
    requires p.Parsed? && q.Parsed? && p.packet != q.packet
    ensures PacketsOf([p] + a) != PacketsOf([q] + b)
  {
    PacketsOfFirst(p, a);
    PacketsOfFirst(q, b);
    assert PacketsOf([p] + a)[0] == p.packet && PacketsOf([q] + b)[0] == q.packet;
  }

  lemma SameHead<T>(head: seq<T>, a: seq<T>, b: seq<T>)
    requires a != b
    ensures head + a != head + b
  {
    assert (head + a)[|head|..] == a && (head + b)[|head|..] == b;
  }

  /** The buffer of one direction fed chunk by chunk, as processChunk does. After a bad stop nothing more is
      parsed: rest then holds every byte not consumed before it. */
  function Feed(db: PacketDatabase, direction: PacketDirection, buf: seq<byte>, chunks: seq<seq<byte>>): (run: Run)
    decreases |chunks|
  {
    if chunks == [] then Run([], buf, Waiting)
    else
      var run := Parse(db, direction, buf + chunks[0]);
      if run.stop != Waiting then run.(rest := run.rest + Concat(chunks[1..]))
      else Feed(db, direction, run.rest, chunks[1..]).After(run.steps)
  }

  /** At every chunk boundary the checksum guess is the one the whole stream calls for. */
  predicate CutsAgree(db: PacketDatabase, direction: PacketDirection, buf: seq<byte>, chunks: seq<seq<byte>>)
    decreases |chunks|
  {
    chunks == [] ||
    var x := buf + chunks[0];
    var run := Parse(db, direction, x);
    run.stop == Waiting ==>
      && CutAgrees(db, direction, x, Concat(chunks[1..]))
      && CutsAgree(db, direction, run.rest, chunks[1..])
  }

  /** Feeding chunks equals parsing the whole at once exactly when every cut agrees; otherwise the packets differ. */
  lemma {:induction false} ChunkIndependence(db: PacketDatabase, direction: PacketDirection, buf: seq<byte>,
      chunks: seq<seq<byte>>)
    requires chunks != [] || Decide(db.Table(direction), buf) == Wait
    ensures var fed, whole := Feed(db, direction, buf, chunks), Parse(db, direction, buf + Concat(chunks));
            && (CutsAgree(db, direction, buf, chunks) ==> fed == whole)
            && (!CutsAgree(db, direction, buf, chunks) ==> PacketsOf(fed.steps) != PacketsOf(whole.steps))
    decreases |chunks|
  {
    if chunks == [] {
      assert buf + Concat(chunks) == buf;
    } else {
      var x, y := buf + chunks[0], Concat(chunks[1..]);
      assert buf + Concat(chunks) == x + y;
      var run := Parse(db, direction, x);
      if run.stop != Waiting {
        BadStopStable(db, direction, x, y);
      } else {
        var fed := Feed(db, direction, run.rest, chunks[1..]);
        if CutAgrees(db, direction, x, y) {
          Faithful(db, direction, x);
          ChunkIndependence(db, direction, run.rest, chunks[1..]);
          Resume(db, direction, x, y);
          PacketsOfAppend(run.steps, fed.steps);
          var more := Parse(db, direction, run.rest + y);
          PacketsOfAppend(run.steps, more.steps);
          if PacketsOf(fed.steps) != PacketsOf(more.steps) {
            SameHead(PacketsOf(run.steps), PacketsOf(fed.steps), PacketsOf(more.steps));
          }
        } else {
          Diverge(db, direction, x, y, fed.steps);
        }
      }
    }
  }

  /** Server to client there is no checksum to guess: packets never depend on the chunks, for any table at all. */
  lemma {:induction false} ServerChunkIndependence(db: PacketDatabase, buf: seq<byte>, chunks: seq<seq<byte>>)
    requires chunks != [] || Decide(db.receive, buf) == Wait
    ensures Feed(db, ServerToClient, buf, chunks) == Parse(db, ServerToClient, buf + Concat(chunks))
  {
    ServerCutsAgree(db, buf, chunks);
    ChunkIndependence(db, ServerToClient, buf, chunks);
  }

  lemma {:induction false} ServerCutsAgree(db: PacketDatabase, buf: seq<byte>, chunks: seq<seq<byte>>)
    ensures CutsAgree(db, ServerToClient, buf, chunks)
    decreases |chunks|
  {
    if chunks == [] {
    } else {
      ServerCutsAgree(db, Parse(db, ServerToClient, buf + chunks[0]).rest, chunks[1..]);
    }
  }

  /** More bytes from the server only ever add packets. */
  lemma ServerMore(db: PacketDatabase, x: seq<byte>, y: seq<byte>)
    ensures PacketsOf(Parse(db, ServerToClient, x).steps) <= PacketsOf(Parse(db, ServerToClient, x + y).steps)
  {
    var run := Parse(db, ServerToClient, x);
    assert CutAgrees(db, ServerToClient, x, y);
    hide Parse, CutAgrees;
    if run.stop != Waiting {
      BadStopStable(db, ServerToClient, x, y);
    } else {
      Resume(db, ServerToClient, x, y);
      PacketsOfAppend(run.steps, Parse(db, ServerToClient, run.rest + y).steps);
    }
  }

  /** The entry of the client's Map Loaded packet (internal/packets/send/send_packets.go). */
  const MAP_LOADED := 0x007d

  /** Client to server they do, for any table that has this entry: two such packets, cut after the third byte. */
  lemma ClientChunksMatter(db: PacketDatabase)
    requires MAP_LOADED in db.send && db.send[MAP_LOADED] == PacketSpec(2, FIXED)
    ensures var whole := Parse(db, ClientToServer, [0x7d, 0, 0x7d, 0]);
            var fed := Feed(db, ClientToServer, [], [[0x7d, 0, 0x7d], [0]]);
            && |PacketsOf(whole.steps)| == 2 && |PacketsOf(fed.steps)| == 1
            && !CutsAgree(db, ClientToServer, [], [[0x7d, 0, 0x7d], [0]])
  {
    hide Parse, Feed, CutsAgree, PacketsOf;
    WholeParse(db);
    CutFeed(db);
    var chunks: seq<seq<byte>> := [[0x7d, 0, 0x7d], [0]];
    assert chunks[1..] == [[0]] && [[0]][1..] == [];
    assert [0] + [] == [0] && Concat([[0]]) == [0];
    assert [] + Concat(chunks) == [0x7d, 0, 0x7d, 0];
    ChunkIndependence(db, ClientToServer, [], chunks);
  }

  lemma LoadedTaken(db: PacketDatabase, tail: seq<byte>)
    requires MAP_LOADED in db.send && db.send[MAP_LOADED] == PacketSpec(2, FIXED)
    ensures var buf := [0x7d, 0] + tail;
            && Decide(db.send, buf) == Take(2)
            && var (step, rest) := Consume(db, ClientToServer, buf);
               && step.Parsed? && rest == tail[ChecksumSize(db, ClientToServer, tail)..]
               && Parse(db, ClientToServer, buf) == Parse(db, ClientToServer, rest).After([step])
  {
    var buf: seq<byte> := [0x7d, 0] + tail;
    assert buf[2..] == tail && Uint16(buf, 0) == MAP_LOADED;
  }

  lemma WholeParse(db: PacketDatabase)
    requires MAP_LOADED in db.send && db.send[MAP_LOADED] == PacketSpec(2, FIXED)
    ensures |PacketsOf(Parse(db, ClientToServer, [0x7d, 0, 0x7d, 0]).steps)| == 2
  {
    hide Consume, Decide, PacketsOf;
    var b, none: seq<byte> := [0x7d, 0], [];
    assert b + none == b && b + b == [0x7d, 0, 0x7d, 0] && Uint16(b, 0) == MAP_LOADED && b[0..] == b;
    LoadedTaken(db, b);
    LoadedTaken(db, none);
    ShortWaits(db, ClientToServer, none);
    var p, q := Consume(db, ClientToServer, b + b).0, Consume(db, ClientToServer, b).0;
    assert ChecksumSize(db, ClientToServer, b) == 0 && ChecksumSize(db, ClientToServer, none) == 0;
    assert [q] + [] == [q];
    assert Parse(db, ClientToServer, b).steps == [q] && Parse(db, ClientToServer, b + b).steps == [p] + [q];
    hide Parse;
    PacketsOfFirst(q, []);
    PacketsOfFirst(p, [q]);
    NoPackets();
  }

  lemma NoPackets()
    ensures PacketsOf([]) == []
  {
  }

  lemma ShortWaits(db: PacketDatabase, direction: PacketDirection, buf: seq<byte>)
    requires |buf| < 2
    ensures Parse(db, direction, buf) == Run([], buf, Waiting)
  {
  }

  lemma CutFeed(db: PacketDatabase)
    requires MAP_LOADED in db.send && db.send[MAP_LOADED] == PacketSpec(2, FIXED)
    ensures |PacketsOf(Feed(db, ClientToServer, [], [[0x7d, 0, 0x7d], [0]]).steps)| == 1
  {
    hide Parse, Consume, Decide, PacketsOf;
    var a: seq<byte> := [0x7d, 0, 0x7d];
    var chunks: seq<seq<byte>> := [a, [0]];
    assert [0x7d, 0] + [0x7d] == a && [] + chunks[0] == a && chunks[1..] == [[0]] && [0x7d][1..] == [];
    LoadedTaken(db, [0x7d]);
    ShortWaits(db, ClientToServer, []);
    var step := Consume(db, ClientToServer, a).0;
    assert ChecksumSize(db, ClientToServer, [0x7d]) == 1 && [step] + [] == [step];
    assert Parse(db, ClientToServer, a) == Run([step], [], Waiting);
    assert [] + [0] == [0] && [[0]][1..] == [];
    ShortWaits(db, ClientToServer, [0]);
    assert Feed(db, ClientToServer, [], [[0]]).steps == [];
    PacketsOfFirst(step, []);
    NoPackets();
  }

  // ---------------------------------------------------------------- tables that cannot stop a parse

  predicate SafeTable(table: PacketTable) {
    forall opcode <- table ::
      opcode < 0x1_0000 && (table[opcode].sizeType.FIXED? || table[opcode].sizeType.FIXED_MIN?) ==>
        table[opcode].size >= 1
  }

  /** A parse can never panic nor loop for ever exactly when every FIXED entry has a positive size. */
  lemma SafeTableIff(db: PacketDatabase, direction: PacketDirection)
    ensures SafeTable(db.Table(direction)) <==> forall buf :: Parse(db, direction, buf).stop == Waiting
  {
    hide Parse;
    if SafeTable(db.Table(direction)) {
      forall buf ensures Parse(db, direction, buf).stop == Waiting {
        SafeParse(db, direction, buf);
      }
    } else {
      var _ := UnsafeParse(db, direction);
    }
  }

  lemma UnsafeParse(db: PacketDatabase, direction: PacketDirection) returns (buf: seq<byte>)
    requires !SafeTable(db.Table(direction))
    ensures Parse(db, direction, buf).stop != Waiting
  {
    var table: PacketTable := db.Table(direction);
    var opcode: nat :| opcode in table && opcode < 0x1_0000 && table[opcode].size < 1
                  && (table[opcode].sizeType.FIXED? || table[opcode].sizeType.FIXED_MIN?);
    buf := [opcode % 256, opcode / 256];
    assert Uint16(buf, 0) == opcode;
    assert Decide(table, buf).Panic? || Decide(table, buf).Spin?;
  }

  lemma {:induction false} SafeParse(db: PacketDatabase, direction: PacketDirection, buf: seq<byte>)
    requires SafeTable(db.Table(direction))
    ensures Parse(db, direction, buf).stop == Waiting
    decreases |buf|
  {
    var d := Decide(db.Table(direction), buf);
    if d.Skip? || d.Take? {
      SafeParse(db, direction, Consume(db, direction, buf).1);
    }
  }

  // ---------------------------------------------------------------- the client parser undoes a printer

  /** A packet as a client writes it, with the checksum byte some clients append. */
  datatype Item = Item(raw: seq<byte>, checksum: Option<byte>) {
    function Mark(): seq<byte> {
      if checksum.Some? then [checksum.value] else []
    }
  }

  ghost predicate WellFormed(db: PacketDatabase, items: seq<Item>) {
    forall item <- items :: Whole(db.send, item.raw)
  }

  function Print(items: seq<Item>): seq<byte> {
    if items == [] then [] else items[0].raw + (items[0].Mark() + Print(items[1..]))
  }

  ghost function Expected(db: PacketDatabase, items: seq<Item>): (steps: seq<Step>)
    requires WellFormed(db, items)
    ensures |steps| == |items|
  {
    if items == [] then []
    else
      var raw := items[0].raw;
      var opcode := Uint16(raw, 0);
      [Parsed(raw, MakePacket(ClientToServer, opcode, db.send[opcode], raw, items[0].checksum))]
      + Expected(db, items[1..])
  }

  ghost predicate AmbiguousAt(db: PacketDatabase, items: seq<Item>, i: nat)
    requires WellFormed(db, items)
  {
    i + 1 < |items| && items[i].checksum.Some?
    && items[i].checksum.value as int + 256 * items[i + 1].raw[0] as int in db.send
  }

  /** No checksum byte forms a known opcode with the byte after it. */
  ghost predicate Unambiguous(db: PacketDatabase, items: seq<Item>)
    requires WellFormed(db, items)
  {
    forall i :: 0 <= i < |items| ==> !AmbiguousAt(db, items, i)
  }

  /** The bytes behind the first packet, and what the checksum guess makes of them. */
  lemma GuessAfterFirst(db: PacketDatabase, items: seq<Item>, end: seq<byte>)
    requires WellFormed(db, items) && items != []
    requires end == items[0].Mark() + Print(items[1..])
    ensures var n := ChecksumSize(db, ClientToServer, end);
            if AmbiguousAt(db, items, 0) then n == 0
            else n == (if items[0].checksum.Some? then 1 else 0) && end[n..] == Print(items[1..])
  {
    var rest := Print(items[1..]);
    if |items| > 1 {
      var next := items[1].raw;
      assert items[1] in items && items[1..][0] == items[1];
      assert |next| >= 2 && Uint16(next, 0) in db.send && Uint16(rest, 0) == Uint16(next, 0);
      if items[0].checksum.Some? {
        assert end[0] == items[0].checksum.value && end[1] == rest[0] && end[2] == rest[1];
        assert Uint16(end, 1) == Uint16(rest, 0);
      }
    } else {
      assert rest == [];
    }
  }

  lemma FirstItem(db: PacketDatabase, items: seq<Item>)
    requires WellFormed(db, items) && items != []
    ensures var buf := Print(items);
            && Decide(db.send, buf) == Take(|items[0].raw|)
            && var (step, rest) := Consume(db, ClientToServer, buf);
               if AmbiguousAt(db, items, 0)
               then step.Parsed? && step.packet != Expected(db, items)[0].packet
               else step == Expected(db, items)[0] && rest == Print(items[1..])
  {
    var raw := items[0].raw;
    var end := items[0].Mark() + Print(items[1..]);
    assert items[0] in items && Print(items) == raw + end;
    GuessAfterFirst(db, items, end);
    WholeDecides(db.send, raw);
    DecideStable(db.send, raw, end);
    ConsumeRaw(db, raw, end);
    assert Expected(db, items)[0] ==
      Parsed(raw, MakePacket(ClientToServer, Uint16(raw, 0), db.send[Uint16(raw, 0)], raw, items[0].checksum));
    hide Decide, Consume, ChecksumSize, Expected, Print, AmbiguousAt;
  }

  lemma ConsumeRaw(db: PacketDatabase, raw: seq<byte>, end: seq<byte>)
    requires Decide(db.send, raw) == Decide(db.send, raw + end) == Take(|raw|)
    ensures var n := ChecksumSize(db, ClientToServer, end);
            var opcode := Uint16(raw, 0);
            var checksum := if n == 1 then Some(end[0]) else None;
            Consume(db, ClientToServer, raw + end) ==
            (Parsed(raw, MakePacket(ClientToServer, opcode, db.send[opcode], raw, checksum)), end[n..])
  {
    var buf := raw + end;
    assert buf[..|raw|] == raw && buf[|raw|..] == end && Uint16(buf, 0) == Uint16(raw, 0);
    hide ChecksumSize;
  }

  /** From an empty buffer, the printed items come back exactly when no checksum byte is ambiguous. */
  lemma {:induction false} ClientRoundTrip(db: PacketDatabase, items: seq<Item>)
    requires WellFormed(db, items)
    ensures var run := Parse(db, ClientToServer, Print(items));
            && (Unambiguous(db, items) ==> run == Run(Expected(db, items), [], Waiting))
            && (!Unambiguous(db, items) ==> PacketsOf(run.steps) != PacketsOf(Expected(db, items)))
  {
    if items == [] {
    } else {
      FirstItem(db, items);
      var tail := items[1..];
      var (step, rest) := Consume(db, ClientToServer, Print(items));
      var run, expected := Parse(db, ClientToServer, rest), Expected(db, tail);
      assert Parse(db, ClientToServer, Print(items)) == run.After([step]);
      UnambiguousTail(db, items);
      var first := Expected(db, items)[0];
      assert Expected(db, items) == [first] + expected;
      hide Decide, Consume, Expected, Print, Unambiguous, WellFormed;
      if AmbiguousAt(db, items, 0) {
        DifferNow(step, run.steps, first, expected);
      } else {
        ClientRoundTrip(db, tail);
        if !Unambiguous(db, tail) {
          DifferLater(step, run.steps, expected);
        }
      }
    }
  }

  lemma UnambiguousTail(db: PacketDatabase, items: seq<Item>)
    requires WellFormed(db, items) && items != []
    ensures WellFormed(db, items[1..])
    ensures Unambiguous(db, items) <==> !AmbiguousAt(db, items, 0) && Unambiguous(db, items[1..])
  {
    var tail := items[1..];
    forall i: nat ensures AmbiguousAt(db, tail, i) == AmbiguousAt(db, items, i + 1) {
      assert i < |tail| ==> tail[i] == items[i + 1];
      assert i + 1 < |tail| ==> tail[i + 1] == items[i + 2];
    }
    hide AmbiguousAt;
    if !AmbiguousAt(db, items, 0) && Unambiguous(db, tail) {
      forall i | 0 <= i < |items| ensures !AmbiguousAt(db, items, i) {
        assert i > 0 ==> !AmbiguousAt(db, tail, i - 1);
      }
    }
  }
}
