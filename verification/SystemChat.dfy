/** Splitting a system chat packet (internal/packets/receive/system_chat.go). */
module SystemChat {
  import opened Bytes
  import Hex

  const START: byte := 0x1c
  const SEPARATOR: byte := 0x1d

  // ---------------------------------------------------------------- splitting

  /** The first place of b, or the length. */
  function Index(s: seq<byte>, b: byte): (i: nat)
    ensures i <= |s| && (i < |s| ==> s[i] == b) && forall j :: 0 <= j < i ==> s[j] != b
  {
    if s == [] || s[0] == b then 0 else 1 + Index(s[1..], b)
  }

  lemma IndexIs(s: seq<byte>, b: byte, i: nat)
    requires i <= |s| && (i < |s| ==> s[i] == b) && forall j :: 0 <= j < i ==> s[j] != b
    ensures Index(s, b) == i
  {
  }

  /** bytes.Split. */
  function Split(s: seq<byte>, b: byte): (parts: seq<seq<byte>>)
    ensures parts != []
  {
    var i := Index(s, b);
    if i < |s| then [s[..i]] + Split(s[i + 1..], b) else [s]
  }

  function Join(parts: seq<seq<byte>>, b: byte): seq<byte>
    requires parts != []
  {
    if |parts| == 1 then parts[0] else parts[0] + ([b] + Join(parts[1..], b))
  }

  lemma SplitAt(s: seq<byte>, b: byte)
    ensures var i := Index(s, b);
            && b !in s[..i]
            && if i < |s| then Split(s, b) == [s[..i]] + Split(s[i + 1..], b) && s == s[..i] + ([b] + s[i + 1..])
               else Split(s, b) == [s] && s[..i] == s
  {
    hide Index, Split;
    SplitUnfold(s, b);
    var i := Index(s, b);
    if i < |s| { CutOut(s, i); }
  }

  lemma SplitUnfold(s: seq<byte>, b: byte)
    ensures var i := Index(s, b);
            Split(s, b) == if i < |s| then [s[..i]] + Split(s[i + 1..], b) else [s]
  {
    hide Index;
  }

  lemma CutOut<T>(s: seq<T>, i: nat)
    requires i < |s|
    ensures s == s[..i] + ([s[i]] + s[i + 1..])
  {
  }

  lemma JoinFirst(first: seq<byte>, later: seq<seq<byte>>, b: byte)
    requires later != []
    ensures Join([first] + later, b) == first + ([b] + Join(later, b))
  {
    assert ([first] + later)[1..] == later;
  }

  /** The parts are what the separators leave: joined they give everything back, and none has a separator in it. */
  lemma {:induction false} SplitJoin(s: seq<byte>, b: byte)
    ensures Join(Split(s, b), b) == s
    ensures forall part <- Split(s, b) :: b !in part
    decreases |s|
  {
    hide Index, Split;
    var i := Index(s, b);
    SplitAt(s, b);
    if i < |s| {
      SplitJoin(s[i + 1..], b);
      JoinFirst(s[..i], Split(s[i + 1..], b), b);
      hide Join;
    }
  }

  lemma SplitStep(first: seq<byte>, later: seq<byte>, b: byte)
    requires b !in first
    ensures Split(first + ([b] + later), b) == [first] + Split(later, b)
    ensures Split(first, b) == [first]
  {
    hide Index;
    var s := first + ([b] + later);
    Behind(first, b, later);
    IndexIs(s, b, |first|);
    IndexIs(first, b, |first|);
  }

  lemma Behind(first: seq<byte>, b: byte, later: seq<byte>)
    requires b !in first
    ensures var s := first + ([b] + later);
            && s[|first|] == b && s[..|first|] == first && s[|first| + 1..] == later
            && forall j :: 0 <= j < |first| ==> s[j] != b && first[j] != b
  {
    assert forall j :: 0 <= j < |first| ==> first[j] in first;
  }

  lemma {:induction false} JoinSplit(parts: seq<seq<byte>>, b: byte)
    requires parts != [] && forall part <- parts :: b !in part
    ensures Split(Join(parts, b), b) == parts
    decreases |parts|
  {
    var first, rest := parts[0], parts[1..];
    assert first in parts && parts == [first] + rest;
    assert forall part <- rest :: part in parts;
    hide Split, Index;
    SplitStep(first, if rest == [] then [] else Join(rest, b), b);
    if rest == [] {
    } else {
      JoinSplit(rest, b);
    }
  }

  function HexAll(parts: seq<seq<byte>>): (h: seq<string>)
    ensures |h| == |parts| && forall i :: 0 <= i < |h| ==> h[i] == Hex.EncodeToString(parts[i])
  {
    if parts == [] then [] else [Hex.EncodeToString(parts[0])] + HexAll(parts[1..])
  }

  lemma {:induction false} HexAllAppend(a: seq<seq<byte>>, b: seq<seq<byte>>)
    ensures HexAll(a + b) == HexAll(a) + HexAll(b)
  {
  }

  // ---------------------------------------------------------------- parameters

  /** The pieces between separators up to the next start byte; without one the last piece is not complete. */
  function Parameters(s: seq<byte>): seq<seq<byte>> {
    var end := Index(s, START);
    var pieces := Split(s[..end], SEPARATOR);
    if end < |s| then pieces else pieces[..|pieces| - 1]
  }

  predicate Plain(s: seq<byte>) {
    0x1c !in s && 0x1d !in s
  }

  lemma NoParameter(s: seq<byte>)
    requires Plain(s)
    ensures Parameters(s) == []
  {
    assert forall j :: 0 <= j < |s| ==> s[j] in s;
    IndexIs(s, START, |s|);
    hide Index;
    SplitStep(s, [], SEPARATOR);
    assert s[..|s|] == s;
  }

  lemma LastParameter(first: seq<byte>, later: seq<byte>)
    requires Plain(first)
    ensures Parameters(first + ([0x1c] + later)) == [first]
  {
    assert forall j :: 0 <= j < |first| ==> first[j] in first;
    var s := first + ([START] + later);
    IndexIs(s, START, |first|);
    hide Index;
    SplitStep(first, [], SEPARATOR);
    assert s[..|first|] == first;
  }

  lemma EndAfter(first: seq<byte>, later: seq<byte>)
    requires Plain(first)
    ensures Index(first + ([SEPARATOR] + later), START) == |first| + 1 + Index(later, START)
  {
    hide Index;
    var s, i := first + ([SEPARATOR] + later), |first| + 1 + Index(later, START);
    forall j | 0 <= j < i ensures s[j] != START {
      assert j < |first| ==> s[j] in first;
      assert j > |first| ==> s[j] == later[j - |first| - 1];
    }
    IndexIs(s, START, i);
  }

  lemma AnotherParameter(first: seq<byte>, later: seq<byte>)
    requires Plain(first)
    ensures Parameters(first + ([0x1d] + later)) == [first] + Parameters(later)
  {
    hide Index, Split;
    var s := first + ([SEPARATOR] + later);
    var end := Index(later, START);
    EndAfter(first, later);
    SplitStep(first, later[..end], SEPARATOR);
    CutAnother(first, later, end);
    var pieces := Split(later[..end], SEPARATOR);
    assert ([first] + pieces)[..|pieces|] == [first] + pieces[..|pieces| - 1];
  }

  lemma CutAnother(first: seq<byte>, later: seq<byte>, end: nat)
    requires end <= |later|
    ensures (first + ([SEPARATOR] + later))[..|first| + 1 + end] == first + ([SEPARATOR] + later[..end])
  {
  }

  /** A packet of parameters: a start byte, the parameters between separators, another start byte, and anything. */
  function Render(parameters: seq<seq<byte>>, rest: seq<byte>): seq<byte>
    requires parameters != []
  {
    [0x1c] + (Join(parameters, 0x1d) + ([0x1c] + rest))
  }

  /** Any non-empty list of parameters without delimiters is read back. */
  lemma RenderParse(parameters: seq<seq<byte>>, rest: seq<byte>)
    requires parameters != [] && forall p <- parameters :: Plain(p)
    ensures Chat(Render(parameters, rest)) == Params(HexAll(parameters))
  {
    var body := Join(parameters, SEPARATOR);
    JoinSplit(parameters, SEPARATOR);
    JoinWithout(parameters, SEPARATOR, START);
    var s := body + ([START] + rest);
    assert Render(parameters, rest)[1..] == s;
    IndexIs(s, START, |body|);
    assert s[..|body|] == body;
  }

  lemma {:induction false} JoinWithout(parts: seq<seq<byte>>, b: byte, c: byte)
    requires parts != [] && b != c && forall part <- parts :: c !in part
    ensures c !in Join(parts, b)
    decreases |parts|
  {
    if |parts| > 1 {
      JoinWithout(parts[1..], b, c);
    }
  }

  // ---------------------------------------------------------------- messages

  function NonEmpty(parts: seq<seq<byte>>): seq<seq<byte>> {
    if parts == [] then []
    else (if |parts[0]| > 0 then [parts[0]] else []) + NonEmpty(parts[1..])
  }

  /** A stretch of bytes without zero that cannot be made longer. */
  predicate MaximalRun(s: seq<byte>, a: nat, b: nat) {
    && a < b <= |s| && (forall i :: a <= i < b ==> s[i] != 0)
    && (a == 0 || s[a - 1] == 0) && (b == |s| || s[b] == 0)
  }

  /** All of them, in order. */
  ghost predicate AllRuns(s: seq<byte>, runs: seq<(nat, nat)>) {
    && (forall k :: 0 <= k < |runs| ==> MaximalRun(s, runs[k].0, runs[k].1))
    && (forall k :: 0 < k < |runs| ==> runs[k - 1].1 < runs[k].0)
    && (forall i :: 0 <= i < |s| && s[i] != 0 ==> exists k :: 0 <= k < |runs| && runs[k].0 <= i < runs[k].1)
  }

  function Slices(s: seq<byte>, runs: seq<(nat, nat)>): (r: seq<seq<byte>>)
    requires forall k :: 0 <= k < |runs| ==> runs[k].0 <= runs[k].1 <= |s|
    ensures |r| == |runs| && forall k :: 0 <= k < |r| ==> r[k] == s[runs[k].0..runs[k].1]
  {
    seq(|runs|, k requires 0 <= k < |runs| => s[runs[k].0..runs[k].1])
  }

  function Shift(runs: seq<(nat, nat)>, n: nat): (r: seq<(nat, nat)>)
    ensures |r| == |runs| && forall k :: 0 <= k < |r| ==> r[k] == (runs[k].0 + n, runs[k].1 + n)
  {
    seq(|runs|, k requires 0 <= k < |runs| => (runs[k].0 + n, runs[k].1 + n))
  }

  /** The parts that are not empty are exactly the maximal runs without zero, in order. */
  lemma {:induction false} PartsAreRuns(s: seq<byte>) returns (runs: seq<(nat, nat)>)
    ensures AllRuns(s, runs) && NonEmpty(Split(s, 0)) == Slices(s, runs)
    decreases |s|
  {
    var i := Index(s, 0);
    if i == |s| {
      runs := if i > 0 then [(0, i)] else [];
      assert s[0..i] == s;
      assert NonEmpty([s]) == if i > 0 then [s] else [];
    } else {
      var later := s[i + 1..];
      var runs' := PartsAreRuns(later);
      runs := LaterRuns(s, i, runs');
      assert Split(s, 0)[1..] == Split(later, 0);
    }
  }

  lemma ShiftedRun(s: seq<byte>, n: nat, a: nat, b: nat)
    requires 0 < n <= |s| && s[n - 1] == 0 && MaximalRun(s[n..], a, b)
    ensures MaximalRun(s, a + n, b + n) && s[a + n..b + n] == s[n..][a..b]
  {
    assert forall j :: n <= j < |s| ==> s[j] == s[n..][j - n];
  }

  lemma LaterRuns(s: seq<byte>, i: nat, runs': seq<(nat, nat)>) returns (runs: seq<(nat, nat)>)
    requires i < |s| && s[i] == 0 && (forall j :: 0 <= j < i ==> s[j] != 0) && AllRuns(s[i + 1..], runs')
    ensures AllRuns(s, runs)
    ensures Slices(s, runs) == (if i > 0 then [s[..i]] else []) + Slices(s[i + 1..], runs')
  {
    runs := WithHead(i, runs');
    RunsMaximal(s, i, runs');
    RunsCover(s, i, runs');
    RunsOrdered(s, i, runs');
    SlicesLater(s, i, runs', runs);
    hide MaximalRun, WithHead, Slices;
  }

  lemma SlicesLater(s: seq<byte>, i: nat, runs': seq<(nat, nat)>, runs: seq<(nat, nat)>)
    requires i < |s| && runs == WithHead(i, runs')
    requires forall k :: 0 <= k < |runs'| ==> runs'[k].0 <= runs'[k].1 <= |s[i + 1..]|
    requires forall k :: 0 <= k < |runs| ==> runs[k].0 <= runs[k].1 <= |s|
    requires forall k :: |runs| - |runs'| <= k < |runs| ==>
               s[runs[k].0..runs[k].1] == s[i + 1..][runs'[k - (|runs| - |runs'|)].0..runs'[k - (|runs| - |runs'|)].1]
    ensures Slices(s, runs) == (if i > 0 then [s[..i]] else []) + Slices(s[i + 1..], runs')
  {
    assert i > 0 ==> runs[0] == (0, i);
  }

  lemma RunsOrdered(s: seq<byte>, i: nat, runs': seq<(nat, nat)>)
    requires i < |s| && AllRuns(s[i + 1..], runs')
    ensures var runs := WithHead(i, runs'); forall k :: 0 < k < |runs| ==> runs[k - 1].1 < runs[k].0
  {
    hide MaximalRun;
    var runs := WithHead(i, runs');
    var n := |runs| - |runs'|;
    forall k | 0 < k < |runs| ensures runs[k - 1].1 < runs[k].0 {
      assert runs[k] == Shift(runs', i + 1)[k - n];
      if k > n { assert runs[k - 1] == Shift(runs', i + 1)[k - 1 - n]; }
    }
  }

  function WithHead(i: nat, runs': seq<(nat, nat)>): seq<(nat, nat)> {
    (if i > 0 then [(0, i)] else []) + Shift(runs', i + 1)
  }

  /** The k-th run: the one before the first zero, or one from behind it. */
  lemma RunAt(s: seq<byte>, i: nat, runs': seq<(nat, nat)>, k: nat)
    requires i < |s| && s[i] == 0 && (forall j :: 0 <= j < i ==> s[j] != 0) && AllRuns(s[i + 1..], runs')
    requires k < |WithHead(i, runs')|
    ensures var runs := WithHead(i, runs');
            var n := |runs| - |runs'|;
            && MaximalRun(s, runs[k].0, runs[k].1)
            && (k >= n ==>
                  && runs'[k - n].0 <= runs'[k - n].1 <= |s[i + 1..]|
                  && s[runs[k].0..runs[k].1] == s[i + 1..][runs'[k - n].0..runs'[k - n].1])
  {
    hide MaximalRun;
    var runs := WithHead(i, runs');
    var n := |runs| - |runs'|;
    if k >= n {
      assert runs[k] == Shift(runs', i + 1)[k - n];
      RunBounds(s[i + 1..], runs'[k - n].0, runs'[k - n].1);
      ShiftedRun(s, i + 1, runs'[k - n].0, runs'[k - n].1);
    } else {
      HeadRun(s, i);
    }
  }

  lemma HeadRun(s: seq<byte>, i: nat)
    requires 0 < i < |s| && s[i] == 0 && forall j :: 0 <= j < i ==> s[j] != 0
    ensures MaximalRun(s, 0, i)
  {
  }

  lemma RunBounds(s: seq<byte>, a: nat, b: nat)
    requires MaximalRun(s, a, b)
    ensures a <= b <= |s|
  {
  }

  lemma RunsMaximal(s: seq<byte>, i: nat, runs': seq<(nat, nat)>)
    requires i < |s| && s[i] == 0 && (forall j :: 0 <= j < i ==> s[j] != 0) && AllRuns(s[i + 1..], runs')
    ensures var runs := WithHead(i, runs');
            var n := |runs| - |runs'|;
            forall k :: 0 <= k < |runs| ==>
              && MaximalRun(s, runs[k].0, runs[k].1)
              && (k >= n ==> s[runs[k].0..runs[k].1] == s[i + 1..][runs'[k - n].0..runs'[k - n].1])
  {
    hide WithHead, AllRuns;
    var runs := WithHead(i, runs');
    forall k: nat | k < |runs|
      ensures MaximalRun(s, runs[k].0, runs[k].1)
      ensures var n := |runs| - |runs'|;
              k >= n ==>
                && runs'[k - n].0 <= runs'[k - n].1 <= |s[i + 1..]|
                && s[runs[k].0..runs[k].1] == s[i + 1..][runs'[k - n].0..runs'[k - n].1]
    {
      RunAt(s, i, runs', k);
    }
  }

  lemma RunsCover(s: seq<byte>, i: nat, runs': seq<(nat, nat)>)
    requires i < |s| && s[i] == 0 && AllRuns(s[i + 1..], runs')
    ensures var runs := WithHead(i, runs');
            forall j :: 0 <= j < |s| && s[j] != 0 ==> exists k :: 0 <= k < |runs| && runs[k].0 <= j < runs[k].1
  {
    var runs := WithHead(i, runs');
    var n := |runs| - |runs'|;
    hide MaximalRun;
    forall j | 0 <= j < |s| && s[j] != 0 ensures exists k :: 0 <= k < |runs| && runs[k].0 <= j < runs[k].1 {
      if j < i {
        assert runs[0] == (0, i);
      } else {
        assert s[i + 1..][j - i - 1] == s[j];
        var k :| 0 <= k < |runs'| && runs'[k].0 <= j - i - 1 < runs'[k].1;
        assert runs[n + k] == Shift(runs', i + 1)[k];
      }
    }
  }

  // ---------------------------------------------------------------- the packet

  datatype Outcome = Panicked | Params(params: seq<string>) | Messages(messages: seq<string>)

  /** An empty payload is indexed all the same. */
  function Chat(payload: seq<byte>): Outcome {
    if payload == [] then Panicked
    else if payload[0] == START then Params(HexAll(Parameters(payload[1..])))
    else Messages(HexAll(NonEmpty(Split(payload, 0))))
  }

  /** Without a start byte the messages are the hex of the maximal runs without zero, all of them and in order. */
  lemma MessagesAreRuns(payload: seq<byte>) returns (runs: seq<(nat, nat)>)
    requires payload != [] && payload[0] != 0x1c
    ensures AllRuns(payload, runs)
    ensures Chat(payload) == Messages(HexAll(Slices(payload, runs)))
  {
    runs := PartsAreRuns(payload);
  }

  // ---------------------------------------------------------------- the code

  method Deserialize(pktData: seq<byte>) returns (outcome: Outcome)
    ensures outcome == Chat(pktData)
    ensures outcome == Panicked <==> pktData == []
    ensures outcome.Params? <==> pktData != [] && pktData[0] == 0x1c
  {
    if |pktData| == 0 {
      return Panicked;
    }
    if pktData[0] == START {
      var params := ReadParameters(pktData);
      return Params(params);
    }
    var message := Split(pktData, 0);
    var msgs: seq<string> := [];
    for i := 0 to |message|
      invariant msgs + HexAll(NonEmpty(message[i..])) == HexAll(NonEmpty(message))
    {
      var part := message[i];
      assert message[i..][0] == part && message[i..][1..] == message[i + 1..];
      NextMessage(part, message[i + 1..], msgs);
      hide NonEmpty, HexAll, Hex.EncodeToString;
      if |part| > 0 {
        msgs := msgs + [Hex.EncodeToString(part)];
      }
    }
    outcome := Messages(msgs);
  }

  lemma NextMessage(part: seq<byte>, later: seq<seq<byte>>, msgs: seq<string>)
    ensures msgs + HexAll((if |part| > 0 then [part] else []) + NonEmpty(later)) ==
      (if |part| > 0 then msgs + [Hex.EncodeToString(part)] else msgs) + HexAll(NonEmpty(later))
  {
    HexOne(part);
    hide NonEmpty, Hex.EncodeToString, HexAll;
    HexAllAppend([part], NonEmpty(later));
    assert [] + NonEmpty(later) == NonEmpty(later);
  }

  /** No delimiter from one position up to another. */
  predicate PlainFrom(d: seq<byte>, from: nat, to: nat) {
    from <= to <= |d| && forall j :: from <= j < to ==> d[j] != START && d[j] != SEPARATOR
  }

  function ParametersFrom(d: seq<byte>, from: nat): seq<string>
    requires from <= |d|
  {
    HexAll(Parameters(d[from..]))
  }

  method ReadParameters(pktData: seq<byte>) returns (params: seq<string>)
    requires |pktData| > 0
    ensures params == HexAll(Parameters(pktData[1..]))
  {
    hide Parameters, HexAll, Hex.EncodeToString, PlainFrom;
    ghost var all := ParametersFrom(pktData, 1);
    hide ParametersFrom;
    params := [];
    var startPosition := 1;
    var endPosition := startPosition;
    PlainNone(pktData, 1);
    assert [] + all == all;
    while endPosition < |pktData|
      invariant startPosition <= endPosition <= |pktData| && PlainFrom(pktData, startPosition, endPosition)
      invariant params + ParametersFrom(pktData, startPosition) == all
    {
      if pktData[endPosition] == START || pktData[endPosition] == SEPARATOR {
        var paramBytes := pktData[startPosition..endPosition];
        NextParameter(pktData, startPosition, endPosition, params);
        params := params + [Hex.EncodeToString(paramBytes)];
        startPosition := endPosition + 1;
        PlainNone(pktData, startPosition);
      } else {
        PlainMore(pktData, startPosition, endPosition);
      }
      if pktData[endPosition] == START {
        return;
      }
      endPosition := endPosition + 1;
    }
    NoMore(pktData, startPosition, params);
  }

  lemma PlainNone(d: seq<byte>, from: nat)
    ensures from <= |d| ==> PlainFrom(d, from, from)
  {
  }

  lemma PlainMore(d: seq<byte>, from: nat, to: nat)
    requires PlainFrom(d, from, to) && to < |d| && d[to] != START && d[to] != SEPARATOR
    ensures PlainFrom(d, from, to + 1)
  {
  }

  lemma NoMore(d: seq<byte>, from: nat, params: seq<string>)
    requires PlainFrom(d, from, |d|)
    ensures params + ParametersFrom(d, from) == params
  {
    NoParameter(d[from..]);
  }

  lemma NextParameter(d: seq<byte>, from: nat, to: nat, params: seq<string>)
    requires PlainFrom(d, from, to) && to < |d| && (d[to] == START || d[to] == SEPARATOR)
    ensures params + ParametersFrom(d, from) ==
      if d[to] == START then params + [Hex.EncodeToString(d[from..to])]
      else params + [Hex.EncodeToString(d[from..to])] + ParametersFrom(d, to + 1)
  {
    hide Parameters, Hex.EncodeToString, HexAll;
    var first, later := d[from..to], d[to + 1..];
    assert Plain(first);
    assert d[from..] == first + ([d[to]] + later);
    HexOne(first);
    if d[to] == START {
      LastParameter(first, later);
    } else {
      AnotherParameter(first, later);
      HexAllAppend([first], Parameters(later));
    }
  }

  lemma HexOne(part: seq<byte>)
    ensures HexAll([part]) == [Hex.EncodeToString(part)]
  {
  }
}
