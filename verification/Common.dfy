/** Bytes and little-endian integers, as encoding/binary and internal/common/base.go read and write them. */
module Bytes {

  type byte = b: int | 0 <= b < 256

  type uint16 = n: int | 0 <= n < 0x1_0000

  type uint24 = n: int | 0 <= n < 0x100_0000

  type uint32 = n: int | 0 <= n < 0x1_0000_0000

  type uint64 = n: int | 0 <= n < 0x1_0000_0000_0000_0000

  type int64 = n: int | -0x8000_0000_0000_0000 <= n < 0x8000_0000_0000_0000

  const TWO_TO_THE_32 := 0x1_0000_0000

  const TWO_TO_THE_64 := 0x1_0000_0000_0000_0000

  function Pow256(n: nat): (p: nat)
    ensures p > 0
  {
    if n == 0 then 1 else 256 * Pow256(n - 1)
  }

  /** The number whose little-endian bytes are s. */
  function LittleEndian(s: seq<byte>): (v: nat)
    ensures v < Pow256(|s|)
  {
    if s == [] then 0 else s[0] + 256 * LittleEndian(s[1..])
  }

  /** The n low bytes of v, least significant first. */
  function PutLittleEndian(v: nat, n: nat): (s: seq<byte>)
    ensures |s| == n
  {
    if n == 0 then [] else [v % 256] + PutLittleEndian(v / 256, n - 1)
  }

  lemma {:induction false} PutThenGet(v: nat, n: nat)
    requires v < Pow256(n)
    ensures LittleEndian(PutLittleEndian(v, n)) == v
  {
    if n == 0 {
    } else {
      PutThenGet(v / 256, n - 1);
      assert PutLittleEndian(v, n)[1..] == PutLittleEndian(v / 256, n - 1);
    }
  }

  lemma Widths()
    ensures Pow256(1) == 256 && Pow256(2) == 0x1_0000 && Pow256(3) == 0x100_0000
    ensures Pow256(4) == TWO_TO_THE_32 && Pow256(8) == TWO_TO_THE_64
  {
    assert Pow256(2) == 256 * Pow256(1);
    assert Pow256(4) == 256 * Pow256(3) && Pow256(3) == 256 * Pow256(2);
    assert Pow256(6) == 256 * Pow256(5) && Pow256(5) == 256 * Pow256(4);
    assert Pow256(8) == 256 * Pow256(7) && Pow256(7) == 256 * Pow256(6);
  }

  function Uint16(s: seq<byte>, i: nat): (v: nat)
    requires i + 2 <= |s|
    ensures v < 0x1_0000
  {
    s[i] as int + 256 * s[i + 1] as int
  }

  // ---------------------------------------------------------------- numbers byte by byte

  /** A 32-bit number stands at i, least significant byte first. */
  predicate Number32At(s: seq<byte>, i: nat, v: int) {
    && i + 4 <= |s|
    && v == s[i] as int + 0x100 * s[i + 1] as int + 0x1_0000 * s[i + 2] as int + 0x100_0000 * s[i + 3] as int
  }

  predicate Number64At(s: seq<byte>, i: nat, v: int) {
    && i + 8 <= |s|
    && v == s[i] as int + 0x100 * s[i + 1] as int + 0x1_0000 * s[i + 2] as int + 0x100_0000 * s[i + 3] as int
            + 0x1_0000_0000 * s[i + 4] as int + 0x100_0000_0000 * s[i + 5] as int
            + 0x1_0000_0000_0000 * s[i + 6] as int + 0x100_0000_0000_0000 * s[i + 7] as int
  }

  lemma FourBytes(s: seq<byte>, i: nat)
    requires i + 4 <= |s|
    ensures Number32At(s, i, LittleEndian(s[i..i + 4]))
  {
    var t := s[i..i + 4];
    assert LittleEndian(t) == t[0] + 256 * LittleEndian(t[1..]);
    assert LittleEndian(t[1..]) == t[1] + 256 * LittleEndian(t[1..][1..]) && t[1..][1..] == t[2..];
    assert LittleEndian(t[2..]) == t[2] + 256 * LittleEndian(t[2..][1..]) && t[2..][1..] == [t[3]];
    assert LittleEndian([t[3]]) == t[3];
  }

  lemma EightBytes(s: seq<byte>, i: nat)
    requires i + 8 <= |s|
    ensures Number64At(s, i, LittleEndian(s[i..i + 8]))
  {
    var t := s[i..i + 8];
    FourBytes(s, i + 4);
    assert LittleEndian(t) == t[0] + 256 * LittleEndian(t[1..]);
    assert LittleEndian(t[1..]) == t[1] + 256 * LittleEndian(t[1..][1..]) && t[1..][1..] == t[2..];
    assert LittleEndian(t[2..]) == t[2] + 256 * LittleEndian(t[2..][1..]) && t[2..][1..] == t[3..];
    assert LittleEndian(t[3..]) == t[3] + 256 * LittleEndian(t[3..][1..]) && t[3..][1..] == s[i + 4..i + 8];
    hide LittleEndian;
  }

  function Number32(s: seq<byte>, i: nat): (v: nat)
    requires i + 4 <= |s|
    ensures Number32At(s, i, v)
  {
    s[i] as int + 0x100 * s[i + 1] as int + 0x1_0000 * s[i + 2] as int + 0x100_0000 * s[i + 3] as int
  }

  lemma NumberIs(s: seq<byte>, i: nat, v: nat)
    requires Number32At(s, i, v)
    ensures Number32(s, i) == v
  {
  }
}

/** encoding/hex. */
module Hex {
  import opened Bytes

  const DIGITS := "0123456789abcdef"

  function EncodeToString(s: seq<byte>): (h: string)
    ensures |h| == 2 * |s|
  {
    if s == [] then [] else [DIGITS[s[0] / 16], DIGITS[s[0] % 16]] + EncodeToString(s[1..])
  }

  /** A hexadecimal digit: 0 to 9, then a to f. */
  predicate IsDigit(c: char, n: nat) {
    c as int == if n < 10 then '0' as int + n else 'a' as int + (n - 10)
  }

  /** The two characters of byte i are its high and its low digit, in lower case. */
  lemma {:induction false} DigitsOf(s: seq<byte>, i: nat)
    requires i < |s|
    ensures var h := EncodeToString(s);
            IsDigit(h[2 * i], s[i] / 16) && IsDigit(h[2 * i + 1], s[i] % 16)
  {
    if i == 0 {
    } else {
      DigitsOf(s[1..], i - 1);
    }
  }

  /** Different bytes have different hex. */
  lemma {:induction false} Injective(s: seq<byte>, t: seq<byte>)
    requires EncodeToString(s) == EncodeToString(t)
    ensures s == t
  {
    if s != [] && t != [] {
      var h := EncodeToString(s);
      assert h[0] == DIGITS[s[0] / 16] == DIGITS[t[0] / 16] && h[1] == DIGITS[s[0] % 16] == DIGITS[t[0] % 16];
      DigitsDiffer(s[0] / 16, t[0] / 16);
      DigitsDiffer(s[0] % 16, t[0] % 16);
      assert h[2..] == EncodeToString(s[1..]) == EncodeToString(t[1..]);
      Injective(s[1..], t[1..]);
      assert s == [s[0]] + s[1..] && t == [t[0]] + t[1..];
    }
  }

  lemma DigitsDiffer(i: nat, j: nat)
    requires i < 16 && j < 16 && DIGITS[i] == DIGITS[j]
    ensures i == j
  {
  }
}

/** In-order subsequences: what is left of a stream once some of its elements are lost. */
module Subsequences {

  /** Strictly increasing positions below n. */
  ghost predicate Positions(at: seq<nat>, n: nat)
  {
    && (forall i :: 0 <= i < |at| ==> at[i] < n)
    && (forall i, j :: 0 <= i < j < |at| ==> at[i] < at[j])
  }

  function Pick<T>(all: seq<T>, at: seq<nat>): (picked: seq<T>)
    requires forall i :: 0 <= i < |at| ==> at[i] < |all|
    ensures |picked| == |at| && forall i :: 0 <= i < |at| ==> picked[i] == all[at[i]]
  {
    seq(|at|, i requires 0 <= i < |at| => all[at[i]])
  }

  /** part can be had from all by deleting elements. */
  ghost predicate Subsequence<T>(part: seq<T>, all: seq<T>)
  {
    exists at: seq<nat> :: Positions(at, |all|) && Pick(all, at) == part
  }

  /** Appending an element to the whole, kept or lost in the part. */
  lemma Grow<T>(part: seq<T>, all: seq<T>, x: T)
    requires Subsequence(part, all)
    ensures Subsequence(part, all + [x]) && Subsequence(part + [x], all + [x])
  {
    var at: seq<nat> :| Positions(at, |all|) && Pick(all, at) == part;
    assert Positions(at, |all + [x]|) && Pick(all + [x], at) == part;
    var at': seq<nat> := at + [|all|];
    assert Positions(at', |all + [x]|) && Pick(all + [x], at') == part + [x];
  }

  /** The same in front. */
  lemma Prepend<T>(part: seq<T>, all: seq<T>, x: T)
    requires Subsequence(part, all)
    ensures Subsequence(part, [x] + all) && Subsequence([x] + part, [x] + all)
  {
    var at: seq<nat> :| Positions(at, |all|) && Pick(all, at) == part;
    var later: seq<nat> := seq(|at|, i requires 0 <= i < |at| => at[i] + 1);
    Later(at, |all|, later);
    assert Pick([x] + all, later) == part;
    assert Pick([x] + all, [0] + later) == [x] + part;
  }

  lemma Later(at: seq<nat>, n: nat, later: seq<nat>)
    requires Positions(at, n) && |later| == |at| && forall i :: 0 <= i < |at| ==> later[i] == at[i] + 1
    ensures Positions(later, n + 1) && Positions([0] + later, n + 1)
  {
  }

  lemma Transitive<T>(a: seq<T>, b: seq<T>, c: seq<T>)
    requires Subsequence(a, b) && Subsequence(b, c)
    ensures Subsequence(a, c)
  {
    var ab: seq<nat> :| Positions(ab, |b|) && Pick(b, ab) == a;
    var bc: seq<nat> :| Positions(bc, |c|) && Pick(c, bc) == b;
    var ac := Pick(bc, ab);
    assert Positions(ac, |c|) && Pick(c, ac) == a;
  }

  lemma Prefix<T>(all: seq<T>, n: nat)
    requires n <= |all|
    ensures Subsequence(all[..n], all)
  {
    var at: seq<nat> := seq(n, i => i);
    assert Positions(at, |all|) && Pick(all, at) == all[..n];
  }

  /** Some of the first n, then all the others. */
  lemma WithSuffix<T>(all: seq<T>, at: seq<nat>, n: nat)
    requires n <= |all| && Positions(at, n)
    ensures Subsequence(Pick(all, at) + all[n..], all)
  {
    var at': seq<nat> := at + seq(|all| - n, i requires 0 <= i => n + i);
    assert Positions(at', |all|) && Pick(all, at') == Pick(all, at) + all[n..];
  }

  lemma Members<T>(part: seq<T>, all: seq<T>)
    requires Subsequence(part, all)
    ensures forall i :: 0 <= i < |part| ==> part[i] in all
  {
    var at: seq<nat> :| Positions(at, |all|) && Pick(all, at) == part;
  }

  lemma Shorter<T>(part: seq<T>, all: seq<T>)
    requires Subsequence(part, all)
    ensures |part| <= |all|
    ensures |part| == |all| ==> part == all
  {
    var at: seq<nat> :| Positions(at, |all|) && Pick(all, at) == part;
    AtLeast(at, |all|);
  }

  lemma {:induction false} AtLeast(at: seq<nat>, n: nat)
    requires Positions(at, n)
    ensures |at| <= n && forall i :: 0 <= i < |at| ==> i <= at[i] <= n - (|at| - i)
  {
    if at == [] {
    } else {
      var last := |at| - 1;
      AtLeast(at[..last], at[last]);
      forall i | 0 <= i < |at| ensures i <= at[i] <= n - (|at| - i) {
        if i < last { assert at[..last][i] == at[i]; }
      }
    }
  }

  lemma Empty<T>(all: seq<T>)
    ensures Subsequence([], all)
  {
    var at: seq<nat> := [];
    assert Positions(at, |all|) && Pick(all, at) == [];
  }
}
