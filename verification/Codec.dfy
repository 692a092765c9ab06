/** Bytes, big-endian integers, the command table and the delta command codec
  * (netint.c, prototab.c, emit.c of librsync 0.9.7).
  */
module Codec {

  type Byte = b: int | 0 <= b < 256

  const MAX_INT: int := 0x8000_0000
  const MAX_LONG: int := 0x8000_0000_0000_0000
  const DELTA_MAGIC: int := 0x72730236
  const SIG_MAGIC: int := 0x72730136

  function Pow256(n: nat): (p: nat)
    ensures p >= 1
  {
    if n == 0 then 1 else 256 * Pow256(n - 1)
  }

  lemma Pow256Values()
    ensures Pow256(1) == 0x100
    ensures Pow256(2) == 0x1_0000
    ensures Pow256(4) == 0x1_0000_0000
    ensures Pow256(8) == 0x1_0000_0000_0000_0000
  {
    assert Pow256(3) == 0x100_0000;
    assert Pow256(5) == 0x100_0000_0000;
    assert Pow256(6) == 0x1_0000_0000_0000;
    assert Pow256(7) == 0x100_0000_0000_0000;
  }

  /** The low n bytes of d, most significant first; d is in two's complement. */
  function NetInt(d: int, n: nat): (s: seq<Byte>)
    ensures |s| == n
    decreases n
  {
    if n == 0 then [] else NetInt(d / 256, n - 1) + [d % 256]
  }

  function Unsigned(s: seq<Byte>): (v: nat)
    ensures v < Pow256(|s|)
  {
    if s == [] then 0 else Unsigned(s[..|s| - 1]) * 256 + s[|s| - 1]
  }

  /** C conversion to a 32-bit or 64-bit signed integer. */
  function ToSigned(v: int, modulus: int): (r: int)
    requires modulus > 0
  {
    var u := v % modulus;
    if 2 * u >= modulus then u - modulus else u
  }

  function ToInt32(v: int): int { ToSigned(v, 0x1_0000_0000) }

  function ToInt64(v: int): int { ToSigned(v, 0x1_0000_0000_0000_0000) }

  /** A conversion gives the one value of the type that is congruent. */
  lemma ConversionsFit(v: int)
    ensures -0x8000_0000 <= ToInt32(v) < 0x8000_0000 && ToInt32(v) % 0x1_0000_0000 == v % 0x1_0000_0000
    ensures -0x8000_0000_0000_0000 <= ToInt64(v) < 0x8000_0000_0000_0000
    ensures ToInt64(v) % 0x1_0000_0000_0000_0000 == v % 0x1_0000_0000_0000_0000
  {
    ToSignedCongruent(v, 0x1_0000_0000);
    ToSignedCongruent(v, 0x1_0000_0000_0000_0000);
  }

  /** Reading back n bytes gives d modulo 256^n. */
  lemma {:induction false} NetIntInverse(d: int, n: nat)
    ensures Unsigned(NetInt(d, n)) == d % Pow256(n)
    decreases n
  {
    if n == 0 {
    } else {
      var s := NetInt(d, n);
      assert s[..n - 1] == NetInt(d / 256, n - 1);
      NetIntInverse(d / 256, n - 1);
      DivModStep(d, Pow256(n - 1));
    }
  }

  lemma DivModStep(d: int, p: nat)
    requires p >= 1
    ensures (d / 256) % p * 256 + d % 256 == d % (256 * p)
  {
    var q := d / 256;
    var r := q % p * 256 + d % 256;
    var k := q / p;
    assert d == (k * p + q % p) * 256 + d % 256 == k * (256 * p) + r;
    assert 0 <= r < 256 * p by {
      assert q % p <= p - 1;
    }
    ModUnique(d, 256 * p, k, r);
  }

  lemma ModUnique(d: int, m: int, k: int, r: int)
    requires m > 0 && 0 <= r < m && d == k * m + r
    ensures d % m == r && d / m == k
  {
    var k', r' := d / m, d % m;
    assert d == k' * m + r' && 0 <= r' < m;
    assert (k - k') * m == r' - r;
    MulAtLeast(k - k', m);
  }

  lemma MulAtLeast(a: int, m: int)
    requires m > 0
    ensures a >= 1 ==> a * m >= m
    ensures a <= -1 ==> a * m <= -m
  {
  }

  /** A row of the command table. */
  datatype Kind = End | Literal | Copy | Reserved

  datatype Entry = Entry(kind: Kind, immediate: nat, len1: nat, len2: nat)

  function Width(i: nat): (n: nat)
    requires i < 4
    ensures n in {1, 2, 4, 8}
  {
    [1, 2, 4, 8][i]
  }

  /** What holds of every row: parameters are at most eight bytes, and a copy has two. */
  predicate ValidEntry(e: Entry) {
    e.len1 <= 8 && e.len2 <= 8 && (e.len1 == 0 ==> e.len2 == 0) && (e.kind.Copy? ==> e.len1 > 0 && e.len2 > 0)
  }

  function Proto(op: Byte): (e: Entry)
    ensures ValidEntry(e)
  {
    if op == 0 then Entry(End, 0, 0, 0)
    else if op <= 0x40 then Entry(Literal, op, 0, 0)
    else if op <= 0x44 then Entry(Literal, 0, Width(op - 0x41), 0)
    else if op <= 0x54 then Entry(Copy, 0, Width((op - 0x45) / 4), Width((op - 0x45) % 4))
    else Entry(Reserved, op, 0, 0)
  }

  /** A delta command; a literal carries its data. */
  datatype Cmd = LiteralCmd(data: seq<Byte>) | CopyCmd(pos: nat, len: nat)

  predicate Encodable(c: Cmd) {
    match c
    case LiteralCmd(data) => |data| < MAX_INT
    case CopyCmd(pos, len) => pos < MAX_LONG && len < MAX_LONG
  }

  function IntLen(v: nat): (n: nat)
    ensures n in {1, 2, 4, 8}
  {
    if v < 0x100 then 1
    else if v < 0x1_0000 then 2
    else if v < 0x1_0000_0000 then 4
    else 8
  }

  function WidthIndex(n: nat): (i: nat)
    requires n in {1, 2, 4, 8}
    ensures i < 4 && Width(i) == n
  {
    if n == 1 then 0 else if n == 2 then 1 else if n == 4 then 2 else 3
  }

  function LiteralHeader(len: nat): seq<Byte>
    requires len < MAX_INT
  {
    [0x41 + WidthIndex(IntLen(len))] + NetInt(len, IntLen(len))
  }

  function CopyHeader(pos: nat, len: nat): seq<Byte> {
    [0x45 + 4 * WidthIndex(IntLen(pos)) + WidthIndex(IntLen(len))] + NetInt(pos, IntLen(pos)) + NetInt(len, IntLen(len))
  }

  function Encode(c: Cmd): seq<Byte>
    requires Encodable(c)
  {
    match c
    case LiteralCmd(data) => LiteralHeader(|data|) + data
    case CopyCmd(pos, len) => CopyHeader(pos, len)
  }

  function EncodeAll(cs: seq<Cmd>): seq<Byte>
    requires forall i :: 0 <= i < |cs| ==> Encodable(cs[i])
  {
    if cs == [] then [] else Encode(cs[0]) + EncodeAll(cs[1..])
  }

  /** A parameter of width n, as the decoder reads it: 8-byte values are signed. */
  function Param(s: seq<Byte>): int {
    ToInt64(Unsigned(s))
  }

  /** IntLen is the smallest supported width that holds the value. */
  lemma IntLenSmallest(v: nat, n: nat)
    requires v < MAX_LONG && n in {1, 2, 4, 8}
    ensures IntLen(v) <= n <==> v < Pow256(n)
  {
    Pow256Values();
  }

  /** Every non-negative 64-bit value survives encoding at its smallest width. */
  lemma ParamInverse(v: nat)
    requires v < MAX_LONG
    ensures Param(NetInt(v, IntLen(v))) == v
  {
    IntLenSmallest(v, IntLen(v));
    ParamAtWidth(v, IntLen(v));
  }

  lemma ParamAtWidth(v: nat, n: nat)
    requires v < MAX_LONG && v < Pow256(n)
    ensures Param(NetInt(v, n)) == v
  {
    NetIntInverse(v, n);
    ModUnique(v, Pow256(n), 0, v);
    ParamOf(NetInt(v, n), v);
  }

  lemma ParamOf(s: seq<Byte>, v: nat)
    requires Unsigned(s) == v < MAX_LONG
    ensures Param(s) == v
  {
  }

  lemma ToSignedCongruent(v: int, m: int)
    requires m > 0
    ensures ToSigned(v, m) % m == v % m
  {
    var u := v % m;
    if 2 * u >= m {
      ModUnique(u - m, m, -1, u);
    } else {
      ModUnique(u, m, 0, u);
    }
  }
}
