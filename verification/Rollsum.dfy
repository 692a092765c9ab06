/** The weak checksum: its definition, the accumulator the delta scanner rolls
  * over the file (rollsum.h, rollsum.c) and the four-at-a-time form the
  * signature side computes (checksum.c).
  */
module Rollsum {
  import opened Codec

  const CHAR_OFFSET: int := 31
  const WORD: int := 0x1_0000_0000

  /** The two sums over unbounded integers, one byte at a time. */
  function Sum1(w: seq<Byte>): int {
    if w == [] then 0 else Sum1(w[..|w| - 1]) + w[|w| - 1] + CHAR_OFFSET
  }

  function Sum2(w: seq<Byte>): int {
    if w == [] then 0 else Sum2(w[..|w| - 1]) + Sum1(w)
  }

  /** The digest of exact sums, in 32 bits: the low half of s1 under s2. */
  function DigestOf(s1: int, s2: int): int {
    s2 * 0x1_0000 % WORD + s1 % 0x1_0000
  }

  function WeakSum(w: seq<Byte>): int {
    DigestOf(Sum1(w), Sum2(w))
  }

  ghost function Total(s: seq<int>): int {
    if s == [] then 0 else Total(s[..|s| - 1]) + s[|s| - 1]
  }

  lemma {:induction false} TotalAdd(a: seq<int>, b: seq<int>, c: seq<int>)
    requires |a| == |b| == |c| && forall i :: 0 <= i < |c| ==> c[i] == a[i] + b[i]
    ensures Total(c) == Total(a) + Total(b)
  {
    if c != [] {
      TotalAdd(a[..|a| - 1], b[..|a| - 1], c[..|a| - 1]);
    }
  }

  /** The bytes with the offset, and each of them as often as it is counted in the second sum. */
  ghost function Terms1(w: seq<Byte>): (t: seq<int>) {
    seq(|w|, i requires 0 <= i < |w| => (w[i] as int) + 31)
  }

  ghost function Terms2(w: seq<Byte>): (t: seq<int>) {
    seq(|w|, i requires 0 <= i < |w| => (|w| - i) * ((w[i] as int) + 31))
  }

  lemma {:induction false} SumsByIndex(w: seq<Byte>)
    ensures Sum1(w) == Total(Terms1(w)) && Sum2(w) == Total(Terms2(w))
  {
    if w != [] {
      var n := |w| - 1;
      SumsByIndex(w[..n]);
      assert Terms1(w)[..n] == Terms1(w[..n]);
      LaterTerms(w);
    }
  }

  /** A byte more counts every byte once more. */
  lemma LaterTerms(w: seq<Byte>)
    requires w != []
    ensures Total(Terms2(w)) == Total(Terms2(w[..|w| - 1])) + Total(Terms1(w))
  {
    var n := |w| - 1;
    var front := w[..n];
    forall i | 0 <= i < n ensures Terms2(w)[i] == Terms2(front)[i] + Terms1(front)[i] {
      var x := (w[i] as int) + 31;
      assert (n + 1 - i) * x == (n - i) * x + x;
    }
    TotalAdd(Terms2(front), Terms1(front), Terms2(w)[..n]);
    assert Terms1(w)[..n] == Terms1(front) && Terms2(w)[n] == Terms1(w)[n];
  }

  /** The weak sum byte by byte: the low half adds up the bytes, each with 31 more, and the
    * high half counts each of them as often as there are bytes from it on.
    */
  lemma WeakSumByIndex(w: seq<Byte>)
    ensures WeakSum(w) % 0x1_0000 == Total(Terms1(w)) % 0x1_0000
    ensures WeakSum(w) / 0x1_0000 == Total(Terms2(w)) % 0x1_0000
  {
    SumsByIndex(w);
    Halves(Sum1(w), Sum2(w));
  }

  lemma Halves(s1: int, s2: int)
    ensures DigestOf(s1, s2) % 0x1_0000 == s1 % 0x1_0000 && DigestOf(s1, s2) / 0x1_0000 == s2 % 0x1_0000
  {
    ModUnique(s2 * 0x1_0000, WORD, s2 / 0x1_0000, s2 % 0x1_0000 * 0x1_0000);
  }

  lemma Append(w: seq<Byte>, b: Byte)
    ensures Sum1(w + [b]) == Sum1(w) + b + CHAR_OFFSET
    ensures Sum2(w + [b]) == Sum2(w) + Sum1(w) + b + CHAR_OFFSET
  {
    assert (w + [b])[..|w|] == w;
  }

  /** Taking the first byte off: it was counted once in the first sum and
    * |w| times in the second.
    */
  lemma {:induction false} DropFirst(w: seq<Byte>)
    requires w != []
    ensures Sum1(w) == Sum1(w[1..]) + w[0] + CHAR_OFFSET
    ensures Sum2(w) == Sum2(w[1..]) + |w| * (w[0] + CHAR_OFFSET)
  {
    if |w| == 1 {
      assert w[..0] == [] && w[1..] == [];
    } else {
      var front, last := w[..|w| - 1], w[|w| - 1];
      DropFirst(front);
      assert w[1..] == front[1..] + [last];
      Append(front[1..], last);
      assert (|w| - 1) * (w[0] + CHAR_OFFSET) + (w[0] + CHAR_OFFSET) == |w| * (w[0] + CHAR_OFFSET);
    }
  }

  /** The window of length n that begins with c, one byte on, where it ends in b. */
  lemma WindowMoves(w: seq<Byte>, n: nat, c: Byte, b: Byte)
    requires w != [] && |w| == n && w[0] == c
    ensures Sum1(w[1..] + [b]) == Sum1(w) + (b - c)
    ensures Sum2(w[1..] + [b]) == Sum2(w) + (Sum1(w) + (b - c)) - n * (c + CHAR_OFFSET)
  {
    DropFirst(w);
    Append(w[1..], b);
  }

  lemma ProductNonNegative(a: int, b: int)
    requires a >= 0 && b >= 0
    ensures a * b >= 0
  {
  }

  lemma ModAdd(x: int, y: int, m: int)
    requires m > 0
    ensures (x % m + y) % m == (x + y) % m
  {
    ModUnique(x % m + y, m, (x + y) / m - x / m, (x + y) % m);
  }

  lemma ModAddBoth(x: int, y: int, m: int)
    requires m > 0
    ensures (x % m + y % m) % m == (x + y) % m
  {
    ModAdd(x, y % m, m);
    ModAdd(y, x, m);
  }

  /** Sums a and b modulo WORD, after a change of a by d and the drop of x from b. */
  lemma RotateSums(a: int, b: int, d: int, x: int, s1: int, s2: int)
    requires s1 == a % WORD && s2 == b % WORD
    ensures (s1 + d) % WORD == (a + d) % WORD
    ensures (s2 + ((s1 + d) % WORD - x)) % WORD == (b + (a + d) - x) % WORD
  {
    ModAdd(a, d, WORD);
    ModAddBoth(b, a + d, WORD);
    ModAdd(b + (a + d), -x, WORD);
    ModAdd(s2 + (a + d) % WORD, -x, WORD);
  }

  lemma ModMul(x: int, k: int, m: int)
    requires m > 0
    ensures (x % m * k) % m == (x * k) % m
  {
    var q := x / m;
    assert x * k == (q * m + x % m) * k == q * k * m + x % m * k;
    ModUnique(x * k, m, q * k + (x % m * k) / m, (x % m * k) % m);
  }

  /** 2^16 divides 2^32, so reducing the sums to a C unsigned loses nothing. */
  lemma DigestReduced(s1: int, s2: int)
    ensures DigestOf(s1 % WORD, s2 % WORD) == DigestOf(s1, s2)
  {
    ModMul(s2, 0x1_0000, WORD);
    var q := s1 / WORD;
    ModUnique(s1, 0x1_0000, q * 0x1_0000 + (s1 % WORD) / 0x1_0000, s1 % WORD % 0x1_0000);
  }

  lemma DigestRange(s1: int, s2: int)
    ensures 0 <= DigestOf(s1, s2) < WORD
  {
    var x := s2 * 0x1_0000;
    var q := x / WORD;
    assert x % WORD == (s2 - q * 0x1_0000) * 0x1_0000;
    var r := s2 - q * 0x1_0000;
    assert r * 0x1_0000 < WORD;
    assert r < 0x1_0000;
  }

  /** The accumulator; sums wrap at 2^32. */
  class Accumulator {
    var count: nat
    var s1: int
    var s2: int

    /** It holds the sums of exactly the bytes w. */
    ghost predicate Holds(w: seq<Byte>)
      reads this
    {
      count == |w| && s1 == Sum1(w) % WORD && s2 == Sum2(w) % WORD
    }

    constructor ()
      ensures Holds([])
    {
      count, s1, s2 := 0, 0, 0;
    }

    method Init()
      modifies this
      ensures Holds([])
    {
      count, s1, s2 := 0, 0, 0;
    }

    method Rotate(out: Byte, in_: Byte, ghost w: seq<Byte>)
      requires Holds(w) && w != [] && w[0] == out
      modifies this
      ensures Holds(w[1..] + [in_])
    {
      WindowMoves(w, count, out, in_);
      RotateSums(Sum1(w), Sum2(w), in_ - out, count * (out + CHAR_OFFSET), s1, s2);
      s1 := (s1 + (in_ - out)) % WORD;
      s2 := (s2 + (s1 - count * (out + CHAR_OFFSET))) % WORD;
    }

    method Rollin(c: Byte, ghost w: seq<Byte>)
      requires Holds(w)
      modifies this
      ensures Holds(w + [c])
    {
      Append(w, c);
      ModAdd(Sum1(w), c + CHAR_OFFSET, WORD);
      s1 := (s1 + (c + CHAR_OFFSET)) % WORD;
      ModAddBoth(Sum2(w), Sum1(w + [c]), WORD);
      s2 := (s2 + s1) % WORD;
      count := count + 1;
    }

    method Rollout(c: Byte, ghost w: seq<Byte>)
      requires Holds(w) && w != [] && w[0] == c
      modifies this
      ensures Holds(w[1..])
    {
      DropFirst(w);
      ModAdd(Sum1(w), -(c + CHAR_OFFSET), WORD);
      s1 := (s1 - (c + CHAR_OFFSET)) % WORD;
      ModAdd(Sum2(w), -(count * (c + CHAR_OFFSET)), WORD);
      s2 := (s2 - count * (c + CHAR_OFFSET)) % WORD;
      count := count - 1;
    }

    /** Sixteen bytes at a time without the offset, which is added once for the
      * batch; then the remaining bytes singly.
      */
    method Update(buf: seq<Byte>, ghost w: seq<Byte>)
      requires Holds(w)
      modifies this
      ensures Holds(w + buf)
    {
      var t1, t2 := s1, s2;
      count := count + |buf|;
      var p := 0;
      assert w + buf[..0] == w;
      while |buf| - p >= 16
        invariant 0 <= p <= |buf| && count == |w| + |buf|
        invariant t1 == Sum1(w + buf[..p]) % WORD && t2 == Sum2(w + buf[..p]) % WORD
      {
        t1, t2 := AddSixteen(t1, t2, buf, p, w);
        p := p + 16;
      }
      while p != |buf|
        invariant 0 <= p <= |buf| && count == |w| + |buf|
        invariant t1 == Sum1(w + buf[..p]) % WORD && t2 == Sum2(w + buf[..p]) % WORD
      {
        t1, t2 := AddNext(t1, t2, buf, p, w);
        p := p + 1;
      }
      assert buf[..p] == buf;
      assert |w + buf| == count;
      s1, s2 := t1, t2;
    }

    method Digest(ghost w: seq<Byte>) returns (d: int)
      requires Holds(w)
      ensures d == WeakSum(w)
    {
      DigestReduced(Sum1(w), Sum2(w));
      d := DigestOf(s1, s2);
    }
  }

  /** s1 += b, s2 += s1, on unsigned words standing for the exact sums e1, e2. */
  method AddOne(s1: int, s2: int, b: int, ghost e1: int, ghost e2: int) returns (r1: int, r2: int)
    requires s1 == e1 % WORD && s2 == e2 % WORD
    ensures r1 == (e1 + b) % WORD && r2 == (e2 + e1 + b) % WORD
  {
    ModAdd(e1, b, WORD);
    r1 := (s1 + b) % WORD;
    ModAddBoth(e2, e1 + b, WORD);
    r2 := (s2 + r1) % WORD;
  }

  method AddNext(s1: int, s2: int, buf: seq<Byte>, p: nat, ghost w: seq<Byte>) returns (r1: int, r2: int)
    requires p < |buf| && s1 == Sum1(w + buf[..p]) % WORD && s2 == Sum2(w + buf[..p]) % WORD
    ensures r1 == Sum1(w + buf[..p + 1]) % WORD && r2 == Sum2(w + buf[..p + 1]) % WORD
  {
    r1, r2 := AddOne(s1, s2, buf[p] + CHAR_OFFSET, Sum1(w + buf[..p]), Sum2(w + buf[..p]));
    Append(w + buf[..p], buf[p]);
    assert w + buf[..p + 1] == w + buf[..p] + [buf[p]];
  }

  /** Four bytes without the offset. */
  method AddFour(s1: int, s2: int, b0: int, b1: int, b2: int, b3: int, ghost e1: int, ghost e2: int)
    returns (r1: int, r2: int)
    requires s1 == e1 % WORD && s2 == e2 % WORD
    ensures r1 == (e1 + b0 + b1 + b2 + b3) % WORD
    ensures r2 == (e2 + 4 * (e1 + b0) + 3 * b1 + 2 * b2 + b3) % WORD
  {
    r1, r2 := AddOne(s1, s2, b0, e1, e2);
    r1, r2 := AddOne(r1, r2, b1, e1 + b0, e2 + e1 + b0);
    r1, r2 := AddOne(r1, r2, b2, e1 + b0 + b1, e2 + 2 * (e1 + b0) + b1);
    r1, r2 := AddOne(r1, r2, b3, e1 + b0 + b1 + b2, e2 + 3 * (e1 + b0) + 2 * b1 + b2);
  }

  method AddSixteen(s1: int, s2: int, buf: seq<Byte>, p: nat, ghost w: seq<Byte>) returns (r1: int, r2: int)
    requires p + 16 <= |buf|
    requires s1 == Sum1(w + buf[..p]) % WORD && s2 == Sum2(w + buf[..p]) % WORD
    ensures r1 == Sum1(w + buf[..p + 16]) % WORD && r2 == Sum2(w + buf[..p + 16]) % WORD
  {
    r1, r2 := AddQuarters(s1, s2, buf, p, w);
    AddOwed(Sum1(w + buf[..p + 16]), CHAR_OFFSET * 16, r1);
    AddOwed(Sum2(w + buf[..p + 16]), CHAR_OFFSET * 136, r2);
    r1 := (r1 + 16 * CHAR_OFFSET) % WORD;
    r2 := (r2 + 136 * CHAR_OFFSET) % WORD;
  }

  /** The sixteen bytes without their offsets. */
  method AddQuarters(s1: int, s2: int, buf: seq<Byte>, p: nat, ghost w: seq<Byte>) returns (r1: int, r2: int)
    requires p + 16 <= |buf|
    requires s1 == Sum1(w + buf[..p]) % WORD && s2 == Sum2(w + buf[..p]) % WORD
    ensures r1 == (Sum1(w + buf[..p + 16]) - CHAR_OFFSET * 16) % WORD
    ensures r2 == (Sum2(w + buf[..p + 16]) - CHAR_OFFSET * 136) % WORD
  {
    r1, r2 := AddQuarter(s1, s2, buf, p, 0, 0, w);
    r1, r2 := AddQuarter(r1, r2, buf, p, 4, 10, w);
    r1, r2 := AddQuarter(r1, r2, buf, p, 8, 36, w);
    r1, r2 := AddQuarter(r1, r2, buf, p, 12, 78, w);
  }

  lemma AddOwed(x: int, owed: int, r: int)
    requires r == (x - owed) % WORD
    ensures (r + owed) % WORD == x % WORD
  {
    ModAdd(x - owed, owed, WORD);
  }

  /** Four of the sixteen; the k bytes before them owe k offsets to the first
    * sum and owed offsets to the second.
    */
  method AddQuarter(s1: int, s2: int, buf: seq<Byte>, p: nat, k: nat, ghost owed: int, ghost w: seq<Byte>)
    returns (r1: int, r2: int)
    requires p + k + 4 <= |buf|
    requires s1 == (Sum1(w + buf[..p + k]) - CHAR_OFFSET * k) % WORD
    requires s2 == (Sum2(w + buf[..p + k]) - CHAR_OFFSET * owed) % WORD
    ensures r1 == (Sum1(w + buf[..p + k + 4]) - CHAR_OFFSET * (k + 4)) % WORD
    ensures r2 == (Sum2(w + buf[..p + k + 4]) - CHAR_OFFSET * (owed + 4 * k + 10)) % WORD
  {
    var i := p + k;
    ghost var e1, e2 := Sum1(w + buf[..i]) - CHAR_OFFSET * k, Sum2(w + buf[..i]) - CHAR_OFFSET * owed;
    r1, r2 := AddFour(s1, s2, buf[i], buf[i + 1], buf[i + 2], buf[i + 3], e1, e2);
    QuarterAppended(w, buf, i, k, owed, e1, e2);
  }

  lemma QuarterAppended(w: seq<Byte>, buf: seq<Byte>, i: nat, k: nat, owed: int, e1: int, e2: int)
    requires i + 4 <= |buf|
    requires e1 == Sum1(w + buf[..i]) - CHAR_OFFSET * k && e2 == Sum2(w + buf[..i]) - CHAR_OFFSET * owed
    ensures e1 + buf[i] + buf[i + 1] + buf[i + 2] + buf[i + 3] == Sum1(w + buf[..i + 4]) - CHAR_OFFSET * (k + 4)
    ensures e2 + 4 * (e1 + buf[i]) + 3 * (buf[i + 1] as int) + 2 * (buf[i + 2] as int) + buf[i + 3]
         == Sum2(w + buf[..i + 4]) - CHAR_OFFSET * (owed + 4 * k + 10)
  {
    AppendFour(w, buf, i);
  }

  /** The signature side: four bytes at a time while more than four remain. */
  method CalcWeakSum(buf: seq<Byte>) returns (d: int)
    ensures d == WeakSum(buf)
  {
    var s1, s2, i := 0, 0, 0;
    assert [] + buf[..0] == [];
    while i < |buf| - 4
      invariant 0 <= i <= |buf|
      invariant s1 == Sum1([] + buf[..i]) % WORD && s2 == Sum2([] + buf[..i]) % WORD
    {
      s1, s2 := AddNextFour(s1, s2, buf, i);
      i := i + 4;
    }
    while i < |buf|
      invariant 0 <= i <= |buf|
      invariant s1 == Sum1([] + buf[..i]) % WORD && s2 == Sum2([] + buf[..i]) % WORD
    {
      s1, s2 := AddNext(s1, s2, buf, i, []);
      i := i + 1;
    }
    assert [] + buf[..i] == buf;
    DigestReduced(Sum1(buf), Sum2(buf));
    d := DigestOf(s1, s2);
  }

  method AddNextFour(s1: int, s2: int, buf: seq<Byte>, i: nat) returns (r1: int, r2: int)
    requires i + 4 <= |buf| && s1 == Sum1([] + buf[..i]) % WORD && s2 == Sum2([] + buf[..i]) % WORD
    ensures r1 == Sum1([] + buf[..i + 4]) % WORD && r2 == Sum2([] + buf[..i + 4]) % WORD
  {
    r1, r2 := AddBatch(s1, s2, buf[i], buf[i + 1], buf[i + 2], buf[i + 3], Sum1([] + buf[..i]), Sum2([] + buf[..i]));
    AppendFour([], buf, i);
  }

  method AddBatch(s1: int, s2: int, b0: int, b1: int, b2: int, b3: int, ghost e1: int, ghost e2: int)
    returns (r1: int, r2: int)
    requires s1 == e1 % WORD && s2 == e2 % WORD
    ensures r1 == (e1 + b0 + b1 + b2 + b3 + 4 * CHAR_OFFSET) % WORD
    ensures r2 == (e2 + 4 * (e1 + b0) + 3 * b1 + 2 * b2 + b3 + 10 * CHAR_OFFSET) % WORD
  {
    var t := 4 * b0 + 3 * b1 + 2 * b2 + b3 + 10 * CHAR_OFFSET;
    ModMul(e1, 4, WORD);
    ModAdd(s1 * 4, s2 + t, WORD);
    ModAdd(e1 * 4, s2 + t, WORD);
    ModAdd(e2, e1 * 4 + t, WORD);
    r2 := (s2 + (4 * (s1 + b0) + 3 * b1 + 2 * b2 + b3 + 10 * CHAR_OFFSET)) % WORD;
    ModAdd(e1, b0 + b1 + b2 + b3 + 4 * CHAR_OFFSET, WORD);
    r1 := (s1 + (b0 + b1 + b2 + b3 + 4 * CHAR_OFFSET)) % WORD;
  }

  lemma AppendFour(w: seq<Byte>, buf: seq<Byte>, i: nat)
    requires i + 4 <= |buf|
    ensures Sum1(w + buf[..i + 4]) ==
            Sum1(w + buf[..i]) + buf[i] + buf[i + 1] + buf[i + 2] + buf[i + 3] + 4 * CHAR_OFFSET
    ensures Sum2(w + buf[..i + 4])
         == Sum2(w + buf[..i]) + 4 * (Sum1(w + buf[..i]) + buf[i]) + 3 * (buf[i + 1] as int) + 2 * (buf[i + 2] as int)
             + buf[i + 3] + 10 * CHAR_OFFSET
  {
    var v := w + buf[..i];
    assert w + buf[..i + 4] == v + [buf[i]] + [buf[i + 1]] + [buf[i + 2]] + [buf[i + 3]];
    Append(v, buf[i]);
    Append(v + [buf[i]], buf[i + 1]);
    Append(v + [buf[i]] + [buf[i + 1]], buf[i + 2]);
    Append(v + [buf[i]] + [buf[i + 1]] + [buf[i + 2]], buf[i + 3]);
  }
}
