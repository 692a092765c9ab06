/** Reading a list of commands back through the opcode table (prototab.c), without
  * running them: the inverse of the encoder, for every list it can encode.
  */
module DeltaCodec {
  import opened Codec
  import opened Wrappers
  import opened PatchSpec

  /** A list of commands and what follows its end command. */
  datatype Decoded = Decoded(cmds: seq<Cmd>, rest: seq<Byte>)

  function Prepend(c: Cmd, d: Option<Decoded>): Option<Decoded> {
    if d.None? then None else Some(Decoded([c] + d.value.cmds, d.value.rest))
  }

  /** The command that parameters p1 and p2 make, and the bytes after it. */
  function Command(e: Entry, p1: int, p2: int, t: seq<Byte>): Option<(Cmd, seq<Byte>)> {
    match e.kind
    case Literal => if p1 < 0 || p1 > |t| then None else Some((LiteralCmd(t[..p1]), t[p1..]))
    case Copy => if p1 < 0 || p2 < 0 then None else Some((CopyCmd(p1, p2), t))
    case _ => None
  }

  function Decode(s: seq<Byte>): Option<Decoded>
    decreases |s|
  {
    if s == [] then None
    else
      var e := Proto(s[0]);
      var n := e.len1 + e.len2;
      if |s| < 1 + n then None
      else if e.kind.End? then Some(Decoded([], s[1..]))
      else
        var t := s[1 + n..];
        var c := Command(e, if e.len1 == 0 then e.immediate else Param(s[1..1 + e.len1]),
                         Param(s[1 + e.len1..1 + n]), t);
        if c.None? || |c.value.1| > |t| then None else Prepend(c.value.0, Decode(c.value.1))
  }

  lemma DecodeStep(s: seq<Byte>, op: Byte, params: seq<Byte>, t: seq<Byte>, c: Cmd, rest: seq<Byte>)
    requires s == [op] + params + t && |params| == Proto(op).len1 + Proto(op).len2 && Proto(op).len1 > 0
    requires Command(Proto(op), Param(params[..Proto(op).len1]), Param(params[Proto(op).len1..]), t) == Some((c, rest))
    requires |rest| <= |t| && Proto(op).kind != End
    ensures Decode(s) == Prepend(c, Decode(rest))
  {
    CutParts(op, params, t, Proto(op).len1);
  }

  lemma CutParts(op: Byte, params: seq<Byte>, t: seq<Byte>, k: nat)
    requires k <= |params|
    ensures
      var s := [op] + params + t;
      s[1..1 + k] == params[..k] && s[1 + k..1 + |params|] == params[k..] && s[1 + |params|..] == t
  {
  }

  lemma DecodeLiteralParts(op: Byte, head: seq<Byte>, data: seq<Byte>, rest: seq<Byte>)
    requires Proto(op) == Entry(Literal, 0, |head|, 0) && |head| > 0 && Param(head) == |data|
    ensures Decode([op] + head + data + rest) == Prepend(LiteralCmd(data), Decode(rest))
  {
    var t := data + rest;
    assert [op] + head + data + rest == [op] + head + t;
    SliceConcat(data, rest);
    assert head[..|head|] == head;
    DecodeStep([op] + head + data + rest, op, head, t, LiteralCmd(data), rest);
  }

  lemma DecodeLiteral(data: seq<Byte>, rest: seq<Byte>)
    requires |data| < MAX_INT
    ensures Decode(LiteralHeader(|data|) + data + rest) == Prepend(LiteralCmd(data), Decode(rest))
  {
    var n := |data|;
    var w := IntLen(n);
    var op: Byte, head := 0x41 + WidthIndex(w), NetInt(n, w);
    assert Param(head) == n by {
      ParamInverse(n);
    }
    LiteralOpcode(w);
    assert LiteralHeader(n) == [op] + head;
    DecodeLiteralParts(op, head, data, rest);
  }

  lemma DecodeCopyParts(op: Byte, a: seq<Byte>, b: seq<Byte>, rest: seq<Byte>)
    requires Proto(op) == Entry(Copy, 0, |a|, |b|) && |a| > 0 && Param(a) >= 0 && Param(b) >= 0
    ensures Decode([op] + a + b + rest) == Prepend(CopyCmd(Param(a), Param(b)), Decode(rest))
  {
    assert [op] + a + b + rest == [op] + (a + b) + rest;
    SliceConcat(a, b);
    DecodeStep([op] + a + b + rest, op, a + b, rest, CopyCmd(Param(a), Param(b)), rest);
  }

  lemma DecodeCopy(pos: nat, len: nat, rest: seq<Byte>)
    requires pos < MAX_LONG && len < MAX_LONG
    ensures Decode(CopyHeader(pos, len) + rest) == Prepend(CopyCmd(pos, len), Decode(rest))
  {
    var v, w := IntLen(pos), IntLen(len);
    var op: Byte, a, b := 0x45 + 4 * WidthIndex(v) + WidthIndex(w), NetInt(pos, v), NetInt(len, w);
    assert Param(a) == pos && Param(b) == len by {
      ParamInverse(pos);
      ParamInverse(len);
    }
    CopyOpcode(v, w);
    assert CopyHeader(pos, len) == [op] + a + b;
    DecodeCopyParts(op, a, b, rest);
  }

  lemma DecodeOne(c: Cmd, rest: seq<Byte>)
    requires Encodable(c)
    ensures Decode(Encode(c) + rest) == Prepend(c, Decode(rest))
  {
    match c
    case LiteralCmd(data) => DecodeLiteral(data, rest);
    case CopyCmd(pos, len) => DecodeCopy(pos, len, rest);
  }

  /** Decoding s gives the commands cs and leaves rest. */
  ghost predicate Gives(s: seq<Byte>, cs: seq<Cmd>, rest: seq<Byte>) {
    Decode(s).Some? && Decode(s).value.cmds == cs && Decode(s).value.rest == rest
  }

  lemma DecodeCons(c: Cmd, cs: seq<Cmd>, tail: seq<Byte>, rest: seq<Byte>)
    requires Encodable(c) && Gives(tail, cs, rest)
    ensures Gives(Encode(c) + tail, [c] + cs, rest)
  {
    DecodeOne(c, tail);
  }

  lemma EncodeCons(cs: seq<Cmd>, all: seq<Byte>, first: seq<Byte>, others: seq<Byte>)
    requires cs != [] && forall i :: 0 <= i < |cs| ==> Encodable(cs[i])
    requires all == EncodeAll(cs) && first == Encode(cs[0]) && others == EncodeAll(cs[1..])
    ensures all == first + others
  {
  }

  lemma Regroup(all: seq<Byte>, a: seq<Byte>, b: seq<Byte>, c: seq<Byte>, d: seq<Byte>)
    requires all == a + b
    ensures all + c + d == a + (b + c + d)
  {
  }

  /** Decoding the encoding of any list of commands gives that list back, and leaves
    * what follows its end command.
    */
  lemma {:induction false} DecodeEncoded(cs: seq<Cmd>, rest: seq<Byte>)
    requires forall i :: 0 <= i < |cs| ==> Encodable(cs[i])
    ensures Gives(EncodeAll(cs) + [0] + rest, cs, rest)
  {
    if cs == [] {
      assert (EncodeAll(cs) + [0] + rest)[0] == 0 && (EncodeAll(cs) + [0] + rest)[1..] == rest;
    } else {
      var all, first, others := EncodeAll(cs), Encode(cs[0]), EncodeAll(cs[1..]);
      EncodeCons(cs, all, first, others);
      Regroup(all, first, others, [0], rest);
      assert [cs[0]] + cs[1..] == cs;
      DecodeEncoded(cs[1..], rest);
      DecodeCons(cs[0], cs[1..], others + [0] + rest, rest);
    }
  }
}
