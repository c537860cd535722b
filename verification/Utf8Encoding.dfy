/** That byte counts are those of UTF-8, as section 3 of RFC 3629 defines it. */
module Utf8Encoding {
  import opened Messages
  import opened Utf8Text

  type Byte = b: int | 0 <= b < 256

  /** The bytes of a character: a lead that says how many, and six bits in each that follows. */
  function Encode(c: CodePoint): seq<Byte> {
    if c < 0x80 then [c]
    else if c < 0x800 then [0xC0 + c / 0x40, 0x80 + c % 0x40]
    else if c < 0x10000 then [0xE0 + c / 0x1000, 0x80 + c / 0x40 % 0x40, 0x80 + c % 0x40]
    else [0xF0 + c / 0x40000, 0x80 + c / 0x1000 % 0x40, 0x80 + c / 0x40 % 0x40, 0x80 + c % 0x40]
  }

  function EncodeAll(t: Text): seq<Byte> {
    if t == [] then [] else EncodeAll(t[..|t| - 1]) + Encode(t[|t| - 1])
  }

  /** What a lead byte says: how many bytes follow, the bits it holds, and the least character of that length. */
  function Lead(b: Byte): Option<(nat, nat, nat)> {
    if b < 0x80 then Some((0, b, 0))
    else if 0xC0 <= b < 0xE0 then Some((1, b - 0xC0, 0x80))
    else if 0xE0 <= b < 0xF0 then Some((2, b - 0xE0, 0x800))
    else if 0xF0 <= b < 0xF8 then Some((3, b - 0xF0, 0x10000))
    else None
  }

  function Follow(s: seq<Byte>, n: nat, bits: nat): Option<nat> {
    if n == 0 then Some(bits)
    else if s == [] || s[0] < 0x80 || s[0] >= 0xC0 then None
    else Follow(s[1..], n - 1, bits * 0x40 + s[0] - 0x80)
  }

  /** The character at the front and what is left; a longer form than it needs is refused. */
  function Decode(s: seq<Byte>): Option<(nat, seq<Byte>)> {
    if s == [] then None
    else
      match Lead(s[0])
      case None => None
      case Some((more, bits, least)) =>
        match Follow(s[1..], more, bits)
        case None => None
        case Some(c) => if c < least || more >= |s| then None else Some((c, s[more + 1..]))
  }

  lemma {:induction false} FollowOne(b: Byte, rest: seq<Byte>, n: nat, bits: nat)
    requires n > 0 && 0x80 <= b < 0xC0
    ensures Follow([b] + rest, n, bits) == Follow(rest, n - 1, bits * 0x40 + b - 0x80)
  {
    assert ([b] + rest)[1..] == rest;
  }

  lemma {:induction false} FollowAll(s: seq<Byte>, r: seq<Byte>, bits: nat)
    requires 1 <= |s| <= 3 && forall i :: 0 <= i < |s| ==> 0x80 <= s[i] < 0xC0
    ensures Follow(s + r, |s|, bits) == Some(Gathered(s, bits))
  {
    assert s + r == [s[0]] + (s[1..] + r);
    FollowOne(s[0], s[1..] + r, |s|, bits);
    if |s| > 1 { FollowAll(s[1..], r, bits * 0x40 + s[0] - 0x80); } else { assert s[1..] + r == r; }
  }

  function Gathered(s: seq<Byte>, bits: nat): nat
    requires forall i :: 0 <= i < |s| ==> 0x80 <= s[i] < 0xC0
  {
    if s == [] then bits else Gathered(s[1..], bits * 0x40 + s[0] - 0x80)
  }

  lemma {:induction false} DecodeOf(lead: Byte, s: seq<Byte>, r: seq<Byte>, bits: nat, least: nat)
    requires Lead(lead) == Some((|s|, bits, least)) && 1 <= |s| <= 3
    requires forall i :: 0 <= i < |s| ==> 0x80 <= s[i] < 0xC0
    requires Gathered(s, bits) >= least
    ensures Decode([lead] + s + r) == Some((Gathered(s, bits), r))
  {
    var all := [lead] + s + r;
    assert all[1..] == s + r && all[|s| + 1..] == r;
    FollowAll(s, r, bits);
  }

  lemma {:induction false} GatheredOne(a: Byte, bits: nat)
    requires 0x80 <= a < 0xC0
    ensures Gathered([a], bits) == bits * 0x40 + a - 0x80
  {
    assert [a][1..] == [];
  }

  lemma {:induction false} GatheredTwo(a: Byte, b: Byte, bits: nat)
    requires 0x80 <= a < 0xC0 && 0x80 <= b < 0xC0
    ensures Gathered([a, b], bits) == (bits * 0x40 + a - 0x80) * 0x40 + b - 0x80
  {
    assert [a, b][1..] == [b];
    GatheredOne(b, bits * 0x40 + a - 0x80);
  }

  lemma {:induction false} GatheredThree(a: Byte, b: Byte, c: Byte, bits: nat)
    requires 0x80 <= a < 0xC0 && 0x80 <= b < 0xC0 && 0x80 <= c < 0xC0
    ensures Gathered([a, b, c], bits) == ((bits * 0x40 + a - 0x80) * 0x40 + b - 0x80) * 0x40 + c - 0x80
  {
    assert [a, b, c][1..] == [b, c];
    GatheredTwo(b, c, bits * 0x40 + a - 0x80);
  }

  lemma {:induction false} TwoRead(c: CodePoint, r: seq<Byte>)
    requires 0x80 <= c < 0x800
    ensures Decode([0xC0 + c / 0x40] + [0x80 + c % 0x40] + r) == Some((c, r))
  {
    GatheredOne(0x80 + c % 0x40, c / 0x40);
    DecodeOf(0xC0 + c / 0x40, [0x80 + c % 0x40], r, c / 0x40, 0x80);
  }

  predicate Six(d: int) {
    0 <= d < 0x40
  }

  lemma {:induction false} ThreeOf(top: nat, a: int, b: int, c: nat, r: seq<Byte>)
    requires top < 0x10 && Six(a) && Six(b) && c == (top * 0x40 + a) * 0x40 + b && c >= 0x800
    ensures Decode([0xE0 + top] + [0x80 + a, 0x80 + b] + r) == Some((c, r))
  {
    GatheredTwo(0x80 + a, 0x80 + b, top);
    DecodeOf(0xE0 + top, [0x80 + a, 0x80 + b], r, top, 0x800);
  }

  lemma {:induction false} FourOf(top: nat, a: int, b: int, d: int, c: nat, r: seq<Byte>)
    requires top < 0x8 && Six(a) && Six(b) && Six(d)
    requires c == ((top * 0x40 + a) * 0x40 + b) * 0x40 + d && c >= 0x10000
    ensures Decode([0xF0 + top] + [0x80 + a, 0x80 + b, 0x80 + d] + r) == Some((c, r))
  {
    GatheredThree(0x80 + a, 0x80 + b, 0x80 + d, top);
    DecodeOf(0xF0 + top, [0x80 + a, 0x80 + b, 0x80 + d], r, top, 0x10000);
  }

  lemma {:induction false} ThreeRead(c: CodePoint, r: seq<Byte>)
    requires 0x800 <= c < 0x10000
    ensures Decode([0xE0 + c / 0x1000] + [0x80 + c / 0x40 % 0x40, 0x80 + c % 0x40] + r) == Some((c, r))
  {
    ThreeOf(c / 0x1000, c / 0x40 % 0x40, c % 0x40, c, r);
  }

  lemma {:induction false} FourRead(c: CodePoint, r: seq<Byte>)
    requires 0x10000 <= c
    ensures Decode([0xF0 + c / 0x40000] + [0x80 + c / 0x1000 % 0x40, 0x80 + c / 0x40 % 0x40, 0x80 + c % 0x40] + r)
            == Some((c, r))
  {
    FourOf(c / 0x40000, c / 0x1000 % 0x40, c / 0x40 % 0x40, c % 0x40, c, r);
  }

  lemma {:induction false} LeadAndTail(e: seq<Byte>, tail: seq<Byte>, r: seq<Byte>)
    requires e != [] && e[1..] == tail
    ensures e + r == [e[0]] + tail + r
  {
    assert e == [e[0]] + tail;
  }

  /** Every character reads back from its bytes, whatever follows them. */
  lemma {:induction false} EncodeReads(c: CodePoint, r: seq<Byte>)
    ensures Decode(Encode(c) + r) == Some((c, r))
  {
    var e := Encode(c);
    LeadAndTail(e, e[1..], r);
    if c < 0x80 {
      assert ([c] + r)[1..] == r;
    } else if c < 0x800 {
      TwoRead(c, r);
    } else if c < 0x10000 {
      ThreeRead(c, r);
    } else {
      FourRead(c, r);
    }
  }

  /** The size of a text is that of its bytes; a lone surrogate has as many as what replaces it. */
  lemma {:induction false} BytesAreEncoded(t: Text)
    ensures Bytes(t) == |EncodeAll(t)|
  {
    if t != [] { BytesAreEncoded(t[..|t| - 1]); }
  }
}
