/** Text as code points, and what TextEncoder makes of its length. */
module Utf8Text {

  type CodePoint = c: int | 0 <= c < 0x110000

  type Text = seq<CodePoint>

  predicate IsAscii(t: Text) {
    forall i :: 0 <= i < |t| ==> t[i] < 0x80
  }

  /** An ASCII literal. */
  function A(s: string): (t: Text)
    ensures |t| == |s| && IsAscii(t)
  {
    seq(|s|, i requires 0 <= i < |s| => s[i] as int % 0x80)
  }

  /** UTF-8 bytes of one code point; a lone surrogate becomes U+FFFD, also three bytes. */
  function Width(c: CodePoint): nat {
    if c < 0x80 then 1 else if c < 0x800 then 2 else if c < 0x10000 then 3 else 4
  }

  /** encoder.encode(t).byteLength */
  function Bytes(t: Text): nat {
    if t == [] then 0 else Bytes(t[..|t| - 1]) + Width(t[|t| - 1])
  }

  lemma {:induction false} BytesConcat(a: Text, b: Text)
    ensures Bytes(a + b) == Bytes(a) + Bytes(b)
  {
    if b == [] {
      assert a + b == a;
    } else {
      BytesConcat(a, b[..|b| - 1]);
      assert (a + b)[..|a + b| - 1] == a + b[..|b| - 1];
    }
  }

  lemma {:induction false} BytesAscii(t: Text)
    requires IsAscii(t)
    ensures Bytes(t) == |t|
  {
    if t != [] { BytesAscii(t[..|t| - 1]); }
  }

  lemma {:induction false} BytesPrefix(t: Text, n: nat)
    requires n <= |t|
    ensures Bytes(t[..n]) <= Bytes(t)
  {
    BytesConcat(t[..n], t[n..]);
    assert t == t[..n] + t[n..];
  }

  function Pow10(k: nat): nat {
    if k == 0 then 1 else 10 * Pow10(k - 1)
  }

  /** Decimal digits of a natural number. */
  function Dec(n: nat): (t: Text)
    ensures |t| >= 1 && IsAscii(t)
  {
    if n < 10 then [48 + n] else Dec(n / 10) + [48 + n % 10]
  }

  lemma {:induction false} DecLength(n: nat, k: nat)
    requires k >= 1 && n < Pow10(k)
    ensures |Dec(n)| <= k && Bytes(Dec(n)) == |Dec(n)|
  {
    BytesAscii(Dec(n));
    if n >= 10 {
      DecLength(n / 10, k - 1);
    }
  }

  predicate IsSpace(c: CodePoint) {
    || 9 <= c <= 13 || c == 0x20 || c == 0xA0 || c == 0x1680 || 0x2000 <= c <= 0x200A
    || c == 0x2028 || c == 0x2029 || c == 0x202F || c == 0x205F || c == 0x3000 || c == 0xFEFF
  }

  function TrimEnd(t: Text): (r: Text)
    ensures r <= t
  {
    if t != [] && IsSpace(t[|t| - 1]) then TrimEnd(t[..|t| - 1]) else t
  }

  function TrimStart(t: Text): Text {
    if t != [] && IsSpace(t[0]) then TrimStart(t[1..]) else t
  }

  function Trim(t: Text): Text {
    TrimEnd(TrimStart(t))
  }

  lemma {:induction false} TrimBytes(t: Text)
    ensures Bytes(Trim(t)) <= Bytes(t)
  {
    TrimStartBytes(t);
    BytesPrefix(TrimStart(t), |Trim(t)|);
    assert TrimStart(t)[..|Trim(t)|] == Trim(t);
  }

  lemma {:induction false} TrimStartBytes(t: Text)
    ensures Bytes(TrimStart(t)) <= Bytes(t)
  {
    if t != [] && IsSpace(t[0]) {
      TrimStartBytes(t[1..]);
      BytesConcat([t[0]], t[1..]);
      assert t == [t[0]] + t[1..];
    }
  }

  /** " …", what a truncated text ends with. */
  const ELLIPSIS: Text := [0x20, 0x2026]

  lemma {:induction false} EllipsisBytes()
    ensures Bytes(ELLIPSIS) == 4
  {
    assert ELLIPSIS[..1] == [0x20] && [0x20][..0] == [];
    BytesConcat([0x20], [0x2026]);
    assert [0x2026][..0] == [];
    assert ELLIPSIS == [0x20] + [0x2026];
  }

  /** The prefix of length `n` leaves room for the ellipsis. */
  predicate RoomAfter(t: Text, n: nat, maximum: nat)
    requires n <= |t|
  {
    Bytes(t[..n]) + 4 <= maximum
  }

  /** The longest prefix that leaves room for the ellipsis: how far truncateUtf8 gets. */
  function Cut(t: Text, n: nat, maximum: nat): (r: nat)
    requires n <= |t|
    ensures n <= r <= |t|
    decreases |t| - n
  {
    if n < |t| && RoomAfter(t, n + 1, maximum) then Cut(t, n + 1, maximum) else n
  }

  function TruncatedUtf8(t: Text, maximum: nat): Text {
    if Bytes(t) <= maximum then t else TrimEnd(t[..Cut(t, 0, maximum)]) + ELLIPSIS
  }

  lemma {:induction false} CutMeaning(t: Text, n: nat, maximum: nat)
    requires n <= |t|
    requires n == 0 || RoomAfter(t, n, maximum)
    ensures Cut(t, n, maximum) == 0 || RoomAfter(t, Cut(t, n, maximum), maximum)
    ensures forall k :: Cut(t, n, maximum) < k <= |t| ==> !RoomAfter(t, k, maximum)
    decreases |t| - n
  {
    if n < |t| {
      if RoomAfter(t, n + 1, maximum) {
        CutMeaning(t, n + 1, maximum);
      } else {
        forall k | n < k <= |t| ensures !RoomAfter(t, k, maximum) {
          BytesPrefix(t[..k], n + 1);
          assert t[..k][..n + 1] == t[..n + 1];
        }
      }
    }
  }

  /**
   * A truncated text never exceeds a bound with room for the ellipsis alone, is the text
   * itself when that fits, and otherwise is a prefix, cut as late as the bound allows
   * (then trimmed), marked with the ellipsis.
   */
  lemma {:induction false} TruncationBounded(t: Text, maximum: nat)
    ensures Bytes(t) <= maximum ==> TruncatedUtf8(t, maximum) == t
    ensures maximum >= 4 ==> Bytes(TruncatedUtf8(t, maximum)) <= maximum
    ensures Bytes(t) > maximum ==>
              forall k :: Cut(t, 0, maximum) < k <= |t| ==> Bytes(t[..k]) + Bytes(ELLIPSIS) > maximum
    ensures Bytes(t) > maximum && maximum >= 4 ==> Bytes(t[..Cut(t, 0, maximum)]) + Bytes(ELLIPSIS) <= maximum
  {
    EllipsisBytes();
    CutMeaning(t, 0, maximum);
    forall k | Cut(t, 0, maximum) < k <= |t| ensures Bytes(t[..k]) + 4 > maximum {
      assert !RoomAfter(t, k, maximum);
    }
    var kept := t[..Cut(t, 0, maximum)];
    assert t[..0] == [];
    BytesPrefix(kept, |TrimEnd(kept)|);
    assert kept[..|TrimEnd(kept)|] == TrimEnd(kept);
    BytesConcat(TrimEnd(kept), ELLIPSIS);
  }

  /** truncateUtf8: grow the output one character at a time while the ellipsis still fits. */
  method TruncateUtf8(value: Text, maximum: nat) returns (r: Text)
    ensures r == TruncatedUtf8(value, maximum)
  {
    if Bytes(value) <= maximum { return value; }
    var output: Text := [];
    EllipsisBytes();
    assert value[..0] == [];
    while |output| < |value|
      invariant |output| <= |value| && output == value[..|output|]
      invariant Cut(value, 0, maximum) == Cut(value, |output|, maximum)
    {
      var character := value[|output|];
      assert value[..|output| + 1] == output + [character];
      BytesConcat(output + [character], ELLIPSIS);
      if Bytes(output + [character] + ELLIPSIS) > maximum { break; }
      output := output + [character];
    }
    r := TrimEnd(output) + ELLIPSIS;
  }

  // ---- Joining ----

  /** parts.join("\n\n") */
  function Joined(parts: seq<Text>): Text {
    if parts == [] then []
    else if |parts| == 1 then parts[0]
    else parts[0] + [10, 10] + Joined(parts[1..])
  }

  /** Each part with the separator that may follow it. */
  function PartBytes(parts: seq<Text>): nat {
    if parts == [] then 0 else Bytes(parts[0]) + 2 + PartBytes(parts[1..])
  }

  lemma {:induction false} JoinedBytes(parts: seq<Text>)
    ensures parts != [] ==> Bytes(Joined(parts)) + 2 == PartBytes(parts)
  {
    if |parts| > 1 {
      JoinedBytes(parts[1..]);
      BytesAscii([10, 10]);
      BytesConcat(parts[0] + [10, 10], Joined(parts[1..]));
      BytesConcat(parts[0], [10, 10]);
    } else if |parts| == 1 {
      assert parts[1..] == [];
    }
  }

  lemma {:induction false} PartBytesConcat(a: seq<Text>, b: seq<Text>)
    ensures PartBytes(a + b) == PartBytes(a) + PartBytes(b)
  {
    if a == [] {
      assert a + b == b;
    } else {
      PartBytesConcat(a[1..], b);
      assert (a + b)[1..] == a[1..] + b;
    }
  }
}
