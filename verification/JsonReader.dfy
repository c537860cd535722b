/**
 * A reader of JSON texts without insignificant white space, after sections 2 to 7 of RFC 8259,
 * and what it makes of a stable text (src/core/hash.ts:6-23).
 */
module JsonReader {
  import opened Utf16
  import opened StableJson

  datatype Parsed<+T> = Parsed(value: T, rest: Units) | Malformed

  // ---- Strings ----

  /** The value of a hexadecimal digit in either case; negative when it is none. */
  function HexDigit(u: Unit): int {
    if 48 <= u <= 57 then u - 48
    else if 65 <= u <= 70 then u - 55
    else if 97 <= u <= 102 then u - 87
    else -1
  }

  /** The code unit that four hexadecimal digits stand for. */
  function CodeOf(a: Unit, b: Unit, c: Unit, d: Unit): (r: int)
    ensures r < 0x10000
  {
    if HexDigit(a) < 0 || HexDigit(b) < 0 || HexDigit(c) < 0 || HexDigit(d) < 0 then -1
    else 4096 * HexDigit(a) + 256 * HexDigit(b) + 16 * HexDigit(c) + HexDigit(d)
  }

  /** What a letter after a backslash stands for: quotation mark, backslash, slash, and b f n r t. */
  function ShortEscape(letter: Unit): int {
    if letter == 34 then 0x22
    else if letter == 92 then 0x5C
    else if letter == 47 then 0x2F
    else if letter == 98 then 0x08
    else if letter == 102 then 0x0C
    else if letter == 110 then 0x0A
    else if letter == 114 then 0x0D
    else if letter == 116 then 0x09
    else -1
  }

  /** The next character, escaped or not; control characters must be escaped. */
  function ReadChar(t: Units): (p: Parsed<Unit>)
    ensures p.Parsed? ==> |p.rest| < |t|
  {
    if t == [] || t[0] < 0x20 || t[0] == 34 then Malformed
    else if t[0] != 92 then Parsed(t[0], t[1..])
    else if |t| < 2 then Malformed
    else if t[1] == 117 then
      if |t| < 6 || CodeOf(t[2], t[3], t[4], t[5]) < 0 then Malformed
      else Parsed(CodeOf(t[2], t[3], t[4], t[5]), t[6..])
    else if ShortEscape(t[1]) < 0 then Malformed
    else Parsed(ShortEscape(t[1]), t[2..])
  }

  /** Characters up to the closing quotation mark. */
  function ReadChars(t: Units): (p: Parsed<Units>)
    ensures p.Parsed? ==> |p.rest| < |t|
    decreases |t|
  {
    if t != [] && t[0] == 34 then Parsed([], t[1..])
    else
      match ReadChar(t)
      case Malformed => Malformed
      case Parsed(u, rest) =>
        match ReadChars(rest)
        case Malformed => Malformed
        case Parsed(units, after) => Parsed([u] + units, after)
  }

  function ReadString(t: Units): (p: Parsed<Units>)
    ensures p.Parsed? ==> |p.rest| < |t|
  {
    if t != [] && t[0] == 34 then ReadChars(t[1..]) else Malformed
  }

  lemma {:induction false} HexReads(d: int)
    requires 0 <= d < 16
    ensures HexDigit(Hex(d)) == d
  {
  }

  lemma {:induction false} Hex4Reads(u: Unit)
    ensures CodeOf(Hex4(u)[0], Hex4(u)[1], Hex4(u)[2], Hex4(u)[3]) == u
  {
    HexReads(u / 16 / 16 / 16);
    HexReads(u / 16 / 16 % 16);
    HexReads(u / 16 % 16);
    HexReads(u % 16);
  }

  /** A code unit as it is written is read as itself. */
  lemma {:induction false} EscapedReads(u: Unit, t: Units)
    ensures ReadChar(Escaped(u) + t) == Parsed(u, t)
  {
    var x := Escaped(u) + t;
    if |Escaped(u)| == 6 {
      Hex4Reads(u);
      assert x[2] == Hex4(u)[0] && x[3] == Hex4(u)[1] && x[4] == Hex4(u)[2] && x[5] == Hex4(u)[3];
      assert x[6..] == t;
    } else if |Escaped(u)| == 2 {
      assert x[0] == 92 && x[2..] == t;
    } else {
      assert x[0] == u && x[1..] == t;
    }
  }

  lemma {:induction false} PlainReads(u: Unit, t: Units)
    requires IsHigh(u) || IsLow(u)
    ensures ReadChar([u] + t) == Parsed(u, t)
  {
    assert ([u] + t)[0] == u && ([u] + t)[1..] == t;
  }

  lemma {:induction false} CharsGo(t: Units, u: Unit, rest: Units)
    requires ReadChar(t) == Parsed(u, rest)
    ensures ReadChars(t) == match ReadChars(rest)
                            case Malformed => Malformed
                            case Parsed(units, after) => Parsed([u] + units, after)
  {
  }

  lemma {:induction false} BodyReads(s: Units, r: Units)
    ensures ReadChars(Body(s) + [QUOTE] + r) == Parsed(s, r)
    decreases |s|
  {
    if s == [] {
      EmptyBody(r);
      assert ([QUOTE] + r)[1..] == r;
    } else {
      var after := BodyAfter(s) + [QUOTE] + r;
      BodySplits(s, r);
      if StartsPair(s) {
        BodyReads(s[2..], r);
        PairReads(s[0], s[1], s[2..], after, r);
        assert s[..2] == [s[0], s[1]] && [s[0], s[1]] + s[2..] == s;
      } else {
        BodyReads(s[1..], r);
        EscapedReads(s[0], after);
        CharsGo(Escaped(s[0]) + after, s[0], after);
        assert [s[0]] + s[1..] == s;
      }
    }
  }

  lemma {:induction false} PairReads(high: Unit, low: Unit, units: Units, after: Units, r: Units)
    requires IsHigh(high) && IsLow(low) && ReadChars(after) == Parsed(units, r)
    ensures ReadChars([high, low] + after) == Parsed([high, low] + units, r)
  {
    PlainReads(low, after);
    CharsGo([low] + after, low, after);
    PlainReads(high, [low] + after);
    assert [high, low] + after == [high] + ([low] + after);
    CharsGo([high, low] + after, high, [low] + after);
    assert [high] + ([low] + units) == [high, low] + units;
  }

  /** A quoted string reads back as the string, whatever follows it. */
  lemma {:induction false} QuotedReads(s: Units, r: Units)
    ensures ReadString(Quoted(s) + r) == Parsed(s, r)
  {
    var t := Quoted(s) + r;
    assert t[1..] == Body(s) + [QUOTE] + r;
    BodyReads(s, r);
  }

  // ---- Values ----

  const NULL_TEXT: Units := [110, 117, 108, 108]
  const TRUE_TEXT: Units := [116, 114, 117, 101]
  const FALSE_TEXT: Units := [102, 97, 108, 115, 101]

  /** How far a text goes on in characters of a number. */
  function NumberLength(t: Units): (n: nat)
    ensures n <= |t| && forall i :: 0 <= i < n ==> NumberUnit(t[i])
    ensures n < |t| ==> !NumberUnit(t[n])
  {
    if t == [] || !NumberUnit(t[0]) then 0
    else
      var n := 1 + NumberLength(t[1..]);
      assert forall i :: 0 < i < n ==> t[i] == t[1..][i - 1];
      n
  }

  function ReadValue(t: Units): (p: Parsed<Json>)
    ensures p.Parsed? ==> |p.rest| < |t|
    decreases |t|, 0
  {
    if t == [] then Malformed
    else if t[0] == 34 then
      match ReadString(t) case Malformed => Malformed case Parsed(units, rest) => Parsed(String(units), rest)
    else if t[0] == 91 then
      if |t| > 1 && t[1] == 93 then Parsed(Array([]), t[2..])
      else match ReadItems(t[1..]) case Malformed => Malformed case Parsed(items, rest) => Parsed(Array(items), rest)
    else if t[0] == 123 then
      if |t| > 1 && t[1] == 125 then Parsed(Object([]), t[2..])
      else
        match ReadMembers(t[1..])
        case Malformed => Malformed
        case Parsed(entries, rest) => Parsed(Object(entries), rest)
    else if NULL_TEXT <= t then Parsed(Null, t[4..])
    else if TRUE_TEXT <= t then Parsed(Bool(true), t[4..])
    else if FALSE_TEXT <= t then Parsed(Bool(false), t[5..])
    else
      var n := NumberLength(t);
      if n > 0 && (t[0] == 45 || 48 <= t[0] <= 57) then Parsed(Number(t[..n]), t[n..]) else Malformed
  }

  /** Items with commas between them, up to the closing bracket. */
  function ReadItems(t: Units): (p: Parsed<seq<Json>>)
    ensures p.Parsed? ==> |p.rest| < |t|
    decreases |t|, 1
  {
    match ReadValue(t)
    case Malformed => Malformed
    case Parsed(v, rest) =>
      if rest == [] then Malformed
      else if rest[0] == 93 then Parsed([v], rest[1..])
      else if rest[0] != 44 then Malformed
      else match ReadItems(rest[1..]) case Malformed => Malformed case Parsed(vs, after) => Parsed([v] + vs, after)
  }

  /** A name, a colon, a value. */
  function ReadMember(t: Units): (p: Parsed<Entry>)
    ensures p.Parsed? ==> |p.rest| < |t|
    decreases |t|, 1
  {
    match ReadString(t)
    case Malformed => Malformed
    case Parsed(key, rest) =>
      if rest == [] || rest[0] != 58 then Malformed
      else match ReadValue(rest[1..]) case Malformed => Malformed case Parsed(v, after) => Parsed(Entry(key, v), after)
  }

  /** Members with commas between them, up to the closing brace. */
  function ReadMembers(t: Units): (p: Parsed<seq<Entry>>)
    ensures p.Parsed? ==> |p.rest| < |t|
    decreases |t|, 2
  {
    match ReadMember(t)
    case Malformed => Malformed
    case Parsed(e, rest) =>
      if rest == [] then Malformed
      else if rest[0] == 125 then Parsed([e], rest[1..])
      else if rest[0] != 44 then Malformed
      else match ReadMembers(rest[1..]) case Malformed => Malformed case Parsed(es, after) => Parsed([e] + es, after)
  }

  // ---- Stable texts read back ----

  lemma {:induction false} NumberReads(t: Units, r: Units)
    requires t != [] && (t[0] == 45 || 48 <= t[0] <= 57) && forall i :: 0 <= i < |t| ==> NumberUnit(t[i])
    requires Ends(r)
    ensures ReadValue(t + r) == Parsed(Number(t), r)
  {
    var x := t + r;
    assert x[0] == t[0];
    NumberLengthIs(t, r);
    assert x[..|t|] == t && x[|t|..] == r;
  }

  lemma {:induction false} NumberLengthIs(t: Units, r: Units)
    requires (forall i :: 0 <= i < |t| ==> NumberUnit(t[i])) && Ends(r)
    ensures NumberLength(t + r) == |t|
  {
    var x, n := t + r, NumberLength(t + r);
    assert (forall i :: 0 <= i < |t| ==> x[i] == t[i]) && (r != [] ==> x[|t|] == r[0]);
  }

  lemma {:induction false} LiteralReads(v: Json, r: Units)
    requires v.Null? || v.Bool?
    ensures ReadValue(Stable(v) + r) == Parsed(v, r)
  {
    var x := Stable(v) + r;
    assert x[..|Stable(v)|] == Stable(v) && x[|Stable(v)|..] == r;
    assert x[0] == Stable(v)[0];
  }

  lemma {:induction false} StringReads(s: Units, r: Units)
    ensures ReadValue(Quoted(s) + r) == Parsed(String(s), r)
  {
    QuotedReads(s, r);
    assert (Quoted(s) + r)[0] == 34;
  }

  lemma {:induction false} ItemsGo(t: Units, v: Json, rest: Units)
    requires ReadValue(t) == Parsed(v, rest) && rest != []
    ensures rest[0] == 93 ==> ReadItems(t) == Parsed([v], rest[1..])
    ensures rest[0] == 44 ==>
              ReadItems(t) == match ReadItems(rest[1..])
                              case Malformed => Malformed
                              case Parsed(vs, after) => Parsed([v] + vs, after)
  {
  }

  lemma {:induction false} ItemsRead(vs: seq<Json>, r: Units, n: nat) returns (ws: seq<Json>)
    requires vs != [] && AllLegal(vs) && AllShallow(vs, n)
    ensures ReadItems(CommaJoined(Texts(vs)) + [CLOSE_ARRAY] + r) == Parsed(ws, r)
    ensures AllSame(vs, ws) && AllLegal(ws)
    decreases n, 1, |vs|
  {
    var texts := Texts(vs);
    var rest := RestAfterFirst(texts) + [CLOSE_ARRAY] + r;
    TailFacts(vs);
    JoinedSplits(texts, CLOSE_ARRAY, r);
    SplitsAfterFirst(texts, CLOSE_ARRAY, r);
    var w := StableReads(vs[0], rest, n);
    ItemsGo(Stable(vs[0]) + rest, w, rest);
    if |vs| == 1 {
      ws := [w];
    } else {
      var more := ItemsRead(vs[1..], r, n);
      ws := [w] + more;
      AllSameCons(vs, ws);
    }
  }

  lemma {:induction false} ArrayReads(items: seq<Json>, r: Units, n: nat) returns (w: Json)
    requires Legal(Array(items)) && Depth(Array(items)) <= n
    ensures ReadValue(Stable(Array(items)) + r) == Parsed(w, r) && Same(Array(items), w) && Legal(w)
    decreases n, 0, 0
  {
    StableArray(items);
    var inner := CommaJoined(Texts(items)) + [CLOSE_ARRAY] + r;
    var t := Stable(Array(items)) + r;
    assert t == [OPEN_ARRAY] + inner && t[1..] == inner;
    if items == [] {
      assert inner == [CLOSE_ARRAY] + r && t[2..] == r;
      w := Array([]);
    } else {
      forall i | 0 <= i < |items| ensures Depth(items[i]) <= n - 1 { DepthOfItem(items, i); }
      FirstInside(items, r);
      var ws := ItemsRead(items, r, n - 1);
      w := Array(ws);
    }
  }

  /** A first item does not look like the end of the array. */
  lemma {:induction false} FirstInside(items: seq<Json>, r: Units)
    requires items != []
    ensures (CommaJoined(Texts(items)) + [CLOSE_ARRAY] + r)[0] != CLOSE_ARRAY
  {
    StartsWith(items[0]);
    FirstOfJoined(Texts(items), CLOSE_ARRAY, r);
  }

  lemma {:induction false} MemberReads(m: Member, v: Json, w: Json, rest: Units)
    requires m.text == Stable(v) && ReadValue(Stable(v) + rest) == Parsed(w, rest)
    ensures ReadMember(Quoted(m.key) + [COLON] + m.text + rest) == Parsed(Entry(m.key, w), rest)
  {
    MemberSplits(m, rest);
    var after := [COLON] + (m.text + rest);
    QuotedReads(m.key, after);
    assert after[1..] == Stable(v) + rest;
  }

  lemma {:induction false} MembersGo(t: Units, e: Entry, rest: Units)
    requires ReadMember(t) == Parsed(e, rest) && rest != []
    ensures rest[0] == 125 ==> ReadMembers(t) == Parsed([e], rest[1..])
    ensures rest[0] == 44 ==>
              ReadMembers(t) == match ReadMembers(rest[1..])
                                case Malformed => Malformed
                                case Parsed(es, after) => Parsed([e] + es, after)
  {
  }

  /** Entries that have the members' keys, in their order, and the same values. */
  predicate ReadFrom(es: seq<Entry>, ms: seq<Member>, vs: seq<Json>) {
    && |es| == |ms| == |vs|
    && forall i :: 0 <= i < |es| ==> es[i].key == ms[i].key && Same(vs[i], es[i].value) && Legal(es[i].value)
  }

  lemma {:induction false} ReadFromCons(es: seq<Entry>, ms: seq<Member>, vs: seq<Json>)
    requires es != [] && ms != [] && vs != [] && ReadFrom(es[1..], ms[1..], vs[1..])
    requires es[0].key == ms[0].key && Same(vs[0], es[0].value) && Legal(es[0].value)
    ensures ReadFrom(es, ms, vs)
  {
    forall i | 0 <= i < |es| ensures es[i].key == ms[i].key && Same(vs[i], es[i].value) && Legal(es[i].value) {
      if i > 0 { assert es[i] == es[1..][i - 1] && ms[i] == ms[1..][i - 1] && vs[i] == vs[1..][i - 1]; }
    }
  }

  lemma {:induction false} MembersRead(entries: seq<Entry>, ms: seq<Member>, vs: seq<Json>, r: Units, n: nat)
      returns (es: seq<Entry>)
    requires Legal(Object(entries)) && Depth(Object(entries)) <= n + 1 && ms != [] && HoldAll(entries, ms, vs)
    ensures ReadMembers(CommaJoined(MemberTexts(ms)) + [CLOSE_OBJECT] + r) == Parsed(es, r)
    ensures ReadFrom(es, ms, vs)
    decreases n, 1, |ms|
  {
    var texts := MemberTexts(ms);
    var rest := RestAfterFirst(texts) + [CLOSE_OBJECT] + r;
    HoldTail(entries, ms, vs);
    MemberTail(ms);
    HeldIsShallow(entries, ms[0], vs[0], n);
    JoinedSplits(texts, CLOSE_OBJECT, r);
    SplitsAfterFirst(texts, CLOSE_OBJECT, r);
    var w := StableReads(vs[0], rest, n);
    MemberReads(ms[0], vs[0], w, rest);
    MembersGo(texts[0] + rest, Entry(ms[0].key, w), rest);
    if |ms| == 1 {
      es := [Entry(ms[0].key, w)];
    } else {
      var more := MembersRead(entries, ms[1..], vs[1..], r, n);
      es := [Entry(ms[0].key, w)] + more;
      assert es[1..] == more;
      ReadFromCons(es, ms, vs);
    }
  }

  /** What is read from an object's sorted members is the same object. */
  lemma {:induction false} ReadIsSame(entries: seq<Entry>, ms: seq<Member>, vs: seq<Json>, es: seq<Entry>)
    requires MembersOf(entries, ms, vs) && ReadFrom(es, ms, vs)
    ensures Legal(Object(es)) && Same(Object(entries), Object(es))
  {
    LegalMembers(entries);
    SortedAscending(Members(entries));
    ReadIsLegal(es, ms, vs);
    var ks := Members(es);
    var ws := seq(|es|, i requires 0 <= i < |es| => es[i].value);
    assert Ascending(ks);
    SortedStays(ks);
    assert HoldAll(es, ks, ws) by {
      forall i | 0 <= i < |ws| ensures Holds(es, ks[i], ws[i]) { assert es[i] == Entry(ks[i].key, ws[i]); }
    }
    SameFromMembers(entries, es, ms, vs, ks, ws);
  }

  lemma {:induction false} ReadIsLegal(es: seq<Entry>, ms: seq<Member>, vs: seq<Json>)
    requires ReadFrom(es, ms, vs) && Ascending(ms)
    ensures Legal(Object(es))
  {
    forall i, j | 0 <= i < j < |es| ensures es[i].key != es[j].key {
      assert Less(ms[i].key, ms[j].key);
      LessIrreflexive(ms[i].key);
    }
  }

  lemma {:induction false} SortedStays(ks: seq<Member>)
    requires Ascending(ks)
    ensures Sorted(ks) == ks
  {
    forall i, j | 0 <= i < j < |ks| ensures ks[i].key != ks[j].key {
      assert Less(ks[i].key, ks[j].key);
      LessIrreflexive(ks[i].key);
    }
    SortedAscending(ks);
    forall m | m in Sorted(ks) ensures m in ks { InMultiset(Sorted(ks), ks, m); }
    forall m | m in ks ensures m in Sorted(ks) { InMultiset(ks, Sorted(ks), m); }
    AscendingUnique(Sorted(ks), ks);
  }

  lemma {:induction false} ObjectReads(entries: seq<Entry>, r: Units, n: nat) returns (w: Json)
    requires Legal(Object(entries)) && Depth(Object(entries)) <= n
    ensures ReadValue(Stable(Object(entries)) + r) == Parsed(w, r) && Same(Object(entries), w) && Legal(w)
    decreases n, 0, 0
  {
    var ms := Sorted(Members(entries));
    var inner := ObjectText(entries, ms, r);
    DepthPositive(entries);
    var vs := MemberValues(entries);
    if ms == [] {
      assert entries == [];
      EmptyObjectReads(inner, r);
      w := Object([]);
    } else {
      var es := MembersRead(entries, ms, vs, r, n - 1);
      assert Legal(Object(es)) && Same(Object(entries), Object(es)) by { ReadIsSame(entries, ms, vs, es); }
      assert inner[0] != CLOSE_OBJECT by { FirstIsQuoted(ms, r); }
      ObjectGo(inner, es, r);
      w := Object(es);
    }
  }

  lemma {:induction false} FirstIsQuoted(ms: seq<Member>, r: Units)
    requires ms != []
    ensures (CommaJoined(MemberTexts(ms)) + [CLOSE_OBJECT] + r)[0] == QUOTE
  {
    MemberTail(ms);
    FirstOfJoined(MemberTexts(ms), CLOSE_OBJECT, r);
  }

  lemma {:induction false} EmptyObjectReads(inner: Units, r: Units)
    requires inner == CommaJoined(MemberTexts([])) + [CLOSE_OBJECT] + r
    ensures ReadValue([OPEN_OBJECT] + inner) == Parsed(Object([]), r)
  {
    var t := [OPEN_OBJECT] + inner;
    assert inner == [CLOSE_OBJECT] + r && t[1] == CLOSE_OBJECT && t[2..] == r;
  }

  lemma {:induction false} ObjectGo(inner: Units, es: seq<Entry>, r: Units)
    requires inner != [] && inner[0] != CLOSE_OBJECT && ReadMembers(inner) == Parsed(es, r)
    ensures ReadValue([OPEN_OBJECT] + inner) == Parsed(Object(es), r)
  {
    var t := [OPEN_OBJECT] + inner;
    assert t[0] == OPEN_OBJECT && t[1] == inner[0] && t[1..] == inner;
  }

  /** A stable text, and nothing of what follows it, reads back as the same value. */
  lemma {:induction false} StableReads(v: Json, r: Units, n: nat) returns (w: Json)
    requires Legal(v) && Depth(v) <= n && Ends(r)
    ensures ReadValue(Stable(v) + r) == Parsed(w, r) && Same(v, w) && Legal(w)
    decreases n, 0, 1
  {
    w := v;
    match v
    case Null => LiteralReads(v, r);
    case Bool(_) => LiteralReads(v, r);
    case Number(decimal) => NumberReads(decimal, r);
    case NegativeZero =>
      NumberReads([48], r);
      w := Number([48]);
    case String(units) => StringReads(units, r);
    case Array(items) => w := ArrayReads(items, r, n);
    case Object(entries) => w := ObjectReads(entries, r, n);
  }

  /** The stable text of a value is a JSON text of that value: reading it gives the same value back. */
  lemma {:induction false} StableReadsBack(v: Json) returns (w: Json)
    requires Legal(v)
    ensures ReadValue(Stable(v)) == Parsed(w, []) && Same(v, w)
  {
    w := StableReads(v, [], Depth(v));
    assert Stable(v) + [] == Stable(v);
  }
}
