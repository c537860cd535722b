/** The canonical text digests are taken over (src/core/hash.ts:6-23), on UTF-16 code units. */
module StableJson {
  import opened Utf16

  const QUOTE: Unit := 34
  const COMMA: Unit := 44
  const COLON: Unit := 58
  const BACKSLASH: Unit := 92
  const OPEN_ARRAY: Unit := 91
  const CLOSE_ARRAY: Unit := 93
  const OPEN_OBJECT: Unit := 123
  const CLOSE_OBJECT: Unit := 125

  predicate NumberUnit(u: Unit) {
    48 <= u <= 57 || u == 43 || u == 45 || u == 46 || u == 101
  }

  /** The shortest decimal of a finite number, as Number::toString writes it. */
  type Decimal = t: Units | t != [] && (t[0] == 45 || 48 <= t[0] <= 57) && forall i :: 0 <= i < |t| ==> NumberUnit(t[i])
    witness [48]

  /** A JSON value; an object's entries are in insertion order. */
  datatype Json =
    | Null
    | Bool(value: bool)
    | Number(decimal: Decimal)
    | NegativeZero
    | String(units: Units)
    | Array(items: seq<Json>)
    | Object(entries: seq<Entry>)

  datatype Entry = Entry(key: Units, value: Json)

  /** An object's keys are distinct, all the way down. */
  predicate Legal(v: Json) {
    match v
    case Array(items) => forall i :: 0 <= i < |items| ==> Legal(items[i])
    case Object(entries) =>
      && (forall i, j :: 0 <= i < j < |entries| ==> entries[i].key != entries[j].key)
      && (forall i :: 0 <= i < |entries| ==> Legal(entries[i].value))
    case _ => true
  }

  /** The same value: key insertion order and the sign of zero do not matter. */
  predicate Same(v: Json, w: Json) {
    match v
    case Null => w.Null?
    case Bool(b) => w == v
    case Number(decimal) => w == v || (decimal == [48] && w.NegativeZero?)
    case NegativeZero => w.NegativeZero? || w == Number([48])
    case String(_) => w == v
    case Array(items) =>
      w.Array? && |w.items| == |items| && forall i :: 0 <= i < |items| ==> Same(items[i], w.items[i])
    case Object(entries) =>
      && w.Object? && SameKeys(entries, w.entries)
      && forall i, j :: 0 <= i < |entries| && 0 <= j < |w.entries| && entries[i].key == w.entries[j].key
                        ==> Same(entries[i].value, w.entries[j].value)
  }

  predicate SameKeys(a: seq<Entry>, b: seq<Entry>) {
    HasKeysOf(b, a) && HasKeysOf(a, b)
  }

  predicate HasKeysOf(b: seq<Entry>, a: seq<Entry>) {
    forall i :: 0 <= i < |a| ==> exists j :: 0 <= j < |b| && b[j].key == a[i].key
  }

  // ---- Strings ----

  function Hex(d: int): Unit
    requires 0 <= d < 16
  {
    if d < 10 then 48 + d else 87 + d
  }

  function Hex4(u: Unit): (r: Units)
    ensures |r| == 4
  {
    [Hex(u / 16 / 16 / 16), Hex(u / 16 / 16 % 16), Hex(u / 16 % 16), Hex(u % 16)]
  }

  lemma {:induction false} Hex4Injective(u: Unit, w: Unit)
    requires Hex4(u) == Hex4(w)
    ensures u == w
  {
    HexInjective(u / 16 / 16 / 16, w / 16 / 16 / 16, Hex4(u)[0], Hex4(w)[0]);
    HexInjective(u / 16 / 16 % 16, w / 16 / 16 % 16, Hex4(u)[1], Hex4(w)[1]);
    HexInjective(u / 16 % 16, w / 16 % 16, Hex4(u)[2], Hex4(w)[2]);
    HexInjective(u % 16, w % 16, Hex4(u)[3], Hex4(w)[3]);
  }

  lemma {:induction false} HexInjective(d: int, e: int, x: Unit, y: Unit)
    requires 0 <= d < 16 && 0 <= e < 16 && x == Hex(d) && y == Hex(e) && x == y
    ensures d == e
  {
  }

  predicate IsHigh(u: Unit) { 0xD800 <= u < 0xDC00 }

  predicate IsLow(u: Unit) { 0xDC00 <= u < 0xE000 }

  /** One code unit inside quotes; a lone surrogate is escaped. */
  function Escaped(u: Unit): (r: Units)
    ensures r != [] && r[0] != QUOTE && !IsHigh(r[0])
  {
    if u == QUOTE then [BACKSLASH, QUOTE]
    else if u == BACKSLASH then [BACKSLASH, BACKSLASH]
    else if u == 8 then [BACKSLASH, 98]
    else if u == 9 then [BACKSLASH, 116]
    else if u == 10 then [BACKSLASH, 110]
    else if u == 12 then [BACKSLASH, 102]
    else if u == 13 then [BACKSLASH, 114]
    else if u < 32 || IsHigh(u) || IsLow(u) then [BACKSLASH, 117] + Hex4(u)
    else [u]
  }

  predicate StartsPair(s: Units) {
    |s| > 1 && IsHigh(s[0]) && IsLow(s[1])
  }

  function Body(s: Units): Units {
    if s == [] then []
    else if StartsPair(s) then s[..2] + Body(s[2..])
    else Escaped(s[0]) + Body(s[1..])
  }

  /** JSON.stringify of a string. */
  function Quoted(s: Units): (r: Units)
    ensures r != [] && r[0] == QUOTE
  {
    [QUOTE] + Body(s) + [QUOTE]
  }

  lemma {:induction false} EscapedUnambiguous(u: Unit, w: Unit, r: Units, s: Units)
    requires Escaped(u) + r == Escaped(w) + s
    ensures u == w && r == s
  {
    var a, b := Escaped(u) + r, Escaped(w) + s;
    assert a[0] == Escaped(u)[0] && b[0] == Escaped(w)[0];
    if |Escaped(u)| > 1 && |Escaped(w)| > 1 {
      assert a[1] == Escaped(u)[1] && b[1] == Escaped(w)[1];
    }
    if |Escaped(u)| == 6 && |Escaped(w)| == 6 {
      assert a[2..6] == Hex4(u) && b[2..6] == Hex4(w);
      Hex4Injective(u, w);
    }
    assert u == w;
    assert a[|Escaped(u)|..] == r && b[|Escaped(w)|..] == s;
  }

  /** What follows the first character of a non-empty body. */
  function BodyAfter(a: Units): Units
    requires a != []
  {
    if StartsPair(a) then Body(a[2..]) else Body(a[1..])
  }

  function FirstText(a: Units): (r: Units)
    requires a != []
    ensures r != [] && r[0] != QUOTE && (IsHigh(r[0]) <==> StartsPair(a))
  {
    if StartsPair(a) then a[..2] else Escaped(a[0])
  }

  lemma {:induction false} BodySplits(a: Units, r: Units)
    requires a != []
    ensures Body(a) + [QUOTE] + r == FirstText(a) + (BodyAfter(a) + [QUOTE] + r)
    ensures (Body(a) + [QUOTE] + r)[0] == FirstText(a)[0]
  {
    assert Body(a) == FirstText(a) + BodyAfter(a);
  }

  lemma {:induction false} EmptyBody(r: Units)
    ensures Body([]) + [QUOTE] + r == [QUOTE] + r
  {
  }

  /** Equal texts that both start with a pair, or both with one escaped unit, start with the same one. */
  lemma {:induction false} FirstUnambiguous(a: Units, b: Units, r: Units, s: Units)
    requires a != [] && b != [] && StartsPair(a) == StartsPair(b)
    requires FirstText(a) + r == FirstText(b) + s
    ensures r == s && |FirstText(a)| == |FirstText(b)|
    ensures if StartsPair(a) then a[..2] == b[..2] else a[0] == b[0]
  {
    if StartsPair(a) {
      assert (a[..2] + r)[..2] == a[..2] && (b[..2] + s)[..2] == b[..2];
      assert (a[..2] + r)[2..] == r && (b[..2] + s)[2..] == s;
    } else {
      EscapedUnambiguous(a[0], b[0], r, s);
    }
  }

  /** The closing quote is no text of a character. */
  lemma {:induction false} NoBody(a: Units, b: Units, r: Units, s: Units)
    requires Body(a) + [QUOTE] + r == Body(b) + [QUOTE] + s && (a == [] || b == [])
    ensures a == b && r == s
  {
    EmptyBody(r);
    EmptyBody(s);
    if a != [] { BodySplits(a, r); }
    if b != [] { BodySplits(b, s); }
    assert ([QUOTE] + r)[1..] == r && ([QUOTE] + s)[1..] == s;
  }

  lemma {:induction false} BodiesStart(a: Units, b: Units, r: Units, s: Units)
    requires Body(a) + [QUOTE] + r == Body(b) + [QUOTE] + s && a != [] && b != []
    ensures BodyAfter(a) + [QUOTE] + r == BodyAfter(b) + [QUOTE] + s
    ensures StartsPair(a) == StartsPair(b) && if StartsPair(a) then a[..2] == b[..2] else a[0] == b[0]
  {
    BodySplits(a, r);
    BodySplits(b, s);
    FirstUnambiguous(a, b, BodyAfter(a) + [QUOTE] + r, BodyAfter(b) + [QUOTE] + s);
  }

  lemma {:induction false} BodyUnambiguous(a: Units, b: Units, r: Units, s: Units)
    requires Body(a) + [QUOTE] + r == Body(b) + [QUOTE] + s
    ensures a == b && r == s
    decreases |a| + |b|
  {
    if a == [] || b == [] {
      NoBody(a, b, r, s);
    } else {
      BodiesStart(a, b, r, s);
      var n := if StartsPair(a) then 2 else 1;
      assert a[n..] == b[n..] && r == s by { BodyUnambiguous(a[n..], b[n..], r, s); }
      assert a[..n] == b[..n];
      assert a == a[..n] + a[n..] && b == b[..n] + b[n..];
    }
  }

  /** A quoted string ends where it ends: nothing that follows can be taken for part of it. */
  lemma {:induction false} QuotedUnambiguous(a: Units, b: Units, r: Units, s: Units)
    requires Quoted(a) + r == Quoted(b) + s
    ensures a == b && r == s
  {
    var x, y := Quoted(a) + r, Quoted(b) + s;
    assert x[1..] == Body(a) + [QUOTE] + r && y[1..] == Body(b) + [QUOTE] + s;
    BodyUnambiguous(a, b, r, s);
  }

  // ---- Order of keys ----

  /** `<` on strings: by code units. */
  predicate Less(a: Units, b: Units) {
    if b == [] then false
    else if a == [] then true
    else a[0] < b[0] || (a[0] == b[0] && Less(a[1..], b[1..]))
  }

  lemma {:induction false} LessTotal(a: Units, b: Units)
    ensures a == b || Less(a, b) || Less(b, a)
    ensures !(Less(a, b) && Less(b, a)) && !Less(a, a)
  {
    if a != [] && b != [] && a[0] == b[0] {
      LessTotal(a[1..], b[1..]);
      assert a == [a[0]] + a[1..] && b == [b[0]] + b[1..];
    }
    if a != [] { LessIrreflexive(a); }
  }

  lemma {:induction false} LessIrreflexive(a: Units)
    ensures !Less(a, a)
  {
    if a != [] { LessIrreflexive(a[1..]); }
  }

  lemma {:induction false} LessTransitive(a: Units, b: Units, c: Units)
    requires Less(a, b) && Less(b, c)
    ensures Less(a, c)
  {
    if a != [] && a[0] == b[0] && b[0] == c[0] { LessTransitive(a[1..], b[1..], c[1..]); }
  }

  /** One member of an object: its key, and its value as text. */
  datatype Member = Member(key: Units, text: Units)

  predicate Ascending(members: seq<Member>) {
    forall i, j :: 0 <= i < j < |members| ==> Less(members[i].key, members[j].key)
  }

  predicate DistinctKeys(members: seq<Member>) {
    forall i, j :: 0 <= i < j < |members| ==> members[i].key != members[j].key
  }

  function Insert(m: Member, sorted: seq<Member>): (r: seq<Member>)
    ensures |r| == |sorted| + 1
    ensures multiset(r) == multiset(sorted) + multiset{m}
  {
    if sorted == [] || Less(m.key, sorted[0].key) then [m] + sorted
    else
      assert sorted == [sorted[0]] + sorted[1..];
      [sorted[0]] + Insert(m, sorted[1..])
  }

  /** Object.entries(value).sort(...) */
  function Sorted(members: seq<Member>): (r: seq<Member>)
    ensures |r| == |members|
    ensures multiset(r) == multiset(members)
  {
    if members == [] then []
    else
      assert members == [members[0]] + members[1..];
      Insert(members[0], Sorted(members[1..]))
  }

  lemma {:induction false} InMultiset(a: seq<Member>, b: seq<Member>, m: Member)
    requires multiset(a) == multiset(b) && m in a
    ensures m in b
  {
    assert m in multiset(a);
  }

  lemma {:induction false} AscendingTail(s: seq<Member>)
    requires Ascending(s) && s != []
    ensures Ascending(s[1..]) && forall m :: m in s[1..] ==> Less(s[0].key, m.key)
  {
  }

  lemma {:induction false} InsertAscending(m: Member, sorted: seq<Member>)
    requires Ascending(sorted) && forall o :: o in sorted ==> o.key != m.key
    ensures Ascending(Insert(m, sorted))
  {
    var r := Insert(m, sorted);
    if sorted != [] {
      LessTotal(m.key, sorted[0].key);
      AscendingTail(sorted);
      if Less(m.key, sorted[0].key) {
        forall i | 0 <= i < |sorted| ensures Less(m.key, sorted[i].key) {
          if i > 0 { LessTransitive(m.key, sorted[0].key, sorted[i].key); }
        }
      } else {
        assert sorted[0] in sorted;
        var rest := Insert(m, sorted[1..]);
        InsertAscending(m, sorted[1..]);
        forall i | 0 <= i < |rest| ensures Less(sorted[0].key, rest[i].key) {
          assert rest[i] in multiset(rest);
        }
      }
    }
  }

  /** Keys come out in strictly ascending code-unit order, as section 3.2.3 of RFC 8785 asks. */
  lemma {:induction false} SortedAscending(members: seq<Member>)
    requires DistinctKeys(members)
    ensures Ascending(Sorted(members))
  {
    if members != [] {
      var rest := Sorted(members[1..]);
      SortedAscending(members[1..]);
      forall o | o in rest ensures o.key != members[0].key {
        InMultiset(rest, members[1..], o);
      }
      InsertAscending(members[0], rest);
    }
  }

  /** Only one ascending sequence has given members. */
  lemma {:induction false} AscendingUnique(x: seq<Member>, y: seq<Member>)
    requires Ascending(x) && Ascending(y)
    requires (forall m :: m in x ==> m in y) && (forall m :: m in y ==> m in x)
    ensures x == y
  {
    if y != [] { assert y[0] in x; }
    if x != [] {
      assert x[0] in y;
      AscendingTail(x);
      AscendingTail(y);
      LessTotal(x[0].key, y[0].key);
      HeadOrTail(x, y[0]);
      HeadOrTail(y, x[0]);
      assert x[0] == y[0];
      forall m | m in x[1..] ensures m in y[1..] { HeadOrTail(y, m); LessIrreflexive(m.key); }
      forall m | m in y[1..] ensures m in x[1..] { HeadOrTail(x, m); LessIrreflexive(m.key); }
      AscendingUnique(x[1..], y[1..]);
    }
  }

  lemma {:induction false} HeadOrTail(s: seq<Member>, m: Member)
    requires m in s
    ensures s != [] && (m == s[0] || m in s[1..])
  {
    assert s == [s[0]] + s[1..];
  }

  // ---- The stable form ----

  function CommaJoined(texts: seq<Units>): Units {
    if texts == [] then []
    else if |texts| == 1 then texts[0]
    else texts[0] + [COMMA] + CommaJoined(texts[1..])
  }

  function MemberTexts(members: seq<Member>): (r: seq<Units>)
    ensures |r| == |members|
  {
    seq(|members|, i requires 0 <= i < |members| => Quoted(members[i].key) + [COLON] + members[i].text)
  }

  /** stableStringify */
  function Stable(v: Json): Units
    decreases v
  {
    match v
    case Null => [110, 117, 108, 108]
    case Bool(b) => if b then [116, 114, 117, 101] else [102, 97, 108, 115, 101]
    case Number(decimal) => decimal
    case NegativeZero => [48]
    case String(units) => Quoted(units)
    case Array(items) =>
      [OPEN_ARRAY] + CommaJoined(seq(|items|, i requires 0 <= i < |items| => Stable(items[i]))) + [CLOSE_ARRAY]
    case Object(entries) =>
      var members := seq(|entries|, i requires 0 <= i < |entries| => Member(entries[i].key, Stable(entries[i].value)));
      [OPEN_OBJECT] + CommaJoined(MemberTexts(Sorted(members))) + [CLOSE_OBJECT]
  }

  function Texts(items: seq<Json>): (r: seq<Units>)
    ensures |r| == |items| && forall i :: 0 <= i < |r| ==> r[i] == Stable(items[i])
  {
    seq(|items|, i requires 0 <= i < |items| => Stable(items[i]))
  }

  function Members(entries: seq<Entry>): (r: seq<Member>)
    ensures |r| == |entries| && forall i :: 0 <= i < |r| ==> r[i] == Member(entries[i].key, Stable(entries[i].value))
  {
    seq(|entries|, i requires 0 <= i < |entries| => Member(entries[i].key, Stable(entries[i].value)))
  }

  lemma {:induction false} StableArray(items: seq<Json>)
    ensures Stable(Array(items)) == [OPEN_ARRAY] + CommaJoined(Texts(items)) + [CLOSE_ARRAY]
  {
    assert Texts(items) == seq(|items|, i requires 0 <= i < |items| => Stable(items[i]));
  }

  lemma {:induction false} StableObject(entries: seq<Entry>)
    ensures Stable(Object(entries))
            == [OPEN_OBJECT] + CommaJoined(MemberTexts(Sorted(Members(entries)))) + [CLOSE_OBJECT]
  {
    assert Members(entries)
           == seq(|entries|, i requires 0 <= i < |entries| => Member(entries[i].key, Stable(entries[i].value)));
  }

  // ---- Equal values have equal texts ----

  lemma {:induction false} LegalMembers(entries: seq<Entry>)
    requires Legal(Object(entries))
    ensures DistinctKeys(Members(entries))
  {
  }

  predicate KeysCovered(a: seq<Member>, b: seq<Member>) {
    forall i :: 0 <= i < |a| ==> HasKey(b, a[i].key)
  }

  predicate HasKey(members: seq<Member>, key: Units) {
    exists j :: 0 <= j < |members| && members[j].key == key
  }

  predicate AgreeOnKeys(a: seq<Member>, b: seq<Member>) {
    forall i, j :: 0 <= i < |a| && 0 <= j < |b| && a[i].key == b[j].key ==> a[i] == b[j]
  }

  lemma {:induction false} CoveredMembers(a: seq<Member>, b: seq<Member>)
    requires KeysCovered(a, b) && AgreeOnKeys(a, b)
    ensures forall m :: m in a ==> m in b
  {
    forall m | m in a ensures m in b {
      var i :| 0 <= i < |a| && a[i] == m;
      assert HasKey(b, a[i].key);
      var j :| 0 <= j < |b| && b[j].key == a[i].key;
    }
  }

  lemma {:induction false} SameMembersSorted(a: seq<Member>, b: seq<Member>)
    requires DistinctKeys(a) && DistinctKeys(b)
    requires (forall m :: m in a ==> m in b) && (forall m :: m in b ==> m in a)
    ensures Sorted(a) == Sorted(b)
  {
    var x, y := Sorted(a), Sorted(b);
    SortedAscending(a);
    SortedAscending(b);
    forall m | m in x ensures m in y {
      InMultiset(x, a, m);
      InMultiset(b, y, m);
    }
    forall m | m in y ensures m in x {
      InMultiset(y, b, m);
      InMultiset(a, x, m);
    }
    AscendingUnique(x, y);
  }

  lemma {:induction false} KeysOfMembers(a: seq<Entry>, b: seq<Entry>, x: seq<Member>, y: seq<Member>)
    requires HasKeysOf(b, a) && |x| == |a| && |y| == |b|
    requires forall i :: 0 <= i < |a| ==> x[i].key == a[i].key
    requires forall j :: 0 <= j < |b| ==> y[j].key == b[j].key
    ensures KeysCovered(x, y)
  {
    forall i | 0 <= i < |x| ensures HasKey(y, x[i].key) {
      var j :| 0 <= j < |b| && b[j].key == a[i].key;
      assert y[j].key == x[i].key;
    }
  }

  lemma {:induction false} SameObjectText(a: seq<Entry>, b: seq<Entry>)
    requires Legal(Object(a)) && Legal(Object(b)) && SameKeys(a, b)
    requires AgreeOnKeys(Members(a), Members(b))
    ensures Sorted(Members(a)) == Sorted(Members(b))
  {
    LegalMembers(a);
    LegalMembers(b);
    KeysOfMembers(a, b, Members(a), Members(b));
    KeysOfMembers(b, a, Members(b), Members(a));
    CoveredMembers(Members(a), Members(b));
    CoveredMembers(Members(b), Members(a));
    SameMembersSorted(Members(a), Members(b));
  }

  lemma {:induction false} SameText(v: Json, w: Json)
    requires Legal(v) && Legal(w) && Same(v, w)
    ensures Stable(v) == Stable(w)
    decreases v
  {
    match v
    case Array(items) =>
      forall i | 0 <= i < |items| ensures Stable(items[i]) == Stable(w.items[i]) { SameText(items[i], w.items[i]); }
      assert Texts(items) == Texts(w.items);
      StableArray(items);
      StableArray(w.items);
    case Object(entries) =>
      forall i, j | 0 <= i < |entries| && 0 <= j < |w.entries| && entries[i].key == w.entries[j].key
        ensures Stable(entries[i].value) == Stable(w.entries[j].value)
      {
        SameText(entries[i].value, w.entries[j].value);
      }
      SameObjectText(entries, w.entries);
      StableObject(entries);
      StableObject(w.entries);
    case _ =>
  }

  // ---- Equal texts are of equal values ----

  function MaxOf(depths: seq<nat>): (r: nat)
    ensures forall i :: 0 <= i < |depths| ==> depths[i] <= r
  {
    if depths == [] then 0
    else
      var rest := MaxOf(depths[1..]);
      if depths[0] > rest then depths[0] else rest
  }

  function Depth(v: Json): nat
    decreases v
  {
    match v
    case Array(items) => 1 + MaxOf(seq(|items|, i requires 0 <= i < |items| => Depth(items[i])))
    case Object(entries) => 1 + MaxOf(seq(|entries|, i requires 0 <= i < |entries| => Depth(entries[i].value)))
    case _ => 0
  }

  lemma {:induction false} DepthOfItem(items: seq<Json>, i: nat)
    requires i < |items|
    ensures Depth(items[i]) < Depth(Array(items))
  {
    assert seq(|items|, k requires 0 <= k < |items| => Depth(items[k]))[i] == Depth(items[i]);
  }

  lemma {:induction false} DepthOfValue(entries: seq<Entry>, i: nat)
    requires i < |entries|
    ensures Depth(entries[i].value) < Depth(Object(entries))
  {
    assert seq(|entries|, k requires 0 <= k < |entries| => Depth(entries[k].value))[i] == Depth(entries[i].value);
  }

  /** What may follow a value: nothing, or what ends it inside a container. */
  predicate Ends(r: Units) {
    r == [] || r[0] == COMMA || r[0] == CLOSE_ARRAY || r[0] == CLOSE_OBJECT
  }

  function FirstUnit(v: Json): Unit {
    match v
    case Null => 110
    case Bool(b) => if b then 116 else 102
    case Number(decimal) => decimal[0]
    case NegativeZero => 48
    case String(_) => QUOTE
    case Array(_) => OPEN_ARRAY
    case Object(_) => OPEN_OBJECT
  }

  lemma {:induction false} StartsWith(v: Json)
    ensures Stable(v) != [] && Stable(v)[0] == FirstUnit(v)
  {
  }

  lemma {:induction false} NumberUnambiguous(t: Units, u: Units, r: Units, s: Units)
    requires (forall i :: 0 <= i < |t| ==> NumberUnit(t[i])) && (forall i :: 0 <= i < |u| ==> NumberUnit(u[i]))
    requires Ends(r) && Ends(s) && t + r == u + s
    ensures t == u && r == s
  {
    var x := t + r;
    assert (r != [] ==> x[|t|] == r[0]) && (s != [] ==> (u + s)[|u|] == s[0]);
    assert forall i :: 0 <= i < |t| ==> x[i] == t[i];
    assert forall i :: 0 <= i < |u| ==> x[i] == u[i];
    assert |t| == |u|;
    assert (t + r)[..|t|] == t && (u + s)[..|u|] == u;
    assert (t + r)[|t|..] == r && (u + s)[|u|..] == s;
  }

  lemma {:induction false} SkipSame(t: Units, r: Units, s: Units)
    requires t + r == t + s
    ensures r == s
  {
    assert (t + r)[|t|..] == r && (t + s)[|t|..] == s;
  }

  /** Splits the joined texts after the first. */
  function RestAfterFirst(texts: seq<Units>): Units
    requires texts != []
  {
    if |texts| == 1 then [] else [COMMA] + CommaJoined(texts[1..])
  }

  lemma {:induction false} JoinedSplits(texts: seq<Units>, close: Unit, r: Units)
    requires texts != []
    ensures CommaJoined(texts) + [close] + r == texts[0] + (RestAfterFirst(texts) + [close] + r)
  {
  }

  lemma {:induction false} SplitsAfterFirst(texts: seq<Units>, close: Unit, r: Units)
    requires texts != [] && (close == CLOSE_ARRAY || close == CLOSE_OBJECT)
    ensures Ends(RestAfterFirst(texts) + [close] + r)
    ensures (RestAfterFirst(texts) + [close] + r)[0] == if |texts| == 1 then close else COMMA
    ensures (RestAfterFirst(texts) + [close] + r)[1..]
            == if |texts| == 1 then r else CommaJoined(texts[1..]) + [close] + r
  {
  }

  /** Two joined lists that agree: their first texts and what follows; if that agrees too, so do the lists' tails. */
  lemma {:induction false} SplitBoth(a: seq<Units>, b: seq<Units>, close: Unit, r: Units, s: Units)
      returns (rest: Units, other: Units)
    requires a != [] && b != [] && (close == CLOSE_ARRAY || close == CLOSE_OBJECT)
    requires CommaJoined(a) + [close] + r == CommaJoined(b) + [close] + s
    ensures a[0] + rest == b[0] + other && Ends(rest) && Ends(other)
    ensures rest == other ==> CommaJoined(a[1..]) + [close] + r == CommaJoined(b[1..]) + [close] + s
  {
    rest, other := RestAfterFirst(a) + [close] + r, RestAfterFirst(b) + [close] + s;
    JoinedSplits(a, close, r);
    JoinedSplits(b, close, s);
    SplitsAfterFirst(a, close, r);
    SplitsAfterFirst(b, close, s);
    if rest == other && |a| == 1 { assert a[1..] == [] && b[1..] == []; }
  }

  lemma {:induction false} FirstOfJoined(texts: seq<Units>, close: Unit, r: Units)
    requires texts != [] ==> texts[0] != []
    ensures (CommaJoined(texts) + [close] + r)[0] == if texts == [] then close else texts[0][0]
    ensures texts == [] ==> CommaJoined(texts) + [close] + r == [close] + r
  {
    if texts != [] { JoinedSplits(texts, close, r); }
  }

  /** Only an empty list starts with what closes it. */
  lemma {:induction false} EmptyOnlyCloses(a: seq<Units>, b: seq<Units>, close: Unit, r: Units, s: Units)
    requires a == [] || b == []
    requires (a != [] ==> a[0] != [] && a[0][0] != close) && (b != [] ==> b[0] != [] && b[0][0] != close)
    requires CommaJoined(a) + [close] + r == CommaJoined(b) + [close] + s
    ensures a == b && r == s
  {
    FirstOfJoined(a, close, r);
    FirstOfJoined(b, close, s);
    assert ([close] + r)[1..] == r && ([close] + s)[1..] == s;
  }

  predicate AllSame(vs: seq<Json>, ws: seq<Json>) {
    |vs| == |ws| && forall i :: 0 <= i < |vs| ==> Same(vs[i], ws[i])
  }

  predicate AllLegal(vs: seq<Json>) {
    forall i :: 0 <= i < |vs| ==> Legal(vs[i])
  }

  predicate AllShallow(vs: seq<Json>, n: nat) {
    forall i :: 0 <= i < |vs| ==> Depth(vs[i]) <= n
  }

  lemma {:induction false} TailFacts(vs: seq<Json>)
    requires vs != []
    ensures Texts(vs)[0] == Stable(vs[0]) && Texts(vs)[1..] == Texts(vs[1..])
    ensures AllLegal(vs) ==> Legal(vs[0]) && AllLegal(vs[1..])
    ensures forall n: nat :: AllShallow(vs, n) ==> Depth(vs[0]) <= n && AllShallow(vs[1..], n)
  {
  }

  lemma {:induction false} AllSameCons(vs: seq<Json>, ws: seq<Json>)
    requires vs != [] && ws != [] && Same(vs[0], ws[0]) && AllSame(vs[1..], ws[1..])
    ensures AllSame(vs, ws)
  {
    forall i | 0 <= i < |vs| ensures Same(vs[i], ws[i]) {
      if i > 0 { assert vs[i] == vs[1..][i - 1] && ws[i] == ws[1..][i - 1]; }
    }
  }

  /** An array's items can be told apart. */
  lemma {:induction false} ItemsUnambiguous(vs: seq<Json>, ws: seq<Json>, r: Units, s: Units, n: nat)
    requires AllLegal(vs) && AllLegal(ws) && AllShallow(vs, n)
    requires CommaJoined(Texts(vs)) + [CLOSE_ARRAY] + r == CommaJoined(Texts(ws)) + [CLOSE_ARRAY] + s
    ensures r == s && AllSame(vs, ws)
    decreases n, 1, |vs|
  {
    if vs == [] || ws == [] {
      NoItems(vs, ws, r, s);
    } else {
      TailFacts(vs);
      TailFacts(ws);
      var rest, other := SplitBoth(Texts(vs), Texts(ws), CLOSE_ARRAY, r, s);
      StableUnambiguous(vs[0], ws[0], rest, other, n);
      ItemsUnambiguous(vs[1..], ws[1..], r, s, n);
      AllSameCons(vs, ws);
    }
  }

  lemma {:induction false} NoItems(vs: seq<Json>, ws: seq<Json>, r: Units, s: Units)
    requires vs == [] || ws == []
    requires CommaJoined(Texts(vs)) + [CLOSE_ARRAY] + r == CommaJoined(Texts(ws)) + [CLOSE_ARRAY] + s
    ensures vs == ws && r == s
  {
    if vs != [] { StartsWith(vs[0]); }
    if ws != [] { StartsWith(ws[0]); }
    EmptyOnlyCloses(Texts(vs), Texts(ws), CLOSE_ARRAY, r, s);
  }

  /** A member's value, by its key. */
  predicate Holds(entries: seq<Entry>, m: Member, v: Json) {
    exists i :: 0 <= i < |entries| && entries[i] == Entry(m.key, v) && m.text == Stable(v)
  }

  predicate HoldAll(entries: seq<Entry>, members: seq<Member>, vs: seq<Json>) {
    |members| == |vs| && forall i :: 0 <= i < |vs| ==> Holds(entries, members[i], vs[i])
  }

  lemma {:induction false} ValuesOf(entries: seq<Entry>, members: seq<Member>) returns (vs: seq<Json>)
    requires forall m :: m in members ==> m in Members(entries)
    ensures HoldAll(entries, members, vs)
  {
    if members == [] {
      vs := [];
    } else {
      assert members[0] in Members(entries);
      var i :| 0 <= i < |entries| && Members(entries)[i] == members[0];
      assert Holds(entries, members[0], entries[i].value);
      var rest := ValuesOf(entries, members[1..]);
      vs := [entries[i].value] + rest;
    }
  }

  lemma {:induction false} MemberSplits(m: Member, rest: Units)
    ensures Quoted(m.key) + [COLON] + m.text + rest == Quoted(m.key) + ([COLON] + (m.text + rest))
  {
    assert Quoted(m.key) + [COLON] + m.text + rest == Quoted(m.key) + [COLON] + (m.text + rest);
  }

  lemma {:induction false} MemberUnambiguous(m: Member, k: Member, r: Units, s: Units)
    requires Quoted(m.key) + [COLON] + m.text + r == Quoted(k.key) + [COLON] + k.text + s
    ensures m.key == k.key && m.text + r == k.text + s
  {
    MemberSplits(m, r);
    MemberSplits(k, s);
    QuotedUnambiguous(m.key, k.key, [COLON] + (m.text + r), [COLON] + (k.text + s));
    SkipSame([COLON], m.text + r, k.text + s);
  }

  lemma {:induction false} NoMembers(ms: seq<Member>, ks: seq<Member>, r: Units, s: Units)
    requires ms == [] || ks == []
    requires CommaJoined(MemberTexts(ms)) + [CLOSE_OBJECT] + r == CommaJoined(MemberTexts(ks)) + [CLOSE_OBJECT] + s
    ensures ms == ks && r == s
  {
    EmptyOnlyCloses(MemberTexts(ms), MemberTexts(ks), CLOSE_OBJECT, r, s);
  }

  lemma {:induction false} HoldTail(entries: seq<Entry>, ms: seq<Member>, vs: seq<Json>)
    requires HoldAll(entries, ms, vs) && ms != []
    ensures Holds(entries, ms[0], vs[0]) && HoldAll(entries, ms[1..], vs[1..])
  {
    forall i | 0 <= i < |vs[1..]| ensures Holds(entries, ms[1..][i], vs[1..][i]) {
      assert Holds(entries, ms[i + 1], vs[i + 1]);
    }
  }

  lemma {:induction false} MemberTail(ms: seq<Member>)
    requires ms != []
    ensures MemberTexts(ms)[0] == Quoted(ms[0].key) + [COLON] + ms[0].text
    ensures MemberTexts(ms)[1..] == MemberTexts(ms[1..])
  {
  }

  lemma {:induction false} MembersAgreeCons(ms: seq<Member>, vs: seq<Json>, ks: seq<Member>, ws: seq<Json>)
    requires ms != [] && vs != [] && ks != [] && ws != []
    requires ms[0].key == ks[0].key && Same(vs[0], ws[0]) && MembersAgree(ms[1..], vs[1..], ks[1..], ws[1..])
    ensures MembersAgree(ms, vs, ks, ws)
  {
    forall i | 0 <= i < |ms| ensures ms[i].key == ks[i].key && Same(vs[i], ws[i]) {
      if i > 0 {
        assert ms[i] == ms[1..][i - 1] && ks[i] == ks[1..][i - 1];
        assert vs[i] == vs[1..][i - 1] && ws[i] == ws[1..][i - 1];
      }
    }
  }

  /** An object's members can be told apart. */
  lemma {:induction false} MembersUnambiguous(a: seq<Entry>, b: seq<Entry>, ms: seq<Member>, vs: seq<Json>,
        ks: seq<Member>, ws: seq<Json>,
                                              r: Units, s: Units, n: nat)
    requires Legal(Object(a)) && Legal(Object(b)) && Depth(Object(a)) <= n + 1
    requires HoldAll(a, ms, vs) && HoldAll(b, ks, ws)
    requires CommaJoined(MemberTexts(ms)) + [CLOSE_OBJECT] + r == CommaJoined(MemberTexts(ks)) + [CLOSE_OBJECT] + s
    ensures r == s && MembersAgree(ms, vs, ks, ws)
    decreases n, 1, |ms|
  {
    if ms == [] || ks == [] {
      NoMembers(ms, ks, r, s);
    } else {
      HoldTail(a, ms, vs);
      HoldTail(b, ks, ws);
      MemberTail(ms);
      MemberTail(ks);
      var rest, other := SplitBoth(MemberTexts(ms), MemberTexts(ks), CLOSE_OBJECT, r, s);
      MemberUnambiguous(ms[0], ks[0], rest, other);
      HeldIsShallow(a, ms[0], vs[0], n);
      HeldIsLegal(b, ks[0], ws[0]);
      StableUnambiguous(vs[0], ws[0], rest, other, n);
      MembersUnambiguous(a, b, ms[1..], vs[1..], ks[1..], ws[1..], r, s, n);
      MembersAgreeCons(ms, vs, ks, ws);
    }
  }

  lemma {:induction false} HeldIsLegal(entries: seq<Entry>, m: Member, v: Json)
    requires Legal(Object(entries)) && Holds(entries, m, v)
    ensures Legal(v) && m.text == Stable(v)
  {
  }

  lemma {:induction false} HeldIsShallow(entries: seq<Entry>, m: Member, v: Json, n: nat)
    requires Legal(Object(entries)) && Depth(Object(entries)) <= n + 1 && Holds(entries, m, v)
    ensures Legal(v) && m.text == Stable(v) && Depth(v) <= n
  {
    var i :| 0 <= i < |entries| && entries[i] == Entry(m.key, v);
    DepthOfValue(entries, i);
  }

  lemma {:induction false} FoundAt(entries: seq<Entry>, ms: seq<Member>, vs: seq<Json>, i: nat) returns (p: nat)
    requires Legal(Object(entries)) && ms == Sorted(Members(entries)) && HoldAll(entries, ms, vs) && i < |entries|
    ensures p < |ms| && ms[p].key == entries[i].key && vs[p] == entries[i].value
  {
    var m := Members(entries)[i];
    InMultiset(Members(entries), ms, m);
    p :| 0 <= p < |ms| && ms[p] == m;
    assert Holds(entries, ms[p], vs[p]);
  }

  lemma {:induction false} HeldBy(entries: seq<Entry>, m: Member, v: Json, j: nat)
    requires Legal(Object(entries)) && Holds(entries, m, v) && j < |entries| && entries[j].key == m.key
    ensures v == entries[j].value
  {
  }

  /** Two sorted member lists that agree in their keys and, up to sameness, in their values. */
  predicate MembersAgree(ms: seq<Member>, vs: seq<Json>, ks: seq<Member>, ws: seq<Json>) {
    && |ms| == |vs| == |ks| == |ws|
    && forall i :: 0 <= i < |ms| ==> ms[i].key == ks[i].key && Same(vs[i], ws[i])
  }

  /** An object's sorted members and their values. */
  predicate MembersOf(entries: seq<Entry>, ms: seq<Member>, vs: seq<Json>) {
    Legal(Object(entries)) && ms == Sorted(Members(entries)) && HoldAll(entries, ms, vs)
  }

  lemma {:induction false} SameValue(a: seq<Entry>, b: seq<Entry>, ms: seq<Member>, vs: seq<Json>, ks: seq<Member>,
        ws: seq<Json>, i: nat)
    requires MembersOf(a, ms, vs) && MembersOf(b, ks, ws) && MembersAgree(ms, vs, ks, ws) && i < |a|
    ensures exists j :: 0 <= j < |b| && b[j].key == a[i].key
    ensures forall j :: 0 <= j < |b| && b[j].key == a[i].key ==> Same(a[i].value, b[j].value)
  {
    var p := FoundAt(a, ms, vs, i);
    assert Holds(b, ks[p], ws[p]);
    forall j | 0 <= j < |b| && b[j].key == a[i].key ensures Same(a[i].value, b[j].value) {
      HeldBy(b, ks[p], ws[p], j);
    }
  }

  lemma {:induction false} KeyFound(a: seq<Entry>, b: seq<Entry>, ms: seq<Member>, vs: seq<Json>, ks: seq<Member>,
        ws: seq<Json>, j: nat)
    requires MembersOf(a, ms, vs) && MembersOf(b, ks, ws) && MembersAgree(ms, vs, ks, ws) && j < |b|
    ensures exists i :: 0 <= i < |a| && a[i].key == b[j].key
  {
    var p := FoundAt(b, ks, ws, j);
    assert Holds(a, ms[p], vs[p]);
  }

  lemma {:induction false} AllKeysFound(a: seq<Entry>, b: seq<Entry>, ms: seq<Member>, vs: seq<Json>,
        ks: seq<Member>, ws: seq<Json>)
    requires MembersOf(a, ms, vs) && MembersOf(b, ks, ws) && MembersAgree(ms, vs, ks, ws)
    ensures HasKeysOf(b, a) && HasKeysOf(a, b)
  {
    forall i | 0 <= i < |a| ensures exists j :: 0 <= j < |b| && b[j].key == a[i].key {
      SameValue(a, b, ms, vs, ks, ws, i);
    }
    forall j | 0 <= j < |b| ensures exists i :: 0 <= i < |a| && a[i].key == b[j].key {
      KeyFound(a, b, ms, vs, ks, ws, j);
    }
  }

  /** Objects whose sorted members agree are the same. */
  lemma {:induction false} SameFromMembers(a: seq<Entry>, b: seq<Entry>, ms: seq<Member>, vs: seq<Json>,
        ks: seq<Member>, ws: seq<Json>)
    requires MembersOf(a, ms, vs) && MembersOf(b, ks, ws) && MembersAgree(ms, vs, ks, ws)
    ensures Same(Object(a), Object(b))
  {
    assert SameKeys(a, b) by { AllKeysFound(a, b, ms, vs, ks, ws); }
    forall i, j | 0 <= i < |a| && 0 <= j < |b| && a[i].key == b[j].key ensures Same(a[i].value, b[j].value) {
      SameValue(a, b, ms, vs, ks, ws, i);
    }
  }

  lemma {:induction false} SkipOpening(vs: seq<Json>, ws: seq<Json>, r: Units, s: Units)
    requires Stable(Array(vs)) + r == Stable(Array(ws)) + s
    ensures CommaJoined(Texts(vs)) + [CLOSE_ARRAY] + r == CommaJoined(Texts(ws)) + [CLOSE_ARRAY] + s
  {
    StableArray(vs);
    StableArray(ws);
    var x, y := CommaJoined(Texts(vs)) + [CLOSE_ARRAY] + r, CommaJoined(Texts(ws)) + [CLOSE_ARRAY] + s;
    assert Stable(Array(vs)) + r == [OPEN_ARRAY] + x && Stable(Array(ws)) + s == [OPEN_ARRAY] + y;
    SkipSame([OPEN_ARRAY], x, y);
  }

  lemma {:induction false} ArraysUnambiguous(vs: seq<Json>, ws: seq<Json>, r: Units, s: Units, n: nat)
    requires Legal(Array(vs)) && Legal(Array(ws)) && Depth(Array(vs)) <= n
    requires Stable(Array(vs)) + r == Stable(Array(ws)) + s
    ensures Same(Array(vs), Array(ws)) && r == s
    decreases n, 0, 0
  {
    var x, y := CommaJoined(Texts(vs)) + [CLOSE_ARRAY] + r, CommaJoined(Texts(ws)) + [CLOSE_ARRAY] + s;
    assert x == y by { SkipOpening(vs, ws, r, s); }
    assert AllLegal(vs) && AllLegal(ws) && AllShallow(vs, n - 1) by {
      forall i | 0 <= i < |vs| ensures Depth(vs[i]) <= n - 1 { DepthOfItem(vs, i); }
    }
    ItemsUnambiguous(vs, ws, r, s, n - 1);
  }

  lemma {:induction false} MemberValues(entries: seq<Entry>) returns (vs: seq<Json>)
    requires Legal(Object(entries))
    ensures MembersOf(entries, Sorted(Members(entries)), vs)
  {
    var ms := Sorted(Members(entries));
    forall m | m in ms ensures m in Members(entries) { InMultiset(ms, Members(entries), m); }
    vs := ValuesOf(entries, ms);
  }

  lemma {:induction false} ObjectText(entries: seq<Entry>, ms: seq<Member>, r: Units) returns (x: Units)
    requires ms == Sorted(Members(entries))
    ensures x == CommaJoined(MemberTexts(ms)) + [CLOSE_OBJECT] + r
    ensures Stable(Object(entries)) + r == [OPEN_OBJECT] + x
  {
    StableObject(entries);
    x := CommaJoined(MemberTexts(ms)) + [CLOSE_OBJECT] + r;
    assert [OPEN_OBJECT] + CommaJoined(MemberTexts(ms)) + [CLOSE_OBJECT] + r == [OPEN_OBJECT] + x;
  }

  lemma {:induction false} DepthPositive(entries: seq<Entry>)
    ensures Depth(Object(entries)) >= 1
  {
  }

  lemma {:induction false} ObjectsUnambiguous(a: seq<Entry>, b: seq<Entry>, r: Units, s: Units, n: nat)
    requires Legal(Object(a)) && Legal(Object(b)) && Depth(Object(a)) <= n
    requires Stable(Object(a)) + r == Stable(Object(b)) + s
    ensures Same(Object(a), Object(b)) && r == s
    decreases n, 0, 0
  {
    var ms, ks := Sorted(Members(a)), Sorted(Members(b));
    var x := ObjectText(a, ms, r);
    var y := ObjectText(b, ks, s);
    SkipSame([OPEN_OBJECT], x, y);
    DepthPositive(a);
    var vs := MemberValues(a);
    var ws := MemberValues(b);
    MembersUnambiguous(a, b, ms, vs, ks, ws, r, s, n - 1);
    SameFromMembers(a, b, ms, vs, ks, ws);
  }

  /** A stable text says where it ends and what value it is of. */
  lemma {:induction false} StableUnambiguous(v: Json, w: Json, r: Units, s: Units, n: nat)
    requires Legal(v) && Legal(w) && Depth(v) <= n
    requires Ends(r) && Ends(s) && Stable(v) + r == Stable(w) + s
    ensures Same(v, w) && r == s
    decreases n, 0, 1
  {
    StartsWith(v);
    StartsWith(w);
    assert (Stable(v) + r)[0] == FirstUnit(v) && (Stable(w) + s)[0] == FirstUnit(w);
    match v
    case Null => SkipSame(Stable(v), r, s);
    case Bool(_) => SkipSame(Stable(v), r, s);
    case Number(_) => NumberUnambiguous(Stable(v), Stable(w), r, s);
    case NegativeZero => NumberUnambiguous(Stable(v), Stable(w), r, s);
    case String(units) => QuotedUnambiguous(units, w.units, r, s);
    case Array(items) => ArraysUnambiguous(items, w.items, r, s, n);
    case Object(entries) => ObjectsUnambiguous(entries, w.entries, r, s, n);
  }

  /**
   * The stable form decides sameness: two values have the same text exactly when they are
   * the same up to the insertion order of keys and the sign of zero.
   */
  lemma {:induction false} StableDecides(v: Json, w: Json)
    requires Legal(v) && Legal(w)
    ensures Stable(v) == Stable(w) <==> Same(v, w)
  {
    if Stable(v) == Stable(w) {
      assert Stable(v) + [] == Stable(v) && Stable(w) + [] == Stable(w);
      StableUnambiguous(v, w, [], [], Depth(v));
    }
    if Same(v, w) { SameText(v, w); }
  }
}
