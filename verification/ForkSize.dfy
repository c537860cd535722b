/** What the bounds on inherited context measure (src/core/fork-context.ts:192-215, 383-385). */
module ForkSize {
  import opened Utf16
  import opened Messages
  import opened StableJson
  import opened ForkContext

  /** The size of a string in UTF-8: a pair of surrogates takes four bytes. */
  function Utf8Size(s: Units): nat {
    if s == [] then 0
    else if StartsPair(s) then 4 + Utf8Size(s[2..])
    else (if s[0] < 0x80 then 1 else if s[0] < 0x800 then 2 else 3) + Utf8Size(s[1..])
  }

  /** No pair is made where the second string begins. */
  lemma {:induction false} SizeConcat(a: Units, b: Units)
    requires b != [] ==> !IsLow(b[0])
    ensures Utf8Size(a + b) == Utf8Size(a) + Utf8Size(b)
  {
    if a == [] {
      assert a + b == b;
    } else {
      assert StartsPair(a + b) <==> StartsPair(a);
      if StartsPair(a) {
        assert (a + b)[2..] == a[2..] + b;
        SizeConcat(a[2..], b);
      } else {
        assert (a + b)[1..] == a[1..] + b;
        SizeConcat(a[1..], b);
      }
    }
  }

  lemma {:induction false} SizeOfOne(u: Unit)
    requires u < 0x80
    ensures Utf8Size([u]) == 1
  {
  }

  lemma {:induction false} SizeOfAscii(s: Units)
    requires forall i :: 0 <= i < |s| ==> s[i] < 0x80
    ensures Utf8Size(s) == |s|
  {
    if s != [] { SizeOfAscii(s[1..]); }
  }

  function SumSizes(texts: seq<Units>): nat {
    if texts == [] then 0 else SumSizes(texts[1..]) + Utf8Size(texts[0])
  }

  predicate PlainStarts(texts: seq<Units>) {
    forall i :: 0 <= i < |texts| ==> texts[i] != [] && !IsLow(texts[i][0])
  }

  lemma {:induction false} SizeOfJoined(texts: seq<Units>)
    requires PlainStarts(texts)
    ensures Utf8Size(CommaJoined(texts)) == SumSizes(texts) + if texts == [] then 0 else |texts| - 1
    ensures texts != [] ==> CommaJoined(texts) != [] && !IsLow(CommaJoined(texts)[0])
  {
    if |texts| == 1 {
      assert texts[1..] == [];
    } else if texts != [] {
      SizeOfJoined(texts[1..]);
      SizeConcat([COMMA], CommaJoined(texts[1..]));
      SizeOfOne(COMMA);
      assert texts[0] + [COMMA] + CommaJoined(texts[1..]) == texts[0] + ([COMMA] + CommaJoined(texts[1..]));
      SizeConcat(texts[0], [COMMA] + CommaJoined(texts[1..]));
    }
  }

  lemma {:induction false} StableStarts(v: Json)
    ensures Stable(v) != [] && !IsLow(Stable(v)[0])
  {
    StartsWith(v);
  }

  /** A text between two ASCII marks. */
  lemma {:induction false} SizeBetween(open: Units, text: Units, close: Unit)
    requires close < 0x80 && (forall i :: 0 <= i < |open| ==> open[i] < 0x80) && (text != [] ==> !IsLow(text[0]))
    ensures Utf8Size(open + text + [close]) == |open| + Utf8Size(text) + 1
  {
    SizeConcat(open + text, [close]);
    SizeConcat(open, text);
    SizeOfAscii(open);
    SizeOfOne(close);
  }

  /** "messages" */
  const MESSAGES: Units := [109, 101, 115, 115, 97, 103, 101, 115]

  function Seed(encode: Message -> Json, messages: seq<Message>): Json {
    Object([StableJson.Entry(MESSAGES, Array(Encoded(encode, messages)))])
  }

  function Encoded(encode: Message -> Json, messages: seq<Message>): (r: seq<Json>)
    ensures |r| == |messages| && forall i :: 0 <= i < |r| ==> r[i] == encode(messages[i])
  {
    seq(|messages|, i requires 0 <= i < |messages| => encode(messages[i]))
  }

  function Measure(encode: Message -> Json): Message -> nat {
    m => Utf8Size(Stable(encode(m)))
  }

  lemma {:induction false} SizesAre(encode: Message -> Json, messages: seq<Message>)
    ensures SumSizes(Texts(Encoded(encode, messages))) == TextBytes(Measure(encode), messages)
  {
    if messages != [] {
      SizesAre(encode, messages[1..]);
      assert Texts(Encoded(encode, messages))[1..] == Texts(Encoded(encode, messages[1..]));
    }
  }

  predicate Lower(s: Units) {
    forall i :: 0 <= i < |s| ==> 97 <= s[i] <= 122
  }

  lemma {:induction false} PlainBody(s: Units)
    requires Lower(s)
    ensures Body(s) == s
  {
    if s != [] {
      PlainBody(s[1..]);
      assert s == [s[0]] + s[1..];
    }
  }

  lemma {:induction false} QuotedKey(key: Units)
    requires Lower(key)
    ensures Utf8Size(Quoted(key)) == |key| + 2
  {
    PlainBody(key);
    SizeOfAscii(key);
    SizeBetween([QUOTE], key, QUOTE);
  }

  lemma {:induction false} SortedOne(m: Member)
    ensures Sorted([m]) == [m]
  {
    assert [m][1..] == [];
  }

  /** An object of one member. */
  lemma {:induction false} OneMember(key: Units, v: Json)
    ensures Stable(Object([StableJson.Entry(key, v)]))
            == [OPEN_OBJECT] + (Quoted(key) + [COLON] + Stable(v)) + [CLOSE_OBJECT]
  {
    var entries, member := [StableJson.Entry(key, v)], Member(key, Stable(v));
    StableObject(entries);
    assert Members(entries) == [member];
    SortedOne(member);
    assert MemberTexts([member]) == [Quoted(key) + [COLON] + Stable(v)];
  }

  lemma {:induction false} SizeOfMember(key: Units, text: Units)
    requires Lower(key) && text != [] && !IsLow(text[0])
    ensures Utf8Size([OPEN_OBJECT] + (Quoted(key) + [COLON] + text) + [CLOSE_OBJECT]) == |key| + 5 + Utf8Size(text)
  {
    SizeBetween([OPEN_OBJECT], Quoted(key) + [COLON] + text, CLOSE_OBJECT);
    SizeConcat(Quoted(key) + [COLON], text);
    SizeConcat(Quoted(key), [COLON]);
    SizeOfOne(COLON);
    QuotedKey(key);
  }

  lemma {:induction false} SizeOfArray(texts: seq<Units>)
    requires PlainStarts(texts)
    ensures Utf8Size([OPEN_ARRAY] + CommaJoined(texts) + [CLOSE_ARRAY])
            == 2 + SumSizes(texts) + if texts == [] then 0 else |texts| - 1
  {
    SizeOfJoined(texts);
    SizeBetween([OPEN_ARRAY], CommaJoined(texts), CLOSE_ARRAY);
  }

  lemma {:induction false} EncodedStarts(encode: Message -> Json, messages: seq<Message>)
    ensures PlainStarts(Texts(Encoded(encode, messages)))
  {
    var texts := Texts(Encoded(encode, messages));
    forall i | 0 <= i < |texts| ensures texts[i] != [] && !IsLow(texts[i][0]) {
      StableStarts(Encoded(encode, messages)[i]);
    }
  }

  lemma {:induction false} SizeOfItems(encode: Message -> Json, messages: seq<Message>)
    ensures Utf8Size(Stable(Array(Encoded(encode, messages))))
            == 2 + TextBytes(Measure(encode), messages) + if messages == [] then 0 else |messages| - 1
  {
    EncodedStarts(encode, messages);
    SizesAre(encode, messages);
    SizeOfArray(Texts(Encoded(encode, messages)));
    StableArray(Encoded(encode, messages));
  }

  lemma {:induction false} SizeOfObject(key: Units, v: Json)
    requires Lower(key)
    ensures Utf8Size(Stable(Object([StableJson.Entry(key, v)]))) == |key| + 5 + Utf8Size(Stable(v))
  {
    StableStarts(v);
    OneMember(key, v);
    SizeOfMember(key, Stable(v));
  }

  lemma {:induction false} BytesUnder(key: Units, encode: Message -> Json, messages: seq<Message>)
    requires Lower(key) && |key| == 8
    ensures CanonicalBytes(Measure(encode), messages)
            == Utf8Size(Stable(Object([StableJson.Entry(key, Array(Encoded(encode, messages)))])))
  {
    SizeOfItems(encode, messages);
    SizeOfObject(key, Array(Encoded(encode, messages)));
  }

  /** The bytes that are bounded are those of the canonical text of the messages, in UTF-8. */
  lemma {:induction false} CanonicalBytesMeasured(encode: Message -> Json, messages: seq<Message>)
    ensures CanonicalBytes(Measure(encode), messages) == Utf8Size(Stable(Seed(encode, messages)))
  {
    BytesUnder(MESSAGES, encode, messages);
  }
}
