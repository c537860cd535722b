/** The bounded whole-turn suffix a fork starts from (src/core/fork-context.ts:179-239). */
module ForkContext {
  import opened Messages
  import opened ConversationShape

  const MAX_FORK_CONTEXT_MESSAGES: nat := 256
  const MAX_FORK_CONTEXT_BYTES: nat := 768 * 1024

  datatype Bounded =
    | Prepared(messages: seq<Message>, omittedMessages: nat, omittedImages: nat)
    | NotCanonical  // the TypeError
    | TooLarge      // the RangeError

  // ---- Sizes ----

  /** The bytes of the messages' own texts, of each as `size` gives them. */
  function TextBytes(size: Message -> nat, messages: seq<Message>): nat {
    if messages == [] then 0 else TextBytes(size, messages[1..]) + size(messages[0])
  }

  /** canonicalBytes({ messages }): the texts, with commas between them, in `{"messages":[` and `]}`. */
  function CanonicalBytes(size: Message -> nat, messages: seq<Message>): nat {
    15 + TextBytes(size, messages) + if messages == [] then 0 else |messages| - 1
  }

  predicate Fits(size: Message -> nat, messages: seq<Message>) {
    |messages| <= MAX_FORK_CONTEXT_MESSAGES && CanonicalBytes(size, messages) <= MAX_FORK_CONTEXT_BYTES - 4096
  }

  function ImageCount(messages: seq<Message>): nat {
    if messages == [] then 0 else ImageCount(messages[1..]) + |messages[0].Images()|
  }

  function WithoutImages(messages: seq<Message>): (r: seq<Message>)
    ensures |r| == |messages| && forall i :: 0 <= i < |r| ==> r[i] == messages[i].WithImages([])
  {
    seq(|messages|, i requires 0 <= i < |messages| => messages[i].WithImages([]))
  }

  lemma {:induction false} TextBytesConcat(size: Message -> nat, a: seq<Message>, b: seq<Message>)
    ensures TextBytes(size, a + b) == TextBytes(size, a) + TextBytes(size, b)
  {
    if a == [] {
      assert a + b == b;
    } else {
      TextBytesConcat(size, a[1..], b);
      assert (a + b)[1..] == a[1..] + b;
    }
  }

  lemma {:induction false} ImageCountConcat(a: seq<Message>, b: seq<Message>)
    ensures ImageCount(a + b) == ImageCount(a) + ImageCount(b)
  {
    if a == [] {
      assert a + b == b;
    } else {
      ImageCountConcat(a[1..], b);
      assert (a + b)[1..] == a[1..] + b;
    }
  }

  /** A conversation that fits does so without its beginning. */
  lemma {:induction false} LessFits(size: Message -> nat, a: seq<Message>, b: seq<Message>)
    requires Fits(size, a + b)
    ensures Fits(size, b)
  {
    TextBytesConcat(size, a, b);
  }

  lemma {:induction false} NoImagesLeft(messages: seq<Message>)
    ensures ImageCount(WithoutImages(messages)) == 0
  {
    if messages != [] {
      NoImagesLeft(messages[1..]);
      assert WithoutImages(messages)[1..] == WithoutImages(messages[1..]);
    }
  }

  // ---- Turns ----

  /** groups.flat() */
  function Flat(groups: seq<seq<Message>>): seq<Message> {
    if groups == [] then [] else groups[0] + Flat(groups[1..])
  }

  /** A user message begins a turn, and stands nowhere else in it. */
  predicate OneTurn(group: seq<Message>) {
    group != [] && forall j :: 1 <= j < |group| ==> !group[j].User?
  }

  /** The turns of a conversation, in order; only the first may begin without a user message. */
  predicate Turns(groups: seq<seq<Message>>, messages: seq<Message>) {
    && Flat(groups) == messages
    && (forall k :: 0 <= k < |groups| ==> OneTurn(groups[k]))
    && (forall k :: 1 <= k < |groups| ==> groups[k][0].User?)
  }

  lemma {:induction false} FlatOneMore(groups: seq<seq<Message>>, group: seq<Message>)
    ensures Flat(groups + [group]) == Flat(groups) + group
  {
    if groups == [] {
      assert ([] + [group])[1..] == [];
      assert group + [] == group;
    } else {
      FlatOneMore(groups[1..], group);
      assert (groups + [group])[1..] == groups[1..] + [group];
      assert groups[0] + (Flat(groups[1..]) + group) == groups[0] + Flat(groups[1..]) + group;
    }
  }

  lemma {:induction false} FlatSplit(groups: seq<seq<Message>>, k: nat)
    requires k <= |groups|
    ensures Flat(groups) == Flat(groups[..k]) + Flat(groups[k..])
  {
    if k == 0 {
      assert groups[..0] == [] && groups[0..] == groups;
    } else {
      FlatSplit(groups[1..], k - 1);
      assert groups[..k][1..] == groups[1..][..k - 1] && groups[1..][k - 1..] == groups[k..];
      assert groups[0] + (Flat(groups[1..][..k - 1]) + Flat(groups[k..]))
             == groups[0] + Flat(groups[1..][..k - 1]) + Flat(groups[k..]);
    }
  }

  lemma {:induction false} FlatFrom(groups: seq<seq<Message>>, k: nat)
    requires k < |groups|
    ensures Flat(groups[k..]) == groups[k] + Flat(groups[k + 1..])
  {
    assert groups[k..][1..] == groups[k + 1..];
  }

  /** The turns so far, and the one that is being read. */
  predicate Grouping(groups: seq<seq<Message>>, current: seq<Message>, done: seq<Message>) {
    && Flat(groups) + current == done
    && (forall k :: 0 <= k < |groups| ==> OneTurn(groups[k]))
    && (forall k :: 1 <= k < |groups| ==> groups[k][0].User?)
    && (groups != [] ==> current != [])
    && (current != [] ==> OneTurn(current) && (groups != [] ==> current[0].User?))
  }

  lemma {:induction false} GroupGrows(groups: seq<seq<Message>>, current: seq<Message>, done: seq<Message>, m: Message)
    requires Grouping(groups, current, done) && (current == [] || !m.User?)
    ensures Grouping(groups, current + [m], done + [m])
  {
    assert Flat(groups) + (current + [m]) == Flat(groups) + current + [m];
  }

  lemma {:induction false} GroupEnds(groups: seq<seq<Message>>, current: seq<Message>, done: seq<Message>, m: Message)
    requires Grouping(groups, current, done) && current != [] && m.User?
    ensures Grouping(groups + [current], [m], done + [m])
  {
    FlatOneMore(groups, current);
  }

  lemma {:induction false} LastGroup(groups: seq<seq<Message>>, current: seq<Message>, done: seq<Message>)
    requires Grouping(groups, current, done)
    ensures Turns(if current == [] then groups else groups + [current], done)
  {
    if current == [] {
      assert Flat(groups) + [] == Flat(groups);
    } else {
      FlatOneMore(groups, current);
    }
  }

  /** wholeTurnGroups */
  method WholeTurnGroups(messages: seq<Message>) returns (groups: seq<seq<Message>>)
    ensures Turns(groups, messages)
  {
    groups := [];
    var current: seq<Message> := [];
    for i := 0 to |messages|
      invariant Grouping(groups, current, messages[..i])
    {
      var message := messages[i];
      assert messages[..i + 1] == messages[..i] + [message];
      if message.User? && |current| > 0 {
        GroupEnds(groups, current, messages[..i], message);
        groups := groups + [current];
        current := [];
      } else {
        GroupGrows(groups, current, messages[..i], message);
      }
      current := current + [message];
    }
    assert messages[..|messages|] == messages;
    LastGroup(groups, current, messages);
    if |current| > 0 { groups := groups + [current]; }
  }

  // ---- The shape is kept ----

  /** What an open scan holds: calls are unanswered only while answers are awaited. */
  predicate Sound(s: Scan) {
    s.Scan? ==> (s.unresolved != {} <==> s.phase.AwaitTools?)
  }

  lemma {:induction false} SoundRun(messages: seq<Message>)
    ensures Sound(Run(BEGIN, messages))
  {
    if messages != [] {
      var init, last := messages[..|messages| - 1], messages[|messages| - 1];
      SoundRun(init);
      if last.Assistant? && last.calls != [] { assert last.calls[0].id in CallIds(last.calls); }
    }
  }

  /** The same place in a conversation, with fewer call ids behind it. */
  predicate Eased(s: Scan, t: Scan) {
    s.Scan? ==> t.Scan? && t.ids <= s.ids && t.unresolved == s.unresolved && t.phase == s.phase
  }

  lemma {:induction false} EasedRun(s: Scan, t: Scan, messages: seq<Message>)
    requires Eased(s, t)
    ensures Eased(Run(s, messages), Run(t, messages))
  {
    if messages != [] { EasedRun(s, t, messages[..|messages| - 1]); }
  }

  /** A turn that begins with a user message can begin a conversation. */
  lemma {:induction false} SuffixShaped(a: seq<Message>, b: seq<Message>)
    requires Shape(a + b) && b != [] && b[0].User?
    ensures Shape(b)
  {
    var s, first, rest := Run(BEGIN, a), b[..1], b[1..];
    assert b == first + rest && first == [b[0]];
    RunConcat(BEGIN, a, b);
    RunConcat(s, first, rest);
    RunConcat(BEGIN, first, rest);
    SoundRun(a);
    assert first[..0] == [];
    var t := Run(s, first);
    if t.Broken? { BrokenStays(rest); }
    EasedRun(t, Run(BEGIN, first), rest);
  }

  lemma {:induction false} SameScan(s: Scan, messages: seq<Message>, others: seq<Message>)
    requires |messages| == |others| && forall i :: 0 <= i < |messages| ==> others[i] == messages[i].WithImages([])
    ensures Run(s, others) == Run(s, messages)
  {
    if messages != [] { SameScan(s, messages[..|messages| - 1], others[..|others| - 1]); }
  }

  lemma {:induction false} WithoutImagesShaped(messages: seq<Message>)
    requires Shape(messages)
    ensures Shape(WithoutImages(messages))
  {
    SameScan(BEGIN, messages, WithoutImages(messages));
  }

  lemma {:induction false} TurnsFromShaped(groups: seq<seq<Message>>, messages: seq<Message>, k: nat)
    requires Turns(groups, messages) && Shape(messages) && k <= |groups|
    ensures Shape(Flat(groups[k..]))
  {
    FlatSplit(groups, k);
    if k == 0 {
      assert groups[0..] == groups;
    } else if k < |groups| {
      FlatFrom(groups, k);
      SuffixShaped(Flat(groups[..k]), Flat(groups[k..]));
    } else {
      assert groups[k..] == [];
    }
  }

  // ---- The bound ----

  /** Turn `k` on is the longest run of whole turns up to the end that fits. */
  predicate LongestFrom(size: Message -> nat, groups: seq<seq<Message>>, k: nat)
    requires k <= |groups|
  {
    (k < |groups| ==> Fits(size, Flat(groups[k..]))) && (k > 0 ==> !Fits(size, Flat(groups[k - 1..])))
  }

  /** A longer suffix than the longest does not fit, whatever it is. */
  lemma {:induction false} LongestIsLongest(size: Message -> nat, groups: seq<seq<Message>>, k: nat, j: nat)
    requires k <= |groups| && LongestFrom(size, groups, k) && j < |groups|
    ensures Fits(size, Flat(groups[j..])) <==> k <= j
  {
    if k <= j {
      FlatSplit(groups[k..], j - k);
      assert groups[k..][j - k..] == groups[j..];
      LessFits(size, Flat(groups[k..][..j - k]), Flat(groups[j..]));
    } else if Fits(size, Flat(groups[j..])) {
      FlatSplit(groups[j..], k - 1 - j);
      assert groups[j..][k - 1 - j..] == groups[k - 1..];
      LessFits(size, Flat(groups[j..][..k - 1 - j]), Flat(groups[k - 1..]));
    }
  }

  /** The kept messages are the longest whole-turn suffix that fits, or the newest turn without its images. */
  predicate BoundedBy(size: Message -> nat, messages: seq<Message>, groups: seq<seq<Message>>, k: nat, r: Bounded)
    requires k <= |groups|
  {
    && Turns(groups, messages) && LongestFrom(size, groups, k)
    && if k < |groups| || messages == [] then r.Prepared? && r.messages == Flat(groups[k..])
       else
         var newest := WithoutImages(groups[|groups| - 1]);
         if Fits(size, newest) then r.Prepared? && r.messages == newest else r == TooLarge
  }

  /** The loop that picks whole turns from the newest back. */
  method SelectTurns(size: Message -> nat, groups: seq<seq<Message>>) returns (bounded: seq<Message>, ghost k: nat)
    requires forall i :: 0 <= i < |groups| ==> groups[i] != []
    ensures k <= |groups| && LongestFrom(size, groups, k) && bounded == Flat(groups[k..])
  {
    var selected: seq<seq<Message>>, selectedCount, stopped := [], 0, false;
    k := |groups|;
    assert groups[k..] == [];
    var index := |groups|;
    while index > 0
      invariant 0 <= index <= k <= |groups|
      invariant selected == groups[k..] && selectedCount == |Flat(selected)|
      invariant !stopped ==> k == index && (k < |groups| ==> Fits(size, Flat(groups[k..])))
      invariant stopped ==> LongestFrom(size, groups, k)
    {
      index := index - 1;
      var group := groups[index];
      if stopped { continue; }
      FlatFrom(groups, index);
      assert [group] + selected == groups[index..];
      if selectedCount + |group| > MAX_FORK_CONTEXT_MESSAGES {
        stopped := true;
        continue;
      }
      var candidate := Flat([group] + selected);
      if CanonicalBytes(size, candidate) > MAX_FORK_CONTEXT_BYTES - 4096 {
        stopped := true;
        continue;
      }
      selected := [group] + selected;
      selectedCount := selectedCount + |group|;
      k := index;
    }
    bounded := Flat(selected);
  }

  /** boundWholeTurns */
  method BoundWholeTurns(size: Message -> nat, messages: seq<Message>)
      returns (r: Bounded, ghost groups: seq<seq<Message>>, ghost k: nat)
    ensures r == NotCanonical <==> !Shape(messages)
    ensures Shape(messages) ==> k <= |groups| && BoundedBy(size, messages, groups, k, r)
    ensures r.Prepared? ==> |r.messages| + r.omittedMessages == |messages|
    ensures r.Prepared? ==> ImageCount(r.messages) + r.omittedImages == ImageCount(messages)
    ensures r.Prepared? ==> Shape(r.messages) && Fits(size, r.messages) && (messages != [] ==> r.messages != [])
  {
    groups, k := [], 0;
    var canonical := ValidConversationShape(messages);
    if !canonical { return NotCanonical, groups, k; }
    var turns := WholeTurnGroups(messages);
    groups := turns;
    var bounded;
    bounded, k := SelectTurns(size, turns);
    FlatSplit(turns, k);
    TurnsFromShaped(turns, messages, k);
    if |messages| > 0 && |bounded| == 0 {
      AllOmitted(turns, messages, k);
      var newest := turns[|turns| - 1];
      var withoutImages := WithoutImages(newest);
      if |withoutImages| > MAX_FORK_CONTEXT_MESSAGES
          || CanonicalBytes(size, withoutImages) > MAX_FORK_CONTEXT_BYTES - 4096 {
        return TooLarge, groups, k;
      }
      NewestShaped(turns, messages);
      NoImagesLeft(newest);
      return Prepared(withoutImages, |messages| - |withoutImages|, ImageCount(messages) - ImageCount(withoutImages)),
             groups, k;
    }
    KeptOrEmpty(size, turns, messages, k, bounded);
    ImageCountConcat(Flat(turns[..k]), bounded);
    r := Prepared(bounded, |messages| - |bounded|, ImageCount(messages) - ImageCount(bounded));
  }

  lemma {:induction false} AllOmitted(groups: seq<seq<Message>>, messages: seq<Message>, k: nat)
    requires Turns(groups, messages) && k <= |groups| && Flat(groups[k..]) == [] && messages != []
    ensures k == |groups| > 0
  {
    if k < |groups| { FlatFrom(groups, k); }
  }

  lemma {:induction false} NewestShaped(groups: seq<seq<Message>>, messages: seq<Message>)
    requires Turns(groups, messages) && Shape(messages) && groups != []
    ensures Shape(WithoutImages(groups[|groups| - 1])) && |groups[|groups| - 1]| <= |messages|
  {
    var k := |groups| - 1;
    FlatSplit(groups, k);
    FlatFrom(groups, k);
    assert groups[k + 1..] == [] && groups[k] + [] == groups[k];
    TurnsFromShaped(groups, messages, k);
    WithoutImagesShaped(groups[k]);
  }

  lemma {:induction false} KeptOrEmpty(size: Message -> nat, groups: seq<seq<Message>>, messages: seq<Message>, k: nat,
        bounded: seq<Message>)
    requires Turns(groups, messages) && k <= |groups| && LongestFrom(size, groups, k) && bounded == Flat(groups[k..])
    requires messages == [] || bounded != []
    ensures Fits(size, bounded) && (k < |groups| || messages == [])
  {
    if k == |groups| { assert groups[k..] == []; }
  }
}
