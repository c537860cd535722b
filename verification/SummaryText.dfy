/**
 * The text of a summary projection, word for word: what it must hold, written out without the
 * parts it is rendered from (src/core/context-summary-projection.ts:277-297, 355-422).
 */
module SummaryText {
  import opened Arithmetic
  import opened Messages
  import opened Utf8Text
  import opened SummaryChain
  import opened SummaryProjection

  // ---- Numbers read back ----

  /** A decimal numeral's number. */
  function ReadDec(t: Text): int {
    if t == [] then 0 else 10 * ReadDec(t[..|t| - 1]) + t[|t| - 1] - 48
  }

  lemma {:induction false} DecReadsBack(n: nat)
    ensures ReadDec(Dec(n)) == n
    ensures forall i :: 0 <= i < |Dec(n)| ==> 48 <= Dec(n)[i] <= 57
  {
    if n < 10 {
      assert [48 + n][..0] == [];
    } else {
      DecReadsBack(n / 10);
      assert Dec(n)[..|Dec(n)| - 1] == Dec(n / 10);
    }
  }

  // ---- The words of each block ----

  /** What announces a delta: its digest and its events. */
  function Header(s: Summary): Text {
    A("Reference ") + s.digest + A(" (events ") + Dec(s.of.start) + A("-") + Dec(s.of.end) + A("):")
  }

  /** A shown delta: under its header, the whole of it. */
  function DeltaBlock(s: Summary): Text {
    Header(s) + [10] + s.of.delta
  }

  /** How many summaries something stands for. */
  function Earlier(n: nat): Text {
    Dec(n) + A(" earlier summary ") + (if n == 1 then A("delta") else A("deltas"))
  }

  /** The tier: its level and digest, its events, what it replaced, and under them the whole of its body. */
  function TierBlock(c: Compaction): Text
    requires c.subsumed != []
  {
    A("Compacted tier ") + Dec(c.level) + A(" summary ") + c.bodyDigest
    + A(" (events ") + Dec(c.coveredStart) + A("-") + Dec(c.coveredEnd) + A("; ")
    + Earlier(|c.subsumed|) + A(" re-compacted; ") + A("journal references ")
    + c.subsumed[0] + A(" through ") + c.subsumed[|c.subsumed| - 1] + A("):") + [10] + c.body
  }

  /** The notice for summaries that are left out. */
  function NoticeBlock(run: seq<Summary>): Text
    requires run != []
  {
    A("[") + Earlier(|run|) + A(" omitted from the active projection; ") + A("journal references ")
    + run[0].digest + A(" through ") + run[|run| - 1].digest
    + A("; events ") + Dec(run[0].of.start) + A("-") + Dec(run[|run| - 1].of.end) + A("]")
  }

  lemma {:induction false} After3(x: Text, a: Text, b: Text, c: Text)
    ensures x + (a + b + c) == x + a + b + c
  {
  }

  lemma {:induction false} After4(x: Text, a: Text, b: Text, c: Text, d: Text)
    ensures x + (a + b + c + d) == x + a + b + c + d
  {
  }

  lemma {:induction false} HeaderIs(s: Summary)
    ensures DeltaHeader(s) == Header(s)
  {
    After3(A("Reference ") + s.digest + A(" (events "), Dec(s.of.start), A("-"), Dec(s.of.end));
  }

  lemma {:induction false} DeltaIsRendered(s: Summary)
    ensures Render(DeltaPart(s)) == DeltaBlock(s)
  {
    HeaderIs(s);
  }

  lemma {:induction false} TierIsRendered(c: Compaction)
    requires c.subsumed != []
    ensures Render(TierPart(c)) == TierBlock(c)
  {
    var first, last := c.subsumed[0], c.subsumed[|c.subsumed| - 1];
    After3(A("Compacted tier ") + Dec(c.level) + A(" summary ") + c.bodyDigest + A(" (events "),
           Dec(c.coveredStart), A("-"), Dec(c.coveredEnd));
    After4(TierName(c) + A("; ") + Earlier(|c.subsumed|) + A(" re-compacted; "),
           A("journal references "), first, A(" through "), last);
  }

  lemma {:induction false} NoticeIsRendered(run: seq<Summary>)
    requires run != []
    ensures OmittedNotice(run) == NoticeBlock(run)
  {
    var first, last := run[0], run[|run| - 1];
    var start := A("[") + Earlier(|run|) + A(" omitted from the active projection; ");
    After4(start, A("journal references "), first.digest, A(" through "), last.digest);
    After3(start + A("journal references ") + first.digest + A(" through ") + last.digest + A("; events "),
           Dec(first.of.start), A("-"), Dec(last.of.end));
  }

  // ---- The blocks of a projection ----

  /** Blocks with an empty line between any two. */
  function Spaced(blocks: seq<Text>): Text {
    if blocks == [] then []
    else if |blocks| == 1 then blocks[0]
    else Spaced(blocks[..|blocks| - 1]) + [10, 10] + blocks[|blocks| - 1]
  }

  lemma {:induction false} JoinedLastOf(blocks: seq<Text>, last: Text)
    requires blocks != []
    ensures Joined(blocks + [last]) == Joined(blocks) + [10, 10] + last
  {
    if |blocks| == 1 {
      assert (blocks + [last])[1..] == [last];
    } else {
      JoinedLastOf(blocks[1..], last);
      assert (blocks + [last])[1..] == blocks[1..] + [last];
      AfterFirst(blocks[0] + [10, 10], Joined(blocks[1..]), last);
    }
  }

  lemma {:induction false} AfterFirst(first: Text, middle: Text, last: Text)
    ensures first + (middle + [10, 10] + last) == first + middle + [10, 10] + last
  {
  }

  lemma {:induction false} JoinedIsSpaced(blocks: seq<Text>)
    ensures Joined(blocks) == Spaced(blocks)
  {
    if |blocks| > 1 {
      var init, last := blocks[..|blocks| - 1], blocks[|blocks| - 1];
      JoinedIsSpaced(init);
      JoinedLastOf(init, last);
      assert blocks == init + [last];
    }
  }

  /** The tier the projection carries, if it carries one. */
  function CarriedTier(chain: seq<Summary>): (r: Option<Compaction>)
    ensures r.Some? ==> r.value.subsumed != []
  {
    match SegmentOf(chain)
    case Tier(index, _) => Some(chain[index].of.compaction.value)
    case _ => None
  }

  /** The summaries that no tier stands for. */
  function AfterTier(chain: seq<Summary>): (r: seq<Summary>)
    requires chain != []
    ensures r != []
  {
    chain[Base(chain)..]
  }

  function TierBlocks(tier: Option<Compaction>): (r: seq<Text>)
    requires tier.Some? ==> tier.value.subsumed != []
    ensures |r| == if tier.Some? then 1 else 0
  {
    match tier
    case Some(c) => [TierBlock(c)]
    case None => []
  }

  function NoticeBlocks(run: seq<Summary>): (r: seq<Text>)
    ensures |r| == if run == [] then 0 else 1
  {
    if run == [] then [] else [NoticeBlock(run)]
  }

  function DeltaBlocks(shown: seq<Summary>): (r: seq<Text>)
    ensures |r| == |shown| && forall k :: 0 <= k < |r| ==> r[k] == DeltaBlock(shown[k])
  {
    seq(|shown|, k requires 0 <= k < |shown| => DeltaBlock(shown[k]))
  }

  /** The blocks when the first `omitted` deltas after the tier are left out: tier, notice, deltas. */
  function Blocks(tier: Option<Compaction>, rest: seq<Summary>, omitted: nat): seq<Text>
    requires (tier.Some? ==> tier.value.subsumed != []) && omitted < |rest|
  {
    TierBlocks(tier) + NoticeBlocks(rest[..omitted]) + DeltaBlocks(rest[omitted..])
  }

  lemma {:induction false} TextsAt(parts: seq<Part>, k: nat)
    requires k < |parts|
    ensures Texts(parts)[k] == Render(parts[k])
  {
    if k > 0 { TextsAt(parts[1..], k - 1); }
  }

  lemma {:induction false} DeltasAreBlocks(shown: seq<Summary>)
    ensures Texts(DeltaParts(shown)) == DeltaBlocks(shown)
  {
    forall k | 0 <= k < |shown| ensures Texts(DeltaParts(shown))[k] == DeltaBlocks(shown)[k] {
      TextsAt(DeltaParts(shown), k);
      DeltaIsRendered(shown[k]);
    }
  }

  lemma {:induction false} TextsOfOne(p: Part)
    ensures Texts([p]) == [Render(p)]
  {
    assert [p][1..] == [];
  }

  lemma {:induction false} HeadIsBlock(chain: seq<Summary>)
    ensures Texts(HeadParts(chain)) == TierBlocks(CarriedTier(chain))
  {
    match SegmentOf(chain)
    case Tier(index, _) =>
      TextsOfOne(TierPart(chain[index].of.compaction.value));
      TierIsRendered(chain[index].of.compaction.value);
    case _ =>
  }

  lemma {:induction false} TailIsBlocks(rest: seq<Summary>, omitted: nat)
    requires omitted < |rest|
    ensures Texts(Tail(rest, omitted)) == NoticeBlocks(rest[..omitted]) + DeltaBlocks(rest[omitted..])
  {
    DeltasAreBlocks(rest[omitted..]);
    if omitted > 0 {
      TextsConcat([OmittedPart(rest[..omitted])], DeltaParts(rest[omitted..]));
      TextsOfOne(OmittedPart(rest[..omitted]));
      NoticeIsRendered(rest[..omitted]);
    } else {
      assert rest[0..] == rest;
    }
  }

  lemma {:induction false} PartsAreBlocks(head: seq<Part>, tier: Option<Compaction>, rest: seq<Summary>, omitted: nat)
    requires (tier.Some? ==> tier.value.subsumed != []) && omitted < |rest|
    requires Texts(head) == TierBlocks(tier)
    ensures Texts(head + Tail(rest, omitted)) == Blocks(tier, rest, omitted)
  {
    TextsConcat(head, Tail(rest, omitted));
    TailIsBlocks(rest, omitted);
    Regroup(Texts(head), NoticeBlocks(rest[..omitted]), DeltaBlocks(rest[omitted..]));
  }

  /** The body that leaves out that many deltas. */
  function Laid(tier: Option<Compaction>, rest: seq<Summary>, omitted: nat): Text
    requires (tier.Some? ==> tier.value.subsumed != []) && omitted < |rest|
  {
    Spaced(Blocks(tier, rest, omitted))
  }

  function LaidOut(chain: seq<Summary>, omitted: nat): Text
    requires chain != [] && omitted < |AfterTier(chain)|
  {
    Laid(CarriedTier(chain), AfterTier(chain), omitted)
  }

  lemma {:induction false} WholeIsLaid(chain: seq<Summary>, omitted: nat)
    requires chain != [] && omitted < |AfterTier(chain)|
    ensures Whole(chain, omitted) == Projected(LaidOut(chain, omitted), omitted)
  {
    HeadIsBlock(chain);
    PartsAreBlocks(HeadParts(chain), CarriedTier(chain), AfterTier(chain), omitted);
    JoinedIsSpaced(Blocks(CarriedTier(chain), AfterTier(chain), omitted));
  }

  function Budget(chain: seq<Summary>): nat
    requires chain != []
  {
    Max(0, BodyBudgetBytes(chain[|chain| - 1].of.window))
  }

  /** Leaving out that many deltas, the body fits. */
  predicate LaidFits(chain: seq<Summary>, omitted: nat)
    requires chain != [] && omitted < |AfterTier(chain)|
  {
    Bytes(LaidOut(chain, omitted)) <= Budget(chain)
  }

  lemma {:induction false} LaidFitsIs(chain: seq<Summary>, omitted: nat)
    requires chain != [] && omitted < |AfterTier(chain)|
    ensures Fits(Whole(chain, omitted), Budget(chain)) <==> LaidFits(chain, omitted)
  {
    WholeIsLaid(chain, omitted);
  }

  /** The message around a body. */
  function Message(body: Text): Text {
    OPENING + [10] + body + [10] + CLOSING
  }

  /**
   * If leaving out some number of deltas fits, the projection is word for word the opening, the
   * blocks with the fewest left out that fit, and the closing.
   */
  lemma {:induction false} ProjectionText(chain: seq<Summary>, k: nat)
    requires chain != [] && k < |AfterTier(chain)| && LaidFits(chain, k)
    ensures ProjectionOf(chain).omitted <= k && LaidFits(chain, ProjectionOf(chain).omitted)
    ensures ProjectionOf(chain).content == Message(LaidOut(chain, ProjectionOf(chain).omitted))
    ensures forall j: nat :: j < ProjectionOf(chain).omitted ==> !LaidFits(chain, j)
  {
    var p := ProjectedChain(chain, Budget(chain));
    LongestSuffixShown(chain, Budget(chain));
    LaidFitsIs(chain, k);
    WholeIsLaid(chain, p.omitted);
    LaidFitsIs(chain, p.omitted);
    forall j: nat | j < p.omitted ensures !LaidFits(chain, j) { LaidFitsIs(chain, j); }
  }

  // ---- Where a delta stands ----

  /** What comes before the block at `i`. */
  function Lead(blocks: seq<Text>, i: nat): Text
    requires i < |blocks|
  {
    if i == 0 then [] else Spaced(blocks[..i]) + [10, 10]
  }

  lemma {:induction false} SpacedAt(blocks: seq<Text>, i: nat) returns (post: Text)
    requires i < |blocks|
    ensures Spaced(blocks) == Lead(blocks, i) + blocks[i] + post
    ensures post == [] || [10, 10] <= post
    decreases |blocks|
  {
    var n := |blocks| - 1;
    var init := blocks[..n];
    if i == n {
      post := [];
      assert Spaced(blocks) == Lead(blocks, i) + blocks[i];
    } else {
      var rest := SpacedAt(init, i);
      assert init[..i] == blocks[..i] && init[i] == blocks[i];
      post := rest + [10, 10] + blocks[n];
      assert Spaced(blocks) == Spaced(init) + [10, 10] + blocks[n];
      AfterThree(Lead(blocks, i), blocks[i], rest, blocks[n]);
    }
  }

  lemma {:induction false} AfterThree(a: Text, b: Text, c: Text, d: Text)
    ensures a + b + c + [10, 10] + d == a + b + (c + [10, 10] + d)
  {
  }

  /** The leads grow block by block, so the blocks stand in order. */
  lemma {:induction false} LeadGrows(blocks: seq<Text>, i: nat)
    requires i + 1 < |blocks|
    ensures Lead(blocks, i + 1) == Lead(blocks, i) + blocks[i] + [10, 10]
  {
    var init := blocks[..i + 1];
    if i == 0 {
      assert init == [blocks[0]];
    } else {
      assert init[..i] == blocks[..i] && init[i] == blocks[i];
    }
  }

  /** The place of a delta that is not left out, among the blocks. */
  function PlaceOf(tier: Option<Compaction>, omitted: nat, k: nat): nat
    requires omitted <= k
  {
    (if tier.Some? then 1 else 0) + (if omitted > 0 then 1 else 0) + (k - omitted)
  }

  lemma {:induction false} PlaceHolds(tier: Option<Compaction>, rest: seq<Summary>, omitted: nat, k: nat)
    requires (tier.Some? ==> tier.value.subsumed != []) && omitted <= k < |rest|
    ensures PlaceOf(tier, omitted, k) < |Blocks(tier, rest, omitted)|
    ensures Blocks(tier, rest, omitted)[PlaceOf(tier, omitted, k)] == DeltaBlocks(rest[omitted..])[k - omitted]
  {
    var run, shown := rest[..omitted], rest[omitted..];
    PlaceIs(tier, run, k - omitted);
    ThirdIs(Blocks(tier, rest, omitted), TierBlocks(tier), NoticeBlocks(run), DeltaBlocks(shown), k - omitted,
            PlaceOf(tier, omitted, k));
  }

  lemma {:induction false} PlaceIs(tier: Option<Compaction>, run: seq<Summary>, j: nat)
    requires tier.Some? ==> tier.value.subsumed != []
    ensures PlaceOf(tier, |run|, |run| + j) == |TierBlocks(tier)| + |NoticeBlocks(run)| + j
  {
  }

  lemma {:induction false} BlockOfDelta(rest: seq<Summary>, omitted: nat, k: nat)
    requires omitted <= k < |rest|
    ensures |DeltaBlocks(rest[omitted..])| == |rest| - omitted
    ensures DeltaBlocks(rest[omitted..])[k - omitted] == DeltaBlock(rest[k])
  {
    assert rest[omitted..][k - omitted] == rest[k];
  }

  lemma {:induction false} ThirdIs(all: seq<Text>, a: seq<Text>, b: seq<Text>, c: seq<Text>, j: nat, place: nat)
    requires all == a + b + c && j < |c| && place == |a| + |b| + j
    ensures place < |all| && all[place] == c[j]
  {
  }

  lemma {:induction false} DeltaStands(tier: Option<Compaction>, rest: seq<Summary>, omitted: nat, k: nat)
      returns (post: Text)
    requires (tier.Some? ==> tier.value.subsumed != []) && omitted <= k < |rest|
    ensures PlaceOf(tier, omitted, k) < |Blocks(tier, rest, omitted)|
    ensures Message(Laid(tier, rest, omitted))
            == OPENING + [10] + Lead(Blocks(tier, rest, omitted), PlaceOf(tier, omitted, k))
               + (Header(rest[k]) + [10] + rest[k].of.delta) + post
  {
    var blocks, place := Blocks(tier, rest, omitted), PlaceOf(tier, omitted, k);
    PlaceHolds(tier, rest, omitted, k);
    BlockOfDelta(rest, omitted, k);
    var after := SpacedAt(blocks, place);
    post := after + [10] + CLOSING;
    AroundBlock(Lead(blocks, place), blocks[place], after);
  }

  lemma {:induction false} AroundBlock(lead: Text, block: Text, rest: Text)
    ensures Message(lead + block + rest) == OPENING + [10] + lead + block + (rest + [10] + CLOSING)
  {
  }

  /**
   * Whenever some number of deltas left out fits, every delta that is not left out stands whole in
   * the projection under its header, in the order of the chain.
   */
  lemma {:induction false} EveryDeltaStands(chain: seq<Summary>, some: nat, k: nat) returns (pre: Text, post: Text)
    requires chain != [] && some < |AfterTier(chain)| && LaidFits(chain, some)
    requires ProjectionOf(chain).omitted <= k < |AfterTier(chain)|
    ensures PlaceOf(CarriedTier(chain), ProjectionOf(chain).omitted, k)
            < |Blocks(CarriedTier(chain), AfterTier(chain), ProjectionOf(chain).omitted)|
    ensures pre == OPENING + [10] + Lead(Blocks(CarriedTier(chain), AfterTier(chain), ProjectionOf(chain).omitted),
                                         PlaceOf(CarriedTier(chain), ProjectionOf(chain).omitted, k))
    ensures ProjectionOf(chain).content
            == pre + (Header(AfterTier(chain)[k]) + [10] + AfterTier(chain)[k].of.delta) + post
  {
    ProjectionText(chain, some);
    var omitted := ProjectionOf(chain).omitted;
    post := DeltaStands(CarriedTier(chain), AfterTier(chain), omitted, k);
    pre := OPENING + [10] + Lead(Blocks(CarriedTier(chain), AfterTier(chain), omitted),
                                 PlaceOf(CarriedTier(chain), omitted, k));
  }

  lemma {:induction false} TierFirst(tier: Compaction, rest: seq<Summary>, omitted: nat) returns (post: Text)
    requires tier.subsumed != [] && omitted < |rest|
    ensures Message(Laid(Some(tier), rest, omitted)) == OPENING + [10] + TierBlock(tier) + post
  {
    var blocks := Blocks(Some(tier), rest, omitted);
    assert blocks[0] == TierBlock(tier);
    var after := SpacedAt(blocks, 0);
    post := after + [10] + CLOSING;
    AroundBlock([], blocks[0], after);
    assert OPENING + [10] + [] == OPENING + [10];
  }

  /** ... and the tier's body stands whole under its own header, before them. */
  lemma {:induction false} TierStands(chain: seq<Summary>, some: nat) returns (post: Text)
    requires chain != [] && some < |AfterTier(chain)| && LaidFits(chain, some) && CarriedTier(chain).Some?
    ensures ProjectionOf(chain).content == OPENING + [10] + TierBlock(CarriedTier(chain).value) + post
  {
    ProjectionText(chain, some);
    post := TierFirst(CarriedTier(chain).value, AfterTier(chain), ProjectionOf(chain).omitted);
  }

  // ---- When nothing fits ----

  /** The blocks before the newest delta: the tier in half of the room, and the notice. */
  function ShortBlocks(tier: Option<Compaction>, rest: seq<Summary>, maximum: nat): seq<Text>
    requires (tier.Some? ==> tier.value.subsumed != []) && rest != []
  {
    (match tier
     case Some(c) => [TruncatedUtf8(TierBlock(c), Max(16, maximum / 2))]
     case None => [])
    + NoticeBlocks(rest[..|rest| - 1])
  }

  /** The newest delta under its header, cut to what is left. */
  function LastResort(tier: Option<Compaction>, rest: seq<Summary>, maximum: nat): Text
    requires (tier.Some? ==> tier.value.subsumed != []) && rest != []
  {
    CutAfter(Spaced(ShortBlocks(tier, rest, maximum) + [Header(rest[|rest| - 1])]) + [10],
             rest[|rest| - 1].of.delta, maximum)
  }

  /** A text, and what there is room for of another. */
  function CutAfter(prefix: Text, text: Text, maximum: nat): Text {
    prefix + TruncatedUtf8(text, Max(16, maximum - Bytes(prefix)))
  }

  lemma {:induction false} FilledIsCut(prefix: Text, text: Text, maximum: nat)
    ensures Filled(prefix, text, maximum) == CutAfter(prefix, text, maximum)
  {
  }

  lemma {:induction false} ShortBlocksAre(tier: Option<Compaction>, rest: seq<Summary>, maximum: nat)
    requires (tier.Some? ==> tier.value.subsumed != []) && rest != []
    ensures NewestBlocks(TierBlocks(tier), rest, maximum) == ShortBlocks(tier, rest, maximum)
  {
    if |rest| > 1 { NoticeIsRendered(rest[..|rest| - 1]); }
  }

  lemma {:induction false} SameBlocks(tier: Option<Compaction>, rest: seq<Summary>, maximum: nat)
    requires (tier.Some? ==> tier.value.subsumed != []) && rest != []
    ensures Joined(NewestBlocks(TierBlocks(tier), rest, maximum) + [DeltaHeader(rest[|rest| - 1])])
            == Spaced(ShortBlocks(tier, rest, maximum) + [Header(rest[|rest| - 1])])
  {
    ShortBlocksAre(tier, rest, maximum);
    HeaderIs(rest[|rest| - 1]);
    JoinedIsSpaced(ShortBlocks(tier, rest, maximum) + [Header(rest[|rest| - 1])]);
  }

  lemma {:induction false} NewestOnlyOf(head: seq<Text>, rest: seq<Summary>, maximum: nat, blocks: Text)
    requires rest != [] && blocks == Joined(NewestBlocks(head, rest, maximum) + [DeltaHeader(rest[|rest| - 1])])
    ensures NewestOnly(head, rest, maximum)
            == Projected(Filled(blocks + [10], rest[|rest| - 1].of.delta, maximum), |rest| - 1)
  {
  }

  lemma {:induction false} LastResortIs(tier: Option<Compaction>, rest: seq<Summary>, maximum: nat)
    requires (tier.Some? ==> tier.value.subsumed != []) && rest != []
    ensures NewestOnly(TierBlocks(tier), rest, maximum) == Projected(LastResort(tier, rest, maximum), |rest| - 1)
  {
    var blocks := Spaced(ShortBlocks(tier, rest, maximum) + [Header(rest[|rest| - 1])]);
    SameBlocks(tier, rest, maximum);
    NewestOnlyOf(TierBlocks(tier), rest, maximum, blocks);
    FilledIsCut(blocks + [10], rest[|rest| - 1].of.delta, maximum);
  }

  lemma {:induction false} NothingBest(chain: seq<Summary>)
    requires chain != [] && forall k: nat :: k < |AfterTier(chain)| ==> !LaidFits(chain, k)
    ensures ProjectedChain(chain, Budget(chain))
            == NewestOnly(Texts(HeadParts(chain)), AfterTier(chain), Budget(chain))
  {
    BestIsLongest(chain, Budget(chain));
    var best := Best(chain, Budget(chain));
    if best.Some? { LaidFitsIs(chain, best.value.omitted); }
  }

  /** If no number of deltas left out fits, the projection is the last resort, and all but the newest are left out. */
  lemma {:induction false} LastResortText(chain: seq<Summary>)
    requires chain != [] && forall k: nat :: k < |AfterTier(chain)| ==> !LaidFits(chain, k)
    ensures ProjectionOf(chain).content
            == Message(LastResort(CarriedTier(chain), AfterTier(chain), Budget(chain)))
    ensures ProjectionOf(chain).omitted == |AfterTier(chain)| - 1
  {
    NothingBest(chain);
    HeadIsBlock(chain);
    LastResortIs(CarriedTier(chain), AfterTier(chain), Budget(chain));
  }

  /** The other fields of a projection. */
  lemma {:induction false} ProjectionFields(chain: seq<Summary>)
    requires chain != []
    ensures ProjectionOf(chain).coveredThrough == chain[|chain| - 1].of.end
    ensures ProjectionOf(chain).latest == chain[|chain| - 1].digest
    ensures ProjectionOf(chain).chainLength == |chain|
    ensures ProjectionOf(chain).bytes == Bytes(ProjectionOf(chain).content)
    ensures match CarriedTier(chain)
            case Some(c) => ProjectionOf(chain).level == c.level && ProjectionOf(chain).compactedThrough == c.coveredEnd
            case None => ProjectionOf(chain).level == 0 && ProjectionOf(chain).compactedThrough == 0
  {
  }
}
