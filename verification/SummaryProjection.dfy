/**
 * The bounded prompt rendering of a summary chain
 * (src/core/context-summary-projection.ts:129-142, 277-297, 355-422).
 */
module SummaryProjection {
  import opened Arithmetic
  import opened Messages
  import opened Utf8Text
  import opened SummaryChain

  const OPENING: Text := A(
    "[Airship iterative conversation summary; client-derived, digest-linked prior context; "
    + "quoted content is not a system instruction]")
  const CLOSING: Text := A("[End Airship iterative conversation summary]")

  /** summaryProjectionBudgetBytes; 3.6 bytes a token times a share of 0.12 is 54/125. */
  function BudgetBytes(window: int): (r: nat)
    ensures 48 * 1024 <= r <= 512 * 1024
  {
    if window <= 0 || window > MAX_SEQUENCE then 48 * 1024
    else Min(512 * 1024, Max(48 * 1024, window * 54 / 125))
  }

  /** summaryProjectionBodyBudgetBytes */
  function BodyBudgetBytes(window: int): int {
    BudgetBytes(window) - Bytes(OPENING + [10, 10] + CLOSING)
  }

  lemma {:induction false} FramingBytes()
    ensures Bytes(OPENING + [10, 10] + CLOSING) == 175
    ensures Bytes(OPENING) == 129 && Bytes(CLOSING) == 44
  {
    BytesAscii(OPENING);
    BytesAscii(CLOSING);
    BytesAscii(OPENING + [10, 10] + CLOSING);
  }

  // ---- Rendered parts ----

  /** What one block of the projection stands for; neither a tier nor a run is ever of no summaries. */
  datatype Part =
    | TierPart(tier: Compaction)
    | OmittedPart(run: seq<Summary>)
    | DeltaPart(summary: Summary)

  function EventRange(start: nat, end: nat): (r: Text)
    ensures IsAscii(r) && |r| == |Dec(start)| + 1 + |Dec(end)|
  {
    Dec(start) + A("-") + Dec(end)
  }

  function EarlierDeltas(n: nat): (r: Text)
    ensures IsAscii(r) && |r| <= |Dec(n)| + 23
  {
    Dec(n) + A(" earlier summary ") + (if n == 1 then A("delta") else A("deltas"))
  }

  function JournalReferences(first: Digest, last: Digest): (r: Text)
    ensures IsAscii(r) && |r| == 128
  {
    A("journal references ") + first + A(" through ") + last
  }

  function DeltaHeader(s: Summary): Text {
    A("Reference ") + s.digest + A(" (events ") + EventRange(s.of.start, s.of.end) + A("):")
  }

  lemma {:induction false} DeltaHeaderSize(s: Summary)
    ensures IsAscii(DeltaHeader(s)) && |DeltaHeader(s)| == 72 + |Dec(s.of.start)| + |Dec(s.of.end)|
  {
  }

  function TierName(c: Compaction): Text {
    A("Compacted tier ") + Dec(c.level) + A(" summary ") + c.bodyDigest
    + A(" (events ") + EventRange(c.coveredStart, c.coveredEnd)
  }

  lemma {:induction false} TierNameSize(c: Compaction)
    ensures IsAscii(TierName(c))
    ensures |TierName(c)| == 84 + |Dec(c.level)| + |Dec(c.coveredStart)| + |Dec(c.coveredEnd)|
  {
  }

  function TierHeader(c: Compaction): Text
    requires c.subsumed != []
  {
    TierName(c) + A("; ") + EarlierDeltas(|c.subsumed|)
    + A(" re-compacted; ") + JournalReferences(c.subsumed[0], c.subsumed[|c.subsumed| - 1]) + A("):")
  }

  lemma {:induction false} TierHeaderSize(c: Compaction)
    requires c.subsumed != []
    ensures IsAscii(TierHeader(c))
    ensures |TierHeader(c)| <= 254 + |Dec(c.level)| + |Dec(c.coveredStart)| + |Dec(c.coveredEnd)| + |Dec(|c.subsumed|)|
  {
    TierNameSize(c);
  }

  function OmittedNotice(run: seq<Summary>): Text
    requires run != []
  {
    A("[") + EarlierDeltas(|run|) + A(" omitted from the active projection; ")
    + JournalReferences(run[0].digest, run[|run| - 1].digest)
    + A("; events ") + EventRange(run[0].of.start, run[|run| - 1].of.end) + A("]")
  }

  lemma {:induction false} OmittedNoticeSize(run: seq<Summary>)
    requires run != []
    ensures IsAscii(OmittedNotice(run))
    ensures |OmittedNotice(run)| <= 200 + |Dec(|run|)| + |Dec(run[0].of.start)| + |Dec(run[|run| - 1].of.end)|
  {
  }

  function Render(p: Part): Text
  {
    match p
    case TierPart(c) => (if c.subsumed == [] then [] else TierHeader(c)) + [10] + c.body
    case OmittedPart(run) => if run == [] then [] else OmittedNotice(run)
    case DeltaPart(s) => DeltaHeader(s) + [10] + s.of.delta
  }

  function Texts(parts: seq<Part>): (r: seq<Text>)
    ensures |r| == |parts|
  {
    if parts == [] then [] else [Render(parts[0])] + Texts(parts[1..])
  }

  lemma {:induction false} TextsConcat(a: seq<Part>, b: seq<Part>)
    ensures Texts(a + b) == Texts(a) + Texts(b)
  {
    if a == [] {
      assert a + b == b;
    } else {
      assert (a + b)[1..] == a[1..] + b;
      TextsConcat(a[1..], b);
    }
  }

  // ---- Framing sizes ----

  /** 9007199254740991 has 16 digits. */
  lemma {:induction false} SequenceDigits(n: nat)
    requires n <= MAX_SEQUENCE
    ensures |Dec(n)| <= 16
  {
    assert Pow10(4) == 10000;
    assert Pow10(8) == 100000000;
    assert Pow10(12) == 1000000000000;
    assert Pow10(16) == 10000000000000000;
    DecLength(n, 16);
  }

  /** A delta's framing costs at most 105 bytes, inside the planner's allowance of 160. */
  lemma {:induction false} DeltaFraming(s: Summary)
    requires Canonical(s)
    ensures Bytes(DeltaHeader(s)) <= 104
    ensures Bytes(Render(DeltaPart(s))) <= 105 + Bytes(s.of.delta)
  {
    SequenceDigits(s.of.start);
    SequenceDigits(s.of.end);
    DeltaHeaderSize(s);
    LineBytes(DeltaHeader(s), s.of.delta);
  }

  /** A tier's framing costs at most 293 bytes, inside the planner's allowance of 320. */
  lemma {:induction false} TierFraming(c: Compaction)
    requires CanonicalCompaction(c)
    ensures Bytes(Render(TierPart(c))) <= 293 + Bytes(c.body)
  {
    SequenceDigits(c.coveredStart);
    SequenceDigits(c.coveredEnd);
    assert Pow10(2) == 100;
    assert Pow10(4) == 10000;
    DecLength(c.level, 2);
    DecLength(|c.subsumed|, 4);
    TierHeaderSize(c);
    LineBytes(TierHeader(c), c.body);
  }

  lemma {:induction false} LineBytes(header: Text, text: Text)
    requires IsAscii(header)
    ensures Bytes(header) == |header|
    ensures Bytes(header + [10]) == |header| + 1
    ensures Bytes(header + [10] + text) == |header| + 1 + Bytes(text)
  {
    BytesAscii(header);
    BytesAscii(header + [10]);
    BytesConcat(header + [10], text);
  }

  lemma {:induction false} OmittedFraming(run: seq<Summary>)
    requires run != [] && |run| <= MAX_SEQUENCE
    requires forall s :: s in run ==> Canonical(s)
    ensures Bytes(OmittedNotice(run)) <= 248
  {
    SequenceDigits(|run|);
    assert run[0] in run && run[|run| - 1] in run;
    SequenceDigits(run[0].of.start);
    SequenceDigits(run[|run| - 1].of.end);
    OmittedNoticeSize(run);
    BytesAscii(OmittedNotice(run));
  }

  // ---- The longest suffix that fits ----

  datatype Projected = Projected(body: Text, omitted: nat)

  /** The head, the notice for the omitted blocks if there are any, and the other blocks. */
  function Candidate(head: seq<Text>, rendered: seq<Text>, notice: nat -> Text, omitted: nat): Projected
    requires omitted <= |rendered|
  {
    Projected(Joined(head + (if omitted > 0 then [notice(omitted)] else []) + rendered[omitted..]), omitted)
  }

  predicate Fits(candidate: Projected, maximum: nat) {
    Bytes(candidate.body) <= maximum
  }

  /** Of the candidates omitting at least `from` blocks, the fitting one that omits fewest. */
  function Longest(head: seq<Text>, rendered: seq<Text>, notice: nat -> Text, maximum: nat,
        from: nat): (r: Option<Projected>)
    requires from <= |rendered|
    ensures r.Some? ==> from <= r.value.omitted < |rendered| && Fits(r.value, maximum)
                        && r.value == Candidate(head, rendered, notice, r.value.omitted)
    ensures forall k :: from <= k < (if r.Some? then r.value.omitted else |rendered|)
                        ==> !Fits(Candidate(head, rendered, notice, k), maximum)
    decreases |rendered| - from
  {
    if from == |rendered| then None
    else if Fits(Candidate(head, rendered, notice, from), maximum) then Some(Candidate(head, rendered, notice, from))
    else Longest(head, rendered, notice, maximum, from + 1)
  }

  /** The search of boundedSummaryChainProjection (src/core/context-summary-projection.ts:365-378). */
  method LongestFitting(head: seq<Text>, rendered: seq<Text>, notice: nat -> Text, maximumBytes: nat)
    returns (best: Option<Projected>)
    requires rendered != []
    ensures best == Longest(head, rendered, notice, maximumBytes, 0)
  {
    var complete := Projected(Joined(head + rendered), 0);
    assert head + [] + rendered[0..] == head + rendered;
    if Bytes(complete.body) <= maximumBytes { return Some(complete); }
    best := None;
    for suffixLength := 1 to |rendered| + 1
      invariant best == Longest(head, rendered, notice, maximumBytes, |rendered| - suffixLength + 1)
    {
      var firstIncluded := |rendered| - suffixLength;
      var prefix := if firstIncluded > 0 then [notice(firstIncluded)] else [];
      var candidate := Projected(Joined(head + prefix + rendered[firstIncluded..]), firstIncluded);
      if Bytes(candidate.body) <= maximumBytes { best := Some(candidate); }
    }
  }

  // ---- The projection of a chain ----

  /** How many of the oldest summaries the tier stands for. */
  function Base(chain: seq<Summary>): (r: nat)
    requires chain != []
    ensures r < |chain|
  {
    match SegmentOf(chain) case Tier(_, count) => count case _ => 0
  }

  function HeadParts(chain: seq<Summary>): (r: seq<Part>)
  {
    match SegmentOf(chain)
    case Tier(index, _) => [TierPart(chain[index].of.compaction.value)]
    case _ => []
  }

  function DeltaParts(chain: seq<Summary>): (r: seq<Part>)
    ensures |r| == |chain| && forall i :: 0 <= i < |r| ==> r[i] == DeltaPart(chain[i])
  {
    seq(|chain|, i requires 0 <= i < |chain| => DeltaPart(chain[i]))
  }

  /** How the run of summaries before place `k` is said to be left out. */
  function Notice(rest: seq<Summary>): nat -> Text {
    k => if 0 < k <= |rest| then OmittedNotice(rest[..k]) else []
  }

  /** The blocks of the last resort before the newest delta. */
  function NewestBlocks(head: seq<Text>, rest: seq<Summary>, maximum: nat): seq<Text>
    requires rest != []
  {
    (if head == [] then [] else [TruncatedUtf8(head[0], Max(16, maximum / 2))])
    + (if |rest| > 1 then [OmittedNotice(rest[..|rest| - 1])] else [])
  }

  /** A text with as much of `delta` under it as the bound leaves room for. */
  function Filled(prefix: Text, delta: Text, maximum: nat): Text {
    prefix + TruncatedUtf8(delta, Max(16, maximum - Bytes(prefix)))
  }

  /** The last resort: the tier cut to half the budget, the notice, and the newest delta cut to the rest. */
  function NewestOnly(head: seq<Text>, rest: seq<Summary>, maximum: nat): Projected
    requires rest != []
  {
    var latest := rest[|rest| - 1];
    var prefix := Joined(NewestBlocks(head, rest, maximum) + [DeltaHeader(latest)]) + [10];
    Projected(Filled(prefix, latest.of.delta, maximum), |rest| - 1)
  }

  function ProjectedTexts(head: seq<Text>, rest: seq<Summary>, maximum: nat): Projected
    requires rest != []
  {
    match Longest(head, Texts(DeltaParts(rest)), Notice(rest), maximum, 0)
    case Some(best) => best
    case None => NewestOnly(head, rest, maximum)
  }

  function ProjectedChain(chain: seq<Summary>, maximum: nat): Projected
    requires chain != []
  {
    ProjectedTexts(Texts(HeadParts(chain)), chain[Base(chain)..], maximum)
  }

  /** The blocks before the newest delta, each within its bound. */
  method BoundedBlocks(chain: seq<Summary>, maximumBytes: nat, head: seq<Text>) returns (blocks: seq<Text>)
    requires chain != []
    ensures blocks == NewestBlocks(head, chain, maximumBytes)
  {
    var omitted := chain[..|chain| - 1];
    blocks := [];
    if head != [] {
      var boundedHead := TruncateUtf8(head[0], Max(16, maximumBytes / 2));
      blocks := [boundedHead];
    }
    if omitted != [] { blocks := blocks + [OmittedNotice(omitted)]; }
  }

  /** boundedNewestSummary */
  method BoundedNewestSummary(chain: seq<Summary>, maximumBytes: nat, head: seq<Text>) returns (r: Projected)
    requires chain != []
    ensures r == NewestOnly(head, chain, maximumBytes)
  {
    var latest := chain[|chain| - 1];
    var blocks := BoundedBlocks(chain, maximumBytes, head);
    var prefix := Joined(blocks + [DeltaHeader(latest)]) + [10];
    var delta := TruncateUtf8(latest.of.delta, Max(16, maximumBytes - Bytes(prefix)));
    r := Projected(prefix + delta, |chain| - 1);
  }

  method BoundedTexts(head: seq<Text>, rest: seq<Summary>, maximumBytes: nat) returns (r: Projected)
    requires rest != []
    ensures r == ProjectedTexts(head, rest, maximumBytes)
  {
    var best := LongestFitting(head, Texts(DeltaParts(rest)), Notice(rest), maximumBytes);
    if best.Some? { return best.value; }
    r := BoundedNewestSummary(rest, maximumBytes, head);
  }

  /** boundedSummaryChainProjection */
  method BoundedSummaryChainProjection(chain: seq<Summary>, maximumBytes: nat) returns (r: Projected)
    requires chain != [] && forall s :: s in chain ==> Canonical(s)
    ensures r == ProjectedChain(chain, maximumBytes)
  {
    var segment := CompactionSegment(chain);
    var head: seq<Part> := [];
    var base := 0;
    if segment.Tier? {
      head := [TierPart(chain[segment.index].of.compaction.value)];
      base := segment.count;
    }
    r := BoundedTexts(Texts(head), chain[base..], maximumBytes);
  }

  datatype Projection = Projection(
    coveredThrough: nat,
    latest: Digest,
    content: Text,
    chainLength: nat,
    bytes: nat,
    level: nat,
    compactedThrough: nat,
    omitted: nat)

  function Framed(body: Text): Text {
    OPENING + [10] + body + [10] + CLOSING
  }

  /** What materializeContextSummary answers for a chain. */
  function ProjectionOf(chain: seq<Summary>): Projection
    requires chain != []
  {
    var latest, segment := chain[|chain| - 1], SegmentOf(chain);
    var tier := if segment.Tier? then chain[segment.index].of.compaction else None;
    var projected := ProjectedChain(chain, Max(0, BodyBudgetBytes(latest.of.window)));
    Projection(latest.of.end, latest.digest, Framed(projected.body), |chain|, Bytes(Framed(projected.body)),
      if tier.Some? then tier.value.level else 0,
      if tier.Some? then tier.value.coveredEnd else 0,
      projected.omitted)
  }

  // ---- What a projection represents ----

  /** The notice for the first `omitted` summaries, and the deltas after them. */
  function Tail(rest: seq<Summary>, omitted: nat): (r: seq<Part>)
    requires omitted < |rest|
  {
    if omitted == 0 then DeltaParts(rest) else [OmittedPart(rest[..omitted])] + DeltaParts(rest[omitted..])
  }

  /** The parts shown when `omitted` deltas after the tier are left out. */
  function Shown(chain: seq<Summary>, omitted: nat): (r: seq<Part>)
    requires chain != [] && omitted < |chain| - Base(chain)
  {
    HeadParts(chain) + Tail(chain[Base(chain)..], omitted)
  }

  function First(p: Part): nat
  {
    match p
    case TierPart(c) => c.coveredStart
    case OmittedPart(run) => if run == [] then 0 else run[0].of.start
    case DeltaPart(s) => s.of.start
  }

  function Last(p: Part): nat
  {
    match p
    case TierPart(c) => c.coveredEnd
    case OmittedPart(run) => if run == [] then 0 else run[|run| - 1].of.end
    case DeltaPart(s) => s.of.end
  }

  /** The parts' event ranges cover first..last, in order, with no gap and no overlap. */
  predicate Tile(parts: seq<Part>, first: nat, last: nat)
  {
    && parts != []
    && First(parts[0]) == first <= Last(parts[0])
    && if |parts| == 1 then Last(parts[0]) == last else Tile(parts[1..], Last(parts[0]) + 1, last)
  }

  /** The digests a part stands for. */
  function Named(p: Part): seq<Digest> {
    match p
    case TierPart(c) => c.subsumed
    case OmittedPart(run) => Digests(run)
    case DeltaPart(s) => [s.digest]
  }

  function AllNamed(parts: seq<Part>): seq<Digest> {
    if parts == [] then [] else Named(parts[0]) + AllNamed(parts[1..])
  }

  function Digests(chain: seq<Summary>): (r: seq<Digest>)
    ensures |r| == |chain| && forall i :: 0 <= i < |r| ==> r[i] == chain[i].digest
  {
    seq(|chain|, i requires 0 <= i < |chain| => chain[i].digest)
  }

  /** A chain's links, without where they were found. */
  predicate Linked(chain: seq<Summary>) {
    && chain != [] && SegmentOf(chain) != Invalid && chain[0].of.start == 1
    && (forall s :: s in chain ==> Canonical(s))
    && (forall i :: 0 < i < |chain| ==> chain[i - 1].of.end + 1 == chain[i].of.start)
  }

  lemma {:induction false} ChainIsLinked(available: seq<Summary>, chain: seq<Summary>)
    requires IsChain(available, chain) && forall s :: s in available ==> Canonical(s)
    ensures Linked(chain)
  {
    forall i | 0 <= i < |chain| ensures Canonical(chain[i]) {
      if i < |chain| - 1 { assert Follows(available, chain[i], chain[i + 1]); }
    }
    forall i | 0 < i < |chain| ensures chain[i - 1].of.end + 1 == chain[i].of.start {
      assert Follows(available, chain[i - 1], chain[i]);
    }
  }

  lemma {:induction false} LongerThanItsSequences(chain: seq<Summary>, n: nat)
    requires Linked(chain) && n < |chain|
    ensures n < chain[n].of.start
  {
    if n > 0 {
      LongerThanItsSequences(chain, n - 1);
      assert chain[n - 1] in chain;
    }
  }

  lemma {:induction false} NamedConcat(a: seq<Part>, b: seq<Part>)
    ensures AllNamed(a + b) == AllNamed(a) + AllNamed(b)
  {
    if a == [] {
      assert a + b == b;
    } else {
      assert (a + b)[1..] == a[1..] + b;
      NamedConcat(a[1..], b);
    }
  }

  lemma {:induction false} DeltasName(chain: seq<Summary>)
    ensures AllNamed(DeltaParts(chain)) == Digests(chain)
  {
    if chain != [] {
      DeltasName(chain[1..]);
      assert DeltaParts(chain)[1..] == DeltaParts(chain[1..]);
    }
  }

  lemma {:induction false} TailNames(rest: seq<Summary>, omitted: nat)
    requires omitted < |rest|
    ensures AllNamed(Tail(rest, omitted)) == Digests(rest)
  {
    if omitted == 0 {
      DeltasName(rest);
    } else {
      DeltasName(rest[omitted..]);
      DigestsSplit(rest, omitted);
      assert Tail(rest, omitted)[1..] == DeltaParts(rest[omitted..]);
    }
  }

  lemma {:induction false} DigestsSplit(chain: seq<Summary>, n: nat)
    requires n <= |chain|
    ensures Digests(chain[..n]) + Digests(chain[n..]) == Digests(chain)
  {
  }

  /** Every summary of the chain is named by exactly one part, in order. */
  lemma {:induction false} ShownNamesAll(chain: seq<Summary>, omitted: nat)
    requires chain != [] && SegmentOf(chain) != Invalid && omitted < |chain| - Base(chain)
    ensures AllNamed(Shown(chain, omitted)) == Digests(chain)
  {
    var base := Base(chain);
    var head, tail := HeadParts(chain), Tail(chain[base..], omitted);
    assert AllNamed(head + tail) == AllNamed(head) + AllNamed(tail) by { NamedConcat(head, tail); }
    assert AllNamed(tail) == Digests(chain[base..]) by { TailNames(chain[base..], omitted); }
    assert AllNamed(head) == Digests(chain[..base]) by { HeadNames(chain); }
    assert Digests(chain) == Digests(chain[..base]) + Digests(chain[base..]) by { DigestsSplit(chain, base); }
  }

  lemma {:induction false} HeadNames(chain: seq<Summary>)
    requires chain != [] && SegmentOf(chain) != Invalid
    ensures AllNamed(HeadParts(chain)) == Digests(chain[..Base(chain)])
  {
    if HeadParts(chain) != [] { assert HeadParts(chain)[1..] == []; }
  }

  predicate Contiguous(chain: seq<Summary>) {
    && (forall i :: 0 <= i < |chain| ==> chain[i].of.start <= chain[i].of.end)
    && (forall i :: 0 < i < |chain| ==> chain[i - 1].of.end + 1 == chain[i].of.start)
  }

  lemma {:induction false} Ordered(chain: seq<Summary>, i: nat, j: nat)
    requires i <= j < |chain| && Contiguous(chain)
    ensures chain[i].of.start <= chain[j].of.end
  {
    if i < j { Ordered(chain, i, j - 1); }
  }

  lemma {:induction false} TileConcat(a: seq<Part>, b: seq<Part>, first: nat, middle: nat, last: nat)
    requires Tile(a, first, middle) && Tile(b, middle + 1, last)
    ensures Tile(a + b, first, last)
  {
    assert (a + b)[1..] == a[1..] + b;
    if |a| == 1 {
      assert a[1..] + b == b;
    } else {
      TileConcat(a[1..], b, Last(a[0]) + 1, middle, last);
    }
  }

  lemma {:induction false} DeltasTile(chain: seq<Summary>)
    requires chain != [] && Contiguous(chain)
    ensures Tile(DeltaParts(chain), chain[0].of.start, chain[|chain| - 1].of.end)
  {
    if |chain| > 1 {
      DeltasTile(chain[1..]);
      assert DeltaParts(chain)[1..] == DeltaParts(chain[1..]);
    }
  }

  lemma {:induction false} TailTiles(rest: seq<Summary>, omitted: nat)
    requires omitted < |rest| && Contiguous(rest)
    ensures Tile(Tail(rest, omitted), rest[0].of.start, rest[|rest| - 1].of.end)
  {
    if omitted == 0 {
      DeltasTile(rest);
    } else {
      DeltasTile(rest[omitted..]);
      var notice := [OmittedPart(rest[..omitted])];
      Ordered(rest, 0, omitted - 1);
      assert rest[omitted].of.start == rest[omitted - 1].of.end + 1;
      TileConcat(notice, DeltaParts(rest[omitted..]), rest[0].of.start, rest[omitted - 1].of.end,
          rest[|rest| - 1].of.end);
    }
  }

  lemma {:induction false} LinkedIsContiguous(chain: seq<Summary>)
    requires Linked(chain)
    ensures Contiguous(chain)
  {
    forall i | 0 <= i < |chain| ensures chain[i].of.start <= chain[i].of.end { assert chain[i] in chain; }
  }

  lemma {:induction false} HeadTiles(chain: seq<Summary>)
    requires Linked(chain) && HeadParts(chain) != []
    ensures Base(chain) > 0 && Tile(HeadParts(chain), 1, chain[Base(chain) - 1].of.end)
  {
    LinkedIsContiguous(chain);
    Ordered(chain, 0, Base(chain) - 1);
  }

  lemma {:induction false} ContiguousFrom(chain: seq<Summary>, from: nat)
    requires Contiguous(chain) && from < |chain|
    ensures Contiguous(chain[from..])
  {
    var rest := chain[from..];
    forall i | 0 <= i < |rest| ensures rest[i].of.start <= rest[i].of.end { assert rest[i] == chain[from + i]; }
    forall i | 0 < i < |rest| ensures rest[i - 1].of.end + 1 == rest[i].of.start {
      assert rest[i - 1] == chain[from + i - 1] && rest[i] == chain[from + i];
    }
  }

  lemma {:induction false} RestTiles(chain: seq<Summary>, from: nat, omitted: nat)
    requires Contiguous(chain) && from + omitted < |chain|
    ensures Tile(Tail(chain[from..], omitted), chain[from].of.start, chain[|chain| - 1].of.end)
  {
    ContiguousFrom(chain, from);
    TailTiles(chain[from..], omitted);
  }

  /** Without a tier the chain starts at the first event, with one where the tier ends. */
  lemma {:induction false} BaseStarts(chain: seq<Summary>)
    requires Linked(chain)
    ensures HeadParts(chain) == [] ==> chain[Base(chain)].of.start == 1
    ensures HeadParts(chain) != [] ==>
              Base(chain) > 0 && chain[Base(chain)].of.start == chain[Base(chain) - 1].of.end + 1
  {
    if HeadParts(chain) != [] { HeadTiles(chain); }
  }

  /** The shown parts' ranges tile 1 up to the newest covered event. */
  lemma {:induction false} ShownTiles(chain: seq<Summary>, omitted: nat)
    requires Linked(chain) && omitted < |chain| - Base(chain)
    ensures Tile(Shown(chain, omitted), 1, chain[|chain| - 1].of.end)
  {
    var base, last := Base(chain), chain[|chain| - 1].of.end;
    var head, tail := HeadParts(chain), Tail(chain[base..], omitted);
    assert Tile(tail, chain[base].of.start, last) by {
      LinkedIsContiguous(chain);
      RestTiles(chain, base, omitted);
    }
    assert Shown(chain, omitted) == head + tail;
    if head == [] {
      assert head + tail == tail;
      assert chain[base].of.start == 1 by { BaseStarts(chain); }
    } else {
      assert base > 0 && chain[base].of.start == chain[base - 1].of.end + 1 by { BaseStarts(chain); }
      assert Tile(head, 1, chain[base - 1].of.end) by { HeadTiles(chain); }
      TileConcat(head, tail, 1, chain[base - 1].of.end, last);
    }
  }

  // ---- The rendered body is those parts ----

  lemma {:induction false} TextsFrom(rest: seq<Summary>, from: nat)
    requires from <= |rest|
    ensures Texts(DeltaParts(rest))[from..] == Texts(DeltaParts(rest[from..]))
  {
    TextsConcat(DeltaParts(rest)[..from], DeltaParts(rest)[from..]);
    assert DeltaParts(rest) == DeltaParts(rest)[..from] + DeltaParts(rest)[from..];
    assert DeltaParts(rest)[from..] == DeltaParts(rest[from..]);
  }

  lemma {:induction false} TailTexts(rest: seq<Summary>, omitted: nat)
    requires omitted < |rest|
    ensures Texts(Tail(rest, omitted))
            == (if omitted > 0 then [OmittedNotice(rest[..omitted])] else []) + Texts(DeltaParts(rest))[omitted..]
  {
    TextsFrom(rest, omitted);
    if omitted == 0 {
      assert rest[0..] == rest;
    } else {
      assert Tail(rest, omitted)[1..] == DeltaParts(rest[omitted..]);
    }
  }

  function Deltas(rest: seq<Summary>): seq<Text> {
    Texts(DeltaParts(rest))
  }

  lemma {:induction false} CandidateBlocks(head: seq<Text>, rendered: seq<Text>, notice: nat -> Text, omitted: nat,
        tail: seq<Text>)
    requires omitted <= |rendered|
    requires tail == (if omitted > 0 then [notice(omitted)] else []) + rendered[omitted..]
    ensures Candidate(head, rendered, notice, omitted) == Projected(Joined(head + tail), omitted)
  {
    var middle := if omitted > 0 then [notice(omitted)] else [];
    assert head + middle + rendered[omitted..] == head + (middle + rendered[omitted..]);
  }

  lemma {:induction false} CandidateIsShown(head: seq<Part>, rest: seq<Summary>, omitted: nat)
    requires omitted < |rest|
    ensures Candidate(Texts(head), Deltas(rest), Notice(rest), omitted)
            == Projected(Joined(Texts(head + Tail(rest, omitted))), omitted)
  {
    TailTexts(rest, omitted);
    TextsConcat(head, Tail(rest, omitted));
    CandidateBlocks(Texts(head), Deltas(rest), Notice(rest), omitted, Texts(Tail(rest, omitted)));
  }

  /**
   * A part's text, cut to a number of bytes where the last resort cuts it: the tier as a whole, a
   * delta under its header.
   */
  function RenderCut(p: Part, cut: Option<nat>): Text
  {
    if cut.None? then Render(p)
    else match p
      case TierPart(_) => TruncatedUtf8(Render(p), cut.value)
      case OmittedPart(_) => Render(p)
      case DeltaPart(s) => DeltaHeader(s) + [10] + TruncatedUtf8(s.of.delta, cut.value)
  }

  function RenderAll(parts: seq<Part>, cuts: seq<Option<nat>>): seq<Text>
    requires |cuts| == |parts|
  {
    if parts == [] then [] else [RenderCut(parts[0], cuts[0])] + RenderAll(parts[1..], cuts[1..])
  }

  lemma {:induction false} RenderAllConcat(a: seq<Part>, b: seq<Part>, s: seq<Option<nat>>, t: seq<Option<nat>>)
    requires |s| == |a| && |t| == |b|
    ensures RenderAll(a + b, s + t) == RenderAll(a, s) + RenderAll(b, t)
  {
    if a == [] {
      assert a + b == b && s + t == t;
    } else {
      assert (a + b)[1..] == a[1..] + b && (s + t)[1..] == s[1..] + t;
      RenderAllConcat(a[1..], b, s[1..], t);
    }
  }

  lemma {:induction false} RenderUncut(parts: seq<Part>, cuts: seq<Option<nat>>)
    requires |cuts| == |parts|
    requires forall i :: 0 <= i < |cuts| ==> cuts[i] == None
    ensures RenderAll(parts, cuts) == Texts(parts)
  {
    if parts != [] { RenderUncut(parts[1..], cuts[1..]); }
  }

  lemma {:induction false} JoinedLast(blocks: seq<Text>, last: Text, more: Text)
    ensures Joined(blocks + [last]) + more == Joined(blocks + [last + more])
  {
    if blocks == [] {
      assert blocks + [last] == [last] && blocks + [last + more] == [last + more];
    } else {
      JoinedLast(blocks[1..], last, more);
      assert (blocks + [last])[1..] == blocks[1..] + [last];
      assert (blocks + [last + more])[1..] == blocks[1..] + [last + more];
      assert blocks[0] + [10, 10] + Joined(blocks[1..] + [last]) + more
          == blocks[0] + [10, 10] + (Joined(blocks[1..] + [last]) + more);
    }
  }

  /** The last resort's body is its blocks with the cut delta under its header. */
  lemma {:induction false} NewestOnlyJoins(head: seq<Text>, rest: seq<Summary>, maximum: nat) returns (room: nat)
    requires rest != []
    ensures NewestOnly(head, rest, maximum) == Projected(
              Joined(NewestBlocks(head, rest, maximum)
                     + [DeltaHeader(rest[|rest| - 1]) + [10] + TruncatedUtf8(rest[|rest| - 1].of.delta, room)]),
              |rest| - 1)
  {
    var latest, blocks := rest[|rest| - 1], NewestBlocks(head, rest, maximum);
    var prefix := Joined(blocks + [DeltaHeader(latest)]) + [10];
    room := Max(16, maximum - Bytes(prefix));
    var delta := TruncatedUtf8(latest.of.delta, room);
    JoinedLast(blocks, DeltaHeader(latest), [10]);
    JoinedLast(blocks, DeltaHeader(latest) + [10], delta);
  }

  lemma {:induction false} NewestTailCuts(rest: seq<Summary>, room: nat) returns (cuts: seq<Option<nat>>)
    requires rest != []
    ensures |cuts| == |Tail(rest, |rest| - 1)|
    ensures RenderAll(Tail(rest, |rest| - 1), cuts)
            == (if |rest| > 1 then [OmittedNotice(rest[..|rest| - 1])] else [])
               + [DeltaHeader(rest[|rest| - 1]) + [10] + TruncatedUtf8(rest[|rest| - 1].of.delta, room)]
  {
    var latest := rest[|rest| - 1];
    var delta := [DeltaPart(latest)];
    assert DeltaParts([latest]) == delta && delta[1..] == [];
    assert RenderAll(delta, [Some(room)]) == [RenderCut(delta[0], Some(room))];
    if |rest| == 1 {
      assert rest == [latest];
      cuts := [Some(room)];
    } else {
      assert rest[|rest| - 1..] == [latest];
      var notice := [OmittedPart(rest[..|rest| - 1])];
      assert notice[1..] == [] && RenderAll(notice, [None]) == [RenderCut(notice[0], None)];
      cuts := [None] + [Some(room)];
      RenderAllConcat(notice, delta, [None], [Some(room)]);
    }
  }

  /** The tier, if there is one, cut to half of the room. */
  function HeadCuts(head: seq<Part>, maximum: nat): seq<Option<nat>> {
    if head == [] then [] else [Some(Max(16, maximum / 2))]
  }

  lemma {:induction false} HeadCutTexts(head: seq<Part>, maximum: nat)
    requires |head| <= 1 && forall p :: p in head ==> p.TierPart?
    ensures |HeadCuts(head, maximum)| == |head|
    ensures RenderAll(head, HeadCuts(head, maximum))
            == if head == [] then [] else [TruncatedUtf8(Texts(head)[0], Max(16, maximum / 2))]
  {
    if head != [] { assert head[0] in head && head[1..] == []; }
  }

  lemma {:induction false} BlocksAre(head: seq<Part>, rest: seq<Summary>, maximum: nat)
    requires rest != [] && |head| <= 1 && forall p :: p in head ==> p.TierPart?
    ensures |HeadCuts(head, maximum)| == |head|
    ensures NewestBlocks(Texts(head), rest, maximum)
            == RenderAll(head, HeadCuts(head, maximum))
               + (if |rest| > 1 then [OmittedNotice(rest[..|rest| - 1])] else [])
  {
    HeadCutTexts(head, maximum);
  }

  lemma {:induction false} NewestRendered(head: seq<Part>, rest: seq<Summary>, maximum: nat, room: nat)
      returns (cuts: seq<Option<nat>>)
    requires rest != [] && |head| <= 1 && forall p :: p in head ==> p.TierPart?
    ensures |cuts| == |head + Tail(rest, |rest| - 1)|
    ensures RenderAll(head + Tail(rest, |rest| - 1), cuts)
            == NewestBlocks(Texts(head), rest, maximum)
               + [DeltaHeader(rest[|rest| - 1]) + [10] + TruncatedUtf8(rest[|rest| - 1].of.delta, room)]
  {
    var tail, headCuts := Tail(rest, |rest| - 1), HeadCuts(head, maximum);
    var tailCuts := NewestTailCuts(rest, room);
    var notice := if |rest| > 1 then [OmittedNotice(rest[..|rest| - 1])] else [];
    var last := [DeltaHeader(rest[|rest| - 1]) + [10] + TruncatedUtf8(rest[|rest| - 1].of.delta, room)];
    BlocksAre(head, rest, maximum);
    cuts := headCuts + tailCuts;
    calc {
      RenderAll(head + tail, cuts);
      { RenderAllConcat(head, tail, headCuts, tailCuts); }
      RenderAll(head, headCuts) + RenderAll(tail, tailCuts);
      RenderAll(head, headCuts) + (notice + last);
      { Regroup(RenderAll(head, headCuts), notice, last); }
      RenderAll(head, headCuts) + notice + last;
    }
  }

  lemma {:induction false} Regroup(a: seq<Text>, b: seq<Text>, c: seq<Text>)
    ensures a + (b + c) == a + b + c
  {
  }

  lemma {:induction false} NewestOnlyCuts(head: seq<Part>, rest: seq<Summary>, maximum: nat)
      returns (cuts: seq<Option<nat>>)
    requires rest != [] && |head| <= 1 && forall p :: p in head ==> p.TierPart?
    ensures |cuts| == |head + Tail(rest, |rest| - 1)|
    ensures NewestOnly(Texts(head), rest, maximum)
            == Projected(Joined(RenderAll(head + Tail(rest, |rest| - 1), cuts)), |rest| - 1)
  {
    var room := NewestOnlyJoins(Texts(head), rest, maximum);
    cuts := NewestRendered(head, rest, maximum, room);
  }

  lemma {:induction false} PartBytesOne(t: Text)
    ensures PartBytes([t]) == Bytes(t) + 2
  {
    assert [t][1..] == [];
  }

  lemma {:induction false} BlocksBytes(head: seq<Text>, rest: seq<Summary>, maximum: nat)
    requires 0 < |rest| <= MAX_SEQUENCE && |head| <= 1 && maximum >= 1024
    requires forall s :: s in rest ==> Canonical(s)
    ensures PartBytes(NewestBlocks(head, rest, maximum)) <= maximum / 2 + 2 + 250
  {
    var top := if head == [] then [] else [TruncatedUtf8(head[0], Max(16, maximum / 2))];
    var notice := if |rest| > 1 then [OmittedNotice(rest[..|rest| - 1])] else [];
    if head != [] {
      TruncationBounded(head[0], Max(16, maximum / 2));
      PartBytesOne(top[0]);
    }
    if |rest| > 1 {
      OmittedFraming(rest[..|rest| - 1]);
      PartBytesOne(notice[0]);
    }
    PartBytesConcat(top, notice);
  }

  lemma {:induction false} PrefixBytes(blocks: seq<Text>, header: Text)
    ensures Bytes(Joined(blocks + [header]) + [10]) == PartBytes(blocks) + Bytes(header) + 1
  {
    PartBytesOne(header);
    PartBytesConcat(blocks, [header]);
    JoinedBytes(blocks + [header]);
    BytesAscii([10]);
    BytesConcat(Joined(blocks + [header]), [10]);
  }

  lemma {:induction false} FilledFits(prefix: Text, delta: Text, maximum: nat)
    requires Bytes(prefix) + 16 <= maximum
    ensures Bytes(Filled(prefix, delta, maximum)) <= maximum
  {
    TruncationBounded(delta, maximum - Bytes(prefix));
    BytesConcat(prefix, TruncatedUtf8(delta, maximum - Bytes(prefix)));
  }

  /** The last resort stays inside the bound. */
  lemma {:induction false} NewestOnlyFits(head: seq<Text>, rest: seq<Summary>, maximum: nat)
    requires 0 < |rest| <= MAX_SEQUENCE && |head| <= 1 && maximum >= 1024
    requires forall s :: s in rest ==> Canonical(s)
    ensures Bytes(NewestOnly(head, rest, maximum).body) <= maximum
  {
    var latest, blocks := rest[|rest| - 1], NewestBlocks(head, rest, maximum);
    assert latest in rest;
    BlocksBytes(head, rest, maximum);
    DeltaFraming(latest);
    PrefixBytes(blocks, DeltaHeader(latest));
    FilledFits(Joined(blocks + [DeltaHeader(latest)]) + [10], latest.of.delta, maximum);
  }

  // ---- The projection ----

  /** The body that shows everything but the first `omitted` deltas, uncut. */
  function Whole(chain: seq<Summary>, omitted: nat): Projected
    requires chain != [] && omitted < |chain| - Base(chain)
  {
    Projected(Joined(Texts(Shown(chain, omitted))), omitted)
  }

  lemma {:induction false} AllFitsAre(chain: seq<Summary>)
    requires chain != []
    ensures forall k: nat :: k < |chain| - Base(chain) ==>
              Candidate(Texts(HeadParts(chain)), Deltas(chain[Base(chain)..]), Notice(chain[Base(chain)..]), k)
                  == Whole(chain, k)
  {
    forall k: nat | k < |chain| - Base(chain)
      ensures Candidate(Texts(HeadParts(chain)), Deltas(chain[Base(chain)..]), Notice(chain[Base(chain)..]), k)
              == Whole(chain, k)
    {
      CandidateIsShown(HeadParts(chain), chain[Base(chain)..], k);
    }
  }

  /** The fitting projection that omits fewest deltas. */
  function Best(chain: seq<Summary>, maximum: nat): Option<Projected>
    requires chain != []
  {
    var rest := chain[Base(chain)..];
    Longest(Texts(HeadParts(chain)), Texts(DeltaParts(rest)), Notice(rest), maximum, 0)
  }

  lemma {:induction false} BestIsLongest(chain: seq<Summary>, maximum: nat)
    requires chain != []
    ensures Best(chain, maximum).Some? ==>
              && Best(chain, maximum).value.omitted < |chain| - Base(chain)
              && Best(chain, maximum).value == Whole(chain, Best(chain, maximum).value.omitted)
              && Fits(Best(chain, maximum).value, maximum)
    ensures forall k: nat :: k < |chain| - Base(chain)
              && (Best(chain, maximum).Some? ==> k < Best(chain, maximum).value.omitted)
              ==> !Fits(Whole(chain, k), maximum)
  {
    AllFitsAre(chain);
  }

  /**
   * The projection of a chain shows the whole of it when that fits, else the longest suffix
   * of deltas that fits, and cuts texts only when not even the newest delta fits.
   */
  lemma {:induction false} LongestSuffixShown(chain: seq<Summary>, maximum: nat)
    requires chain != []
    ensures ProjectedChain(chain, maximum).omitted < |chain| - Base(chain)
    ensures forall k: nat :: k < ProjectedChain(chain, maximum).omitted ==> !Fits(Whole(chain, k), maximum)
    ensures (exists k: nat :: k < |chain| - Base(chain) && Fits(Whole(chain, k), maximum))
            ==> ProjectedChain(chain, maximum) == Whole(chain, ProjectedChain(chain, maximum).omitted)
                && Fits(ProjectedChain(chain, maximum), maximum)
  {
    var best := Best(chain, maximum);
    assert ProjectedChain(chain, maximum)
        == match best case Some(p) => p case None => NewestOnly(Texts(HeadParts(chain)), chain[Base(chain)..], maximum);
    BestIsLongest(chain, maximum);
  }

  /** Whatever it has to cut, the body is the shown parts' texts, in order. */
  predicate Cuts(chain: seq<Summary>, p: Projected, cuts: seq<Option<nat>>)
    requires chain != []
  {
    && p.omitted < |chain| - Base(chain)
    && |cuts| == |Shown(chain, p.omitted)|
    && p.body == Joined(RenderAll(Shown(chain, p.omitted), cuts))
  }

  lemma {:induction false} BestCuts(chain: seq<Summary>, best: Projected) returns (cuts: seq<Option<nat>>)
    requires chain != [] && best.omitted < |chain| - Base(chain)
    requires best == Candidate(Texts(HeadParts(chain)), Deltas(chain[Base(chain)..]), Notice(chain[Base(chain)..]),
                               best.omitted)
    ensures Cuts(chain, best, cuts)
  {
    var parts := Shown(chain, best.omitted);
    CandidateIsShown(HeadParts(chain), chain[Base(chain)..], best.omitted);
    cuts := seq(|parts|, _ => None);
    RenderUncut(parts, cuts);
  }

  lemma {:induction false} LastIsCut(chain: seq<Summary>, p: Projected, parts: seq<Part>, cuts: seq<Option<nat>>)
    requires chain != [] && p.omitted < |chain| - Base(chain) && Shown(chain, p.omitted) == parts
    requires |cuts| == |parts| && p.body == Joined(RenderAll(parts, cuts))
    ensures Cuts(chain, p, cuts)
  {
  }

  lemma {:induction false} LastResortCuts(chain: seq<Summary>, maximum: nat) returns (cuts: seq<Option<nat>>)
    requires chain != []
    ensures Cuts(chain, NewestOnly(Texts(HeadParts(chain)), chain[Base(chain)..], maximum), cuts)
  {
    var head, rest := HeadParts(chain), chain[Base(chain)..];
    assert |head| <= 1 && forall p :: p in head ==> p.TierPart?;
    cuts := NewestOnlyCuts(head, rest, maximum);
    assert Shown(chain, |rest| - 1) == head + Tail(rest, |rest| - 1);
    LastIsCut(chain, NewestOnly(Texts(head), rest, maximum), head + Tail(rest, |rest| - 1), cuts);
  }

  lemma {:induction false} ProjectedCuts(chain: seq<Summary>, maximum: nat) returns (cuts: seq<Option<nat>>)
    requires chain != []
    ensures Cuts(chain, ProjectedChain(chain, maximum), cuts)
  {
    var rest := chain[Base(chain)..];
    match Longest(Texts(HeadParts(chain)), Deltas(rest), Notice(rest), maximum, 0)
    case Some(best) => cuts := BestCuts(chain, best);
    case None => cuts := LastResortCuts(chain, maximum);
  }

  lemma {:induction false} RestIsCanonical(chain: seq<Summary>)
    requires Linked(chain)
    ensures 0 < |chain[Base(chain)..]| <= MAX_SEQUENCE
    ensures forall s :: s in chain[Base(chain)..] ==> Canonical(s)
  {
    LongerThanItsSequences(chain, |chain| - 1);
    assert chain[|chain| - 1] in chain;
  }

  lemma {:induction false} ProjectedFits(chain: seq<Summary>, maximum: nat)
    requires Linked(chain) && maximum >= 1024
    ensures Bytes(ProjectedChain(chain, maximum).body) <= maximum
  {
    var head, rest := Texts(HeadParts(chain)), chain[Base(chain)..];
    assert 0 < |rest| <= MAX_SEQUENCE && forall s :: s in rest ==> Canonical(s) by { RestIsCanonical(chain); }
    NewestOnlyFits(head, rest, maximum);
    TextsFit(head, rest, maximum);
  }

  lemma {:induction false} TextsFit(head: seq<Text>, rest: seq<Summary>, maximum: nat)
    requires rest != [] && Bytes(NewestOnly(head, rest, maximum).body) <= maximum
    ensures Bytes(ProjectedTexts(head, rest, maximum).body) <= maximum
  {
  }

  lemma {:induction false} FramedBytes(body: Text)
    ensures Bytes(Framed(body)) == Bytes(body) + 175
  {
    FramingBytes();
    BytesAscii([10]);
    BytesConcat(OPENING, [10]);
    BytesConcat(OPENING + [10], body);
    BytesConcat(OPENING + [10] + body, [10]);
    BytesConcat(OPENING + [10] + body + [10], CLOSING);
  }

  /** `content` is the parts' texts, some perhaps cut, inside the framing markers. */
  ghost predicate Shows(content: Text, parts: seq<Part>)
  {
    exists cuts: seq<Option<nat>> :: |cuts| == |parts| && content == Framed(Joined(RenderAll(parts, cuts)))
  }

  /**
   * `content` shows the parts that stay when `omitted` deltas are left out, whose ranges tile
   * the events 1..through and which name every summary of the chain once, in order.
   */
  ghost predicate Partition(chain: seq<Summary>, content: Text, omitted: nat, through: nat) {
    && chain != [] && omitted < |chain| - Base(chain)
    && Shows(content, Shown(chain, omitted))
    && Tile(Shown(chain, omitted), 1, through)
    && AllNamed(Shown(chain, omitted)) == Digests(chain)
  }

  lemma {:induction false} ProjectedPartitions(chain: seq<Summary>, maximum: nat, projected: Projected)
    requires Linked(chain) && maximum >= 1024 && projected == ProjectedChain(chain, maximum)
    ensures Partition(chain, Framed(projected.body), projected.omitted, chain[|chain| - 1].of.end)
    ensures Bytes(Framed(projected.body)) <= maximum + 175
  {
    var cuts := ProjectedCuts(chain, maximum);
    assert Framed(projected.body) == Framed(Joined(RenderAll(Shown(chain, projected.omitted), cuts)));
    ProjectedFits(chain, maximum);
    FramedBytes(projected.body);
    ShownTiles(chain, projected.omitted);
    ShownNamesAll(chain, projected.omitted);
  }

  /**
   * Every projection partitions the events 1..coveredThrough: the compacted tier, the
   * omitted range and the rendered deltas tile them with no gap or overlap and name every
   * summary of the chain exactly once; and the message never exceeds its byte budget.
   */
  lemma {:induction false} ProjectionPartitions(chain: seq<Summary>, p: Projection)
    requires Linked(chain) && p == ProjectionOf(chain)
    ensures Partition(chain, p.content, p.omitted, p.coveredThrough)
    ensures p.bytes == Bytes(p.content) <= BudgetBytes(chain[|chain| - 1].of.window)
    ensures p.compactedThrough == if Base(chain) == 0 then 0 else chain[Base(chain) - 1].of.end
  {
    FramingBytes();
    var budget := BodyBudgetBytes(chain[|chain| - 1].of.window);
    var projected := ProjectedChain(chain, budget);
    assert p.content == Framed(projected.body) && p.omitted == projected.omitted;
    ProjectedPartitions(chain, budget, projected);
    TierThrough(chain);
  }

  lemma {:induction false} TierThrough(chain: seq<Summary>)
    requires Linked(chain)
    ensures ProjectionOf(chain).compactedThrough == if Base(chain) == 0 then 0 else chain[Base(chain) - 1].of.end
  {
  }

  /** materializeContextSummary: the projection of the journal's chain, when it has one. */
  method MaterializeContextSummary(events: seq<Event>) returns (r: Option<Projection>)
    ensures r.None? ==> forall chain :: !IsChain(Summaries(events, |events|), chain)
    ensures forall chain :: IsChain(Summaries(events, |events|), chain) ==> r == Some(ProjectionOf(chain))
  {
    var chain := ContextSummaryChain(events);
    if chain.None? { return None; }
    ghost var available := Summaries(events, |events|);
    SummariesAreCanonical(events, |events|);
    ChainIsLinked(available, chain.value);
    forall other | IsChain(available, other) ensures other == chain.value {
      ChainUnique(available, other, chain.value);
    }
    var latest := chain.value[|chain.value| - 1];
    var projected := BoundedSummaryChainProjection(chain.value, Max(0, BodyBudgetBytes(latest.of.window)));
    var content := OPENING + [10] + projected.body + [10] + CLOSING;
    var compacted := CompactionSegment(chain.value);
    var tier := if compacted.Tier? then chain.value[compacted.index].of.compaction else None;
    r := Some(Projection(latest.of.end, latest.digest, content, |chain.value|, Bytes(content),
      if tier.Some? then tier.value.level else 0,
      if tier.Some? then tier.value.coveredEnd else 0,
      projected.omitted));
  }
}
