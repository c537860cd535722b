/** Summary commitments and the chain they form (src/core/context-summary-projection.ts:27-353). */
module SummaryChain {
  import opened Messages
  import opened Utf8Text

  const MAX_COMPACTION_LEVEL: nat := 64
  const MAX_SUBSUMED_SUMMARIES: nat := 4096
  const MAX_SUMMARY_BYTES: nat := 64 * 1024
  const MAX_SEQUENCE: nat := 9007199254740991  // Number.MAX_SAFE_INTEGER

  /** "sha256:" and 43 base64url characters. */
  type Digest = d: Text | |d| == 50 && IsAscii(d)
    witness seq(50, _ => 65)

  /** Producer label of a body; a port label carries the response digest of its provenance. */
  datatype Method = Extractive | SummarizerPort(response: Option<Digest>)

  /** A higher-tier body that replaces the oldest run of the chain. */
  datatype Compaction = Compaction(
    level: nat,
    subsumed: seq<Digest>,
    coveredStart: nat,
    coveredEnd: nat,
    producer: Method,
    body: Text,
    bodyDigest: Digest)

  /** Everything of a summary but its own digest. */
  datatype Commitment = Commitment(
    window: nat,
    threshold: int,  // basis points
    target: int,
    start: nat,
    end: nat,
    startPrevious: Option<Digest>,  // None: "genesis"
    endDigest: Digest,
    previous: Option<Digest>,
    delta: Text,
    compaction: Option<Compaction>,
    producer: Method,
    deltaDigest: Digest,
    tokensBefore: nat,
    tokensAfter: nat)

  datatype Summary = Summary(of: Commitment, digest: Digest)

  predicate Blank(t: Text) {
    forall i :: 0 <= i < |t| ==> IsSpace(t[i])
  }

  predicate NoRepeats(s: seq<Digest>) {
    forall i, j :: 0 <= i < j < |s| ==> s[i] != s[j]
  }

  /** canonicalSummaryCompaction accepts it. */
  predicate CanonicalCompaction(c: Compaction) {
    && 1 <= c.level <= MAX_COMPACTION_LEVEL
    && 1 <= |c.subsumed| <= MAX_SUBSUMED_SUMMARIES && NoRepeats(c.subsumed)
    && 1 <= c.coveredStart <= c.coveredEnd <= MAX_SEQUENCE
    && (c.producer.SummarizerPort? ==> c.producer.response == Some(c.bodyDigest))
    && !Blank(c.body) && Bytes(c.body) <= MAX_SUMMARY_BYTES
  }

  /** canonicalContextSummary accepts it. */
  predicate Canonical(s: Summary) {
    && 2048 <= s.of.window <= 4194304
    && 8000 <= s.of.threshold <= 8500 && 4000 <= s.of.target < s.of.threshold
    && 1 <= s.of.start <= s.of.end <= MAX_SEQUENCE
    && !Blank(s.of.delta) && Bytes(s.of.delta) <= MAX_SUMMARY_BYTES
    && (s.of.compaction.Some? ==>
          CanonicalCompaction(s.of.compaction.value) && s.of.compaction.value.coveredEnd < s.of.start)
    && 2 <= s.of.tokensBefore <= MAX_SEQUENCE
    && 1 <= s.of.tokensAfter < s.of.tokensBefore
  }

  /** A journal event, as far as compaction looks at it; its sequence number is its place. */
  datatype Body = SummaryUpdated(payload: Summary) | TurnCompleted | Other

  datatype Event = Event(previous: Option<Digest>, digest: Digest, body: Body)

  /** contextSummaries: the canonical payloads among the first `n` events. */
  function Summaries(events: seq<Event>, n: nat): seq<Summary>
    requires n <= |events|
  {
    if n == 0 then []
    else
      var own := if events[n - 1].body.SummaryUpdated? && Canonical(events[n - 1].body.payload)
                 then [events[n - 1].body.payload] else [];
      Summaries(events, n - 1) + own
  }

  lemma {:induction false} SummariesAreCanonical(events: seq<Event>, n: nat)
    requires n <= |events|
    ensures forall s :: s in Summaries(events, n) ==> Canonical(s)
  {
    if n > 0 { SummariesAreCanonical(events, n - 1); }
  }

  // ---- The newest tier ----

  /** Position of the newest summary among the first `n` that carries a tier. */
  function NewestTier(chain: seq<Summary>, n: nat): (r: Option<nat>)
    requires n <= |chain|
    ensures r.Some? ==> r.value < n && chain[r.value].of.compaction.Some?
    ensures forall i :: (if r.Some? then r.value else -1) < i < n ==> chain[i].of.compaction.None?
  {
    if n == 0 then None
    else if chain[n - 1].of.compaction.Some? then Some(n - 1)
    else NewestTier(chain, n - 1)
  }

  datatype Segment = NoTier | Invalid | Tier(index: nat, count: nat)

  /** A tier names exactly the oldest run of the chain and takes every earlier tier in. */
  predicate TierFits(chain: seq<Summary>, index: nat)
    requires index < |chain| && chain[index].of.compaction.Some?
  {
    var c := chain[index].of.compaction.value;
    && 0 < |c.subsumed| <= index
    && (forall i :: |c.subsumed| <= i < index ==> chain[i].of.compaction.None?)
    && (forall i :: 0 <= i < |c.subsumed| ==> chain[i].digest == c.subsumed[i])
    && c.coveredStart == chain[0].of.start
    && c.coveredEnd == chain[|c.subsumed| - 1].of.end
  }

  function SegmentOf(chain: seq<Summary>): Segment {
    match NewestTier(chain, |chain|)
    case None => NoTier
    case Some(index) =>
      if TierFits(chain, index) then Tier(index, |chain[index].of.compaction.value.subsumed|) else Invalid
  }

  /** compactionSegment (src/core/context-summary-projection.ts:304-330). */
  method CompactionSegment(chain: seq<Summary>) returns (r: Segment)
    requires forall s :: s in chain ==> Canonical(s)
    ensures r == SegmentOf(chain)
  {
    var index: int := -1;
    for position := 0 to |chain|
      invariant -1 <= index < position
      invariant NewestTier(chain, position) == if index < 0 then None else Some(index)
    {
      if chain[position].of.compaction.Some? { index := position; }
    }
    if index < 0 { return NoTier; }
    assert chain[index] in chain;
    var c := chain[index].of.compaction.value;
    var count := |c.subsumed|;
    if count > index { return Invalid; }
    for position := count to index
      invariant forall i :: count <= i < position ==> chain[i].of.compaction.None?
    {
      if chain[position].of.compaction.Some? { return Invalid; }
    }
    for position := 0 to count
      invariant forall i :: 0 <= i < position ==> chain[i].digest == c.subsumed[i]
    {
      if chain[position].digest != c.subsumed[position] { return Invalid; }
    }
    if c.coveredStart != chain[0].of.start || c.coveredEnd != chain[count - 1].of.end { return Invalid; }
    r := Tier(index, count);
  }

  // ---- The chain ----

  /** The newest available summary with that digest: what the walker's map finds. */
  function Find(available: seq<Summary>, n: nat, digest: Digest): (r: Option<Summary>)
    requires n <= |available|
    ensures r.Some? ==> r.value in available && r.value.digest == digest
  {
    if n == 0 then None
    else if available[n - 1].digest == digest then Some(available[n - 1])
    else Find(available, n - 1, digest)
  }

  /** `s` follows `p` in a chain walked through `available`. */
  predicate Follows(available: seq<Summary>, p: Summary, s: Summary) {
    && s.of.previous.Some? && Find(available, |available|, s.of.previous.value) == Some(p)
    && p.of.end + 1 == s.of.start
  }

  /** `chain` is the whole digest-linked history of the newest available summary. */
  predicate IsChain(available: seq<Summary>, chain: seq<Summary>) {
    && available != [] && chain != []
    && chain[|chain| - 1] == available[|available| - 1]
    && (forall i :: 0 < i < |chain| ==> Follows(available, chain[i - 1], chain[i]))
    && chain[0].of.previous.None?
    && chain[0].of.start == 1
    && SegmentOf(chain) != Invalid
  }

  lemma {:induction false} SuffixesAgree(available: seq<Summary>, a: seq<Summary>, b: seq<Summary>, k: nat)
    requires IsChain(available, a) && IsChain(available, b)
    requires k < |a| && k < |b|
    ensures a[|a| - 1 - k] == b[|b| - 1 - k]
  {
    if k > 0 { SuffixesAgree(available, a, b, k - 1); }
  }

  /** There is at most one chain: the walk is determined by its newest summary. */
  lemma {:induction false} ChainUnique(available: seq<Summary>, a: seq<Summary>, b: seq<Summary>)
    requires IsChain(available, a) && IsChain(available, b)
    ensures a == b
  {
    if |a| < |b| {
      assert Follows(available, b[|b| - |a| - 1], b[|b| - |a|]);
      SuffixesAgree(available, a, b, |a| - 1);
    } else if |b| < |a| {
      assert Follows(available, a[|a| - |b| - 1], a[|a| - |b|]);
      SuffixesAgree(available, a, b, |b| - 1);
    } else {
      forall i | 0 <= i < |a| ensures a[i] == b[i] {
        SuffixesAgree(available, a, b, |a| - 1 - i);
      }
    }
  }

  /** `walked` is the newest part of every chain there is. */
  predicate Walked(available: seq<Summary>, walked: seq<Summary>) {
    && available != [] && walked != []
    && walked[|walked| - 1] == available[|available| - 1]
    && (forall i :: 0 < i < |walked| ==> Follows(available, walked[i - 1], walked[i]))
  }

  lemma {:induction false} WalkedIsSuffix(available: seq<Summary>, walked: seq<Summary>, chain: seq<Summary>, k: nat)
    requires Walked(available, walked) && IsChain(available, chain) && k < |walked|
    ensures k < |chain| && chain[|chain| - 1 - k] == walked[|walked| - 1 - k]
  {
    if k > 0 {
      WalkedIsSuffix(available, walked, chain, k - 1);
      assert Follows(available, walked[|walked| - 1 - k], walked[|walked| - k]);
    }
  }

  /** Where the walk stops short, no chain goes on: `first` has no usable predecessor. */
  lemma {:induction false} NoChainBeyond(available: seq<Summary>, walked: seq<Summary>, chain: seq<Summary>)
    requires Walked(available, walked) && IsChain(available, chain)
    ensures walked[0].of.previous.None? ==> chain == walked
    ensures walked[0].of.previous.Some? ==> exists p :: Follows(available, p, walked[0])
  {
    WalkedIsSuffix(available, walked, chain, |walked| - 1);
    var at := |chain| - |walked|;
    if at > 0 { assert Follows(available, chain[at - 1], chain[at]); }
    if at == 0 {
      forall i | 0 <= i < |walked| ensures chain[i] == walked[i] {
        WalkedIsSuffix(available, walked, chain, |walked| - 1 - i);
      }
    }
  }

  lemma {:induction false} FindNewest(available: seq<Summary>, n: nat)
    requires 0 < n <= |available|
    ensures Find(available, n, available[n - 1].digest) == Some(available[n - 1])
  {
  }

  lemma {:induction false} NoChain(available: seq<Summary>, walked: seq<Summary>)
    requires Walked(available, walked)
    requires walked[0].of.previous.Some?
    requires forall p :: !Follows(available, p, walked[0])
    ensures forall chain :: !IsChain(available, chain)
  {
    forall chain ensures !IsChain(available, chain) {
      if IsChain(available, chain) { NoChainBeyond(available, walked, chain); }
    }
  }

  lemma {:induction false} OnlyChain(available: seq<Summary>, walked: seq<Summary>)
    requires Walked(available, walked) && walked[0].of.previous.None?
    ensures forall chain :: IsChain(available, chain) ==> chain == walked
  {
    forall chain | IsChain(available, chain) ensures chain == walked {
      NoChainBeyond(available, walked, chain);
    }
  }

  /**
   * contextSummaryChain (src/core/context-summary-projection.ts:252-275): the chain when
   * there is one, and nothing when there is none; never a part of one.
   */
  method ContextSummaryChain(events: seq<Event>) returns (r: Option<seq<Summary>>)
    ensures r.Some? ==> IsChain(Summaries(events, |events|), r.value)
    ensures r.None? ==> forall chain :: !IsChain(Summaries(events, |events|), chain)
  {
    var available := Summaries(events, |events|);
    SummariesAreCanonical(events, |events|);
    if available == [] { return None; }
    var current := available[|available| - 1];
    FindNewest(available, |available|);
    var chain: seq<Summary> := [];
    var seen: set<Digest> := {};
    while true
      invariant current in available && Find(available, |available|, current.digest) == Some(current)
      invariant chain == [] ==> current == available[|available| - 1]
      invariant chain != [] ==> Walked(available, chain) && Follows(available, current, chain[0])
      invariant forall s :: s in chain ==> s in available && current.of.start < s.of.start
      invariant forall d :: d in seen ==> exists s :: s in chain && Find(available, |available|, d) == Some(s)
      decreases current.of.start
    {
      if current.digest in seen { return None; }
      seen := seen + {current.digest};
      chain := [current] + chain;
      assert Walked(available, chain);
      if current.of.previous.None? { break; }
      var previous := Find(available, |available|, current.of.previous.value);
      if previous.None? || previous.value.of.end + 1 != current.of.start {
        NoChain(available, chain);
        return None;
      }
      FindIsFound(available, |available|, current.of.previous.value);
      current := previous.value;
    }
    OnlyChain(available, chain);
    if chain[0].of.start != 1 { return None; }
    var segment := CompactionSegment(chain);
    if segment == Invalid { return None; }
    r := Some(chain);
  }

  lemma {:induction false} FindIsFound(available: seq<Summary>, n: nat, digest: Digest)
    requires n <= |available| && Find(available, n, digest).Some?
    ensures Find(available, n, Find(available, n, digest).value.digest) == Find(available, n, digest)
  {
  }
}
