/** Planning, writing and verifying summary commitments (src/core/context-compressor.ts:291-489, 499-604). */
module Compressor {
  import opened Arithmetic
  import opened Messages
  import opened Utf8Text
  import opened SummaryChain
  import opened SummaryProjection
  import opened CompactionPlan

  /** SHA-256 of a text and of a commitment's stable form: any two functions. */
  datatype Hashes = Hashes(text: Text -> Digest, commitment: Commitment -> Digest)

  /** What a summarizer call yields: text with the response digest of its provenance, if any, or nothing usable. */
  datatype Output = Output(text: Text, response: Option<Digest>, adapterMatches: bool) | Unusable

  /** Resolved compression options (src/core/context-policy.ts:24-51). */
  datatype Options = Options(window: nat, threshold: real, target: real, preserve: nat, maxDelta: nat)

  predicate Resolved(o: Options) {
    && 2048 <= o.window <= 4194304
    && 0.8 <= o.threshold <= 0.85
    && 0.4 <= o.target < o.threshold
    && 1 <= o.preserve <= 32
    && 512 <= o.maxDelta <= 64 * 1024
  }

  /** Math.round(ratio * 10_000) */
  function BasisPoints(ratio: real): int {
    (ratio * 10000.0 + 0.5).Floor
  }

  // ---- Bodies ----

  datatype Written = Written(text: Text, producer: Method)

  /** normalizeSummaryOutput: a bounded, non-blank text whose provenance commits to it. */
  function Normalized(output: Output, maximum: nat, hash: Text -> Digest): (r: Option<Written>)
    ensures r.Some? ==> Bytes(r.value.text) <= maximum && r.value.text != []
    ensures r.Some? ==> r.value.producer.SummarizerPort?
                        && (r.value.producer.response.Some? ==> r.value.producer.response == Some(hash(r.value.text)))
  {
    if output.Unusable? then None
    else
      var text := Trim(output.text);
      if text == [] || Bytes(text) > maximum then None
      else if output.response.Some? && (output.response.value != hash(text) || !output.adapterMatches) then None
      else Some(Written(text, SummarizerPort(output.response)))
  }

  datatype Entry = Entry(digest: Digest, start: nat, end: nat, text: Text)

  function SummaryEntries(chain: seq<Summary>): (r: seq<Entry>)
    ensures |r| == |chain|
  {
    seq(|chain|, i requires 0 <= i < |chain| =>
      Entry(chain[i].digest, chain[i].of.start, chain[i].of.end, chain[i].of.delta))
  }

  /** compactionEntries: the carried tier by its body, then the summaries no tier stands for yet. */
  function Entries(chain: seq<Summary>, plan: Plan): (r: seq<Entry>)
    requires plan.freshFrom <= plan.count <= |chain|
    ensures plan.carried.Some? || plan.freshFrom < plan.count ==> r != []
  {
    (if plan.carried.Some?
     then var c := plan.carried.value; [Entry(c.bodyDigest, c.coveredStart, c.coveredEnd, c.body)] else [])
    + SummaryEntries(chain[plan.freshFrom..plan.count])
  }

  function InputBytes(entries: seq<Entry>): nat {
    if entries == [] then 0 else Bytes(entries[0].text) + InputBytes(entries[1..])
  }

  function RenderEntry(e: Entry, share: nat): (r: Text)
    ensures r != [] && !IsSpace(r[0])
  {
    var header := A("Compacted ") + e.digest + A(" (events ") + EventRange(e.start, e.end) + A("):") + [10];
    header + TruncatedUtf8(e.text, Max(32, share - Bytes(header)))
  }

  function RenderEntries(entries: seq<Entry>, share: nat): (r: seq<Text>)
    ensures |r| == |entries|
  {
    if entries == [] then [] else [RenderEntry(entries[0], share)] + RenderEntries(entries[1..], share)
  }

  /** extractiveCompaction */
  function ExtractiveCompaction(entries: seq<Entry>, maximum: nat): Text {
    var share := Max(64, maximum / Max(|entries|, 1));
    Trim(TruncatedUtf8(Joined(RenderEntries(entries, share)), maximum))
  }

  lemma {:induction false} TrimEndKeepsFirst(t: Text)
    requires t != [] && !IsSpace(t[0])
    ensures TrimEnd(t) != [] && TrimEnd(t)[0] == t[0]
  {
    if |t| > 1 && IsSpace(t[|t| - 1]) { TrimEndKeepsFirst(t[..|t| - 1]); }
  }

  lemma {:induction false} TruncationKeepsFirst(t: Text, maximum: nat)
    requires t != [] && !IsSpace(t[0]) && maximum >= 8
    ensures TruncatedUtf8(t, maximum) != [] && TruncatedUtf8(t, maximum)[0] == t[0]
  {
    if Bytes(t) > maximum {
      assert t[..1][..0] == [];
      assert RoomAfter(t, 1, maximum);
      assert Cut(t, 0, maximum) >= 1;
      TrimEndKeepsFirst(t[..Cut(t, 0, maximum)]);
    }
  }

  /** A compacted body never exceeds its bound and is never blank. */
  lemma {:induction false} ExtractiveBodyUsable(entries: seq<Entry>, maximum: nat)
    requires entries != [] && maximum >= 8
    ensures Bytes(ExtractiveCompaction(entries, maximum)) <= maximum
    ensures !Blank(ExtractiveCompaction(entries, maximum))
  {
    var share := Max(64, maximum / Max(|entries|, 1));
    var joined := Joined(RenderEntries(entries, share));
    assert joined != [] && joined[0] == RenderEntry(entries[0], share)[0];
    TruncationBounded(joined, maximum);
    TruncationKeepsFirst(joined, maximum);
    var cut := TruncatedUtf8(joined, maximum);
    TrimBytes(cut);
    TrimEndKeepsFirst(cut);
    assert TrimStart(cut) == cut;
  }

  lemma {:induction false} TrimmedIsNotBlank(t: Text)
    requires Trim(t) != []
    ensures !Blank(Trim(t))
  {
    TrimStartsClean(t);
    var s := TrimStart(t);
    assert s != [] && Trim(t)[0] == s[0];
  }

  lemma {:induction false} TrimStartsClean(t: Text)
    ensures TrimStart(t) != [] ==> !IsSpace(TrimStart(t)[0])
  {
    if t != [] && IsSpace(t[0]) { TrimStartsClean(t[1..]); }
  }

  /** A summarizer's tier needs provenance on top of a usable output. */
  function TierAnswer(output: Output, maximum: nat, hash: Text -> Digest): Option<Written> {
    var normalized := Normalized(output, maximum, hash);
    if normalized.Some? && normalized.value.producer.response.None? then None else normalized
  }

  predicate TierBody(c: Compaction, maximum: nat, hash: Text -> Digest) {
    && c.bodyDigest == hash(c.body) && !Blank(c.body) && Bytes(c.body) <= maximum
    && (c.producer.SummarizerPort? ==> c.producer.response == Some(c.bodyDigest))
  }

  /** What is written for a tier. None: the summarizer failed and its failure is not to be papered over. */
  function TierText(summarizer: Option<Output>, extractive: Text, maximum: nat, fallback: bool,
        hash: Text -> Digest): Option<Written> {
    if summarizer.None? then Some(Written(extractive, Extractive))
    else
      var answer := TierAnswer(summarizer.value, maximum, hash);
      if answer.Some? then answer else if fallback then Some(Written(extractive, Extractive)) else None
  }

  lemma {:induction false} TierTextUsable(summarizer: Option<Output>, extractive: Text, maximum: nat, fallback: bool,
        hash: Text -> Digest)
    requires !Blank(extractive) && Bytes(extractive) <= maximum
    requires TierText(summarizer, extractive, maximum, fallback, hash).Some?
    ensures !Blank(TierText(summarizer, extractive, maximum, fallback, hash).value.text)
    ensures Bytes(TierText(summarizer, extractive, maximum, fallback, hash).value.text) <= maximum
    ensures TierText(summarizer, extractive, maximum, fallback, hash).value.producer.SummarizerPort? ==>
              TierText(summarizer, extractive, maximum, fallback, hash).value.producer.response
              == Some(hash(TierText(summarizer, extractive, maximum, fallback, hash).value.text))
  {
    if summarizer.Some? && summarizer.value.Output? && Trim(summarizer.value.text) != [] {
      TrimmedIsNotBlank(summarizer.value.text);
    }
  }

  function TierFrom(chain: seq<Summary>, plan: Plan, written: Written, hash: Text -> Digest): Compaction
    requires 0 < plan.count <= |chain|
  {
    Compaction(plan.level, Digests(chain[..plan.count]), chain[0].of.start, chain[plan.count - 1].of.end,
               written.producer, written.text, hash(written.text))
  }

  /** What is written for the tier of a plan. */
  function PlannedText(chain: seq<Summary>, plan: Plan, maximum: nat, summarizer: Option<Output>, fallback: bool,
        hash: Text -> Digest): Option<Written>
    requires 0 < plan.count <= |chain| && plan.freshFrom < plan.count
  {
    TierText(summarizer, ExtractiveCompaction(Entries(chain, plan), maximum), maximum, fallback, hash)
  }

  lemma {:induction false} PlannedTextUsable(chain: seq<Summary>, plan: Plan, maximum: nat, summarizer: Option<Output>,
                                             fallback: bool, hash: Text -> Digest, written: Option<Written>)
    requires 0 < plan.count <= |chain| && plan.freshFrom < plan.count && maximum >= 8
    requires written == PlannedText(chain, plan, maximum, summarizer, fallback, hash)
    ensures written.None? ==> summarizer.Some? && !fallback
    ensures written.Some? ==> TierBody(TierFrom(chain, plan, written.value, hash), maximum, hash)
  {
    ExtractiveBodyUsable(Entries(chain, plan), maximum);
    if written.Some? {
      TierTextUsable(summarizer, ExtractiveCompaction(Entries(chain, plan), maximum), maximum, fallback, hash);
    }
  }

  /** compactSummaryTier: the planned run as one higher-tier body. */
  method CompactSummaryTier(chain: seq<Summary>, plan: Plan, maximum: nat, summarizer: Option<Output>, fallback: bool,
        hash: Text -> Digest)
    returns (tier: Option<Compaction>)
    requires 0 < plan.count <= |chain| && plan.freshFrom < plan.count && maximum >= 8
    ensures tier.None? ==> summarizer.Some? && !fallback
    ensures tier.Some? ==> Absorbs(tier.value, chain, plan) && TierBody(tier.value, maximum, hash)
    ensures PlannedText(chain, plan, maximum, summarizer, fallback, hash)
            == if tier.Some? then Some(Written(tier.value.body, tier.value.producer)) else None
  {
    var written := PlannedText(chain, plan, maximum, summarizer, fallback, hash);
    PlannedTextUsable(chain, plan, maximum, summarizer, fallback, hash, written);
    if written.None? { return None; }
    tier := Some(TierFrom(chain, plan, written.value, hash));
  }

  /** The delta of planContextCompression. None: it throws; a blank text: there is nothing to commit. */
  function DeltaBody(summarizer: Option<Output>, extract: Text, maximum: nat, fallback: bool,
        hash: Text -> Digest): Option<Written> {
    var extractive := Written(Trim(TruncatedUtf8(extract, maximum)), Extractive);
    if summarizer.None? then Some(extractive)
    else
      var answer := Normalized(summarizer.value, maximum, hash);
      if answer.Some? then answer else if fallback then Some(extractive) else None
  }

  lemma {:induction false} DeltaBodyUsable(summarizer: Option<Output>, extract: Text, maximum: nat, fallback: bool,
        hash: Text -> Digest)
    requires maximum >= 8 && DeltaBody(summarizer, extract, maximum, fallback, hash).Some?
    requires DeltaBody(summarizer, extract, maximum, fallback, hash).value.text != []
    ensures !Blank(DeltaBody(summarizer, extract, maximum, fallback, hash).value.text)
    ensures Bytes(DeltaBody(summarizer, extract, maximum, fallback, hash).value.text) <= maximum
  {
    var cut := TruncatedUtf8(extract, maximum);
    TruncationBounded(extract, maximum);
    TrimBytes(cut);
    if Trim(cut) != [] { TrimmedIsNotBlank(cut); }
    if summarizer.Some? && summarizer.value.Output? && Trim(summarizer.value.text) != [] {
      TrimmedIsNotBlank(summarizer.value.text);
    }
  }

  // ---- Planning a commitment ----

  /** Places of the completed turns among the first `n` events, after event `covered`. */
  function Completed(events: seq<Event>, n: nat, covered: nat): (r: seq<nat>)
    requires n <= |events|
    ensures forall i :: 0 <= i < |r| ==> covered < r[i] <= n && events[r[i] - 1].body.TurnCompleted?
    ensures forall i, j :: 0 <= i < j < |r| ==> r[i] < r[j]
  {
    if n <= covered then []
    else Completed(events, n - 1, covered) + (if events[n - 1].body.TurnCompleted? then [n] else [])
  }

  datatype Decision = Commit(summary: Summary) | Nothing | Failed

  /** The newest summary, and the last event it covers. */
  function Newest(events: seq<Event>): Option<Summary> {
    var all := Summaries(events, |events|);
    if all == [] then None else Some(all[|all| - 1])
  }

  function Covered(events: seq<Event>): nat {
    if Newest(events).Some? then Newest(events).value.of.end else 0
  }

  /** The summary covers the next range and is linked to the events and the summary it follows. */
  predicate CoversNext(events: seq<Event>, s: Summary, preserve: nat) {
    && s.of.start == Covered(events) + 1
    && s.of.start <= s.of.end <= |events|
    && s.of.startPrevious == events[s.of.start - 1].previous
    && s.of.endDigest == events[s.of.end - 1].digest
    && s.of.previous == (if Newest(events).Some? then Some(Newest(events).value.digest) else None)
    && events[s.of.end - 1].body.TurnCompleted?
    && |Completed(events, |events|, s.of.end)| == preserve
  }

  /** Its bodies are bounded, not blank, and committed to by their digests. */
  predicate Committed(s: Summary, maximum: nat, h: Hashes) {
    && s.digest == h.commitment(s.of)
    && s.of.deltaDigest == h.text(s.of.delta) && !Blank(s.of.delta) && Bytes(s.of.delta) <= maximum
    && (s.of.producer.SummarizerPort? && s.of.producer.response.Some? ==>
       s.of.producer.response.value == s.of.deltaDigest)
    && (s.of.compaction.Some? ==> TierBody(s.of.compaction.value, maximum, h.text))
  }

  /** A tier as the planner asked for it, on the journal's chain. */
  ghost predicate TierPlanned(events: seq<Event>, deltaBytes: nat, tier: Option<Compaction>, o: Options) {
    exists chain, plan :: ChainOrNone(events, chain) && PlanFollowed(chain, deltaBytes, tier, o, plan)
  }

  predicate PlanFollowed(chain: seq<Summary>, deltaBytes: nat, tier: Option<Compaction>, o: Options,
        plan: Option<Plan>) {
    && IsPlan(chain, deltaBytes, o.window, o.maxDelta, plan)
    && (plan.None? <==> tier.None?)
    && (plan.Some? ==> 0 < plan.value.count <= |chain| && Absorbs(tier.value, chain, plan.value))
  }

  /** What a planned commitment is, given the journal it was planned on. */
  ghost predicate Plans(events: seq<Event>, s: Summary, o: Options, h: Hashes, before: nat) {
    && CoversNext(events, s, o.preserve) && Committed(s, o.maxDelta, h)
    && TierPlanned(events, Bytes(s.of.delta), s.of.compaction, o)
    && s.of.window == o.window
    && s.of.threshold == BasisPoints(o.threshold) && s.of.target == BasisPoints(o.target)
    && s.of.tokensBefore == before && 1 <= s.of.tokensAfter < before
  }

  /** contextSummaryChain(events) ?? [] */
  ghost predicate ChainOrNone(events: seq<Event>, chain: seq<Summary>) {
    var available := Summaries(events, |events|);
    if chain == [] then forall c :: !IsChain(available, c) else IsChain(available, chain)
  }

  /** The cutoff leaves exactly the preserved turns after it. */
  lemma {:induction false} CompletedAfter(events: seq<Event>, n: nat, covered: nat, k: nat)
    requires n <= |events| && k < |Completed(events, n, covered)|
    ensures |Completed(events, n, Completed(events, n, covered)[k])| == |Completed(events, n, covered)| - 1 - k
  {
    var all := Completed(events, n, covered);
    if k < |Completed(events, n - 1, covered)| {
      CompletedAfter(events, n - 1, covered, k);
    }
  }

  /** A run absorbed by a plan takes in at least one summary no tier stands for yet. */
  lemma {:induction false} PlanAbsorbs(chain: seq<Summary>, pendingDeltaBytes: int, window: int, maxBody: nat,
        plan: Option<Plan>)
    requires IsPlan(chain, pendingDeltaBytes, window, maxBody, plan) && plan.Some?
    ensures 0 < plan.value.count <= |chain| && plan.value.freshFrom < plan.value.count
    ensures Floor(chain, |chain|) <= plan.value.count <= MAX_SUBSUMED_SUMMARIES
  {
  }

  /** The tier, if one is due, and the tokens it is expected to save; none `ok` when the summarizer fails it. */
  method PlanTier(events: seq<Event>, delta: Text, o: Options, summarizer: Option<Output>, fallback: bool,
                  bytesPerToken: real, hash: Text -> Digest)
    returns (ok: bool, compaction: Option<Compaction>, savings: nat)
    requires Resolved(o) && 2.0 <= bytesPerToken <= 6.0
    ensures ok ==> TierPlanned(events, Bytes(delta), compaction, o)
    ensures ok ==> TierWritten(events, Bytes(delta), compaction, o, summarizer, fallback, bytesPerToken, hash, savings)
    ensures !ok ==> summarizer.Some? && !fallback
    ensures ok && compaction.Some? ==> TierBody(compaction.value, o.maxDelta, hash)
  {
    var chain := PriorChain(events);
    assert forall s :: s in chain ==> Canonical(s) by { ChainIsCanonical(events, chain); }
    var plan := PlanSummaryCompaction(chain, Bytes(delta), o.window, o.maxDelta);
    ok, compaction, savings := true, None, 0;
    if plan.Some? {
      PlanAbsorbs(chain, Bytes(delta), o.window, o.maxDelta, plan);
      compaction, savings := WriteTier(chain, plan.value, o.maxDelta, summarizer, fallback, bytesPerToken, hash);
      ok := compaction.Some?;
    }
    assert ok ==> PlanFollowed(chain, Bytes(delta), compaction, o, plan);
    assert ok && compaction.Some? ==>
        WrittenFor(chain, plan.value, Bytes(delta), compaction.value, o, summarizer, fallback, bytesPerToken, hash,
                   savings);
  }

  /** The tier of a plan says what is written for it, and saves what it saves. */
  predicate WrittenFor(chain: seq<Summary>, plan: Plan, deltaBytes: nat, tier: Compaction, o: Options,
        summarizer: Option<Output>, fallback: bool, bytesPerToken: real, hash: Text -> Digest, savings: nat)
    requires bytesPerToken > 0.0
  {
    && PlanFollowed(chain, deltaBytes, Some(tier), o, Some(plan)) && plan.freshFrom < plan.count
    && PlannedText(chain, plan, o.maxDelta, summarizer, fallback, hash) == Some(Written(tier.body, tier.producer))
    && savings == Saved(InputBytes(Entries(chain, plan)), Bytes(tier.body), bytesPerToken)
  }

  ghost predicate TierWritten(events: seq<Event>, deltaBytes: nat, tier: Option<Compaction>, o: Options,
        summarizer: Option<Output>, fallback: bool, bytesPerToken: real, hash: Text -> Digest, savings: nat)
    requires bytesPerToken > 0.0
  {
    match tier
    case None => savings == 0
    case Some(c) =>
      exists chain, plan :: ChainOrNone(events, chain)
                            && WrittenFor(chain, plan, deltaBytes, c, o, summarizer, fallback, bytesPerToken, hash,
                                          savings)
  }

  method PriorChain(events: seq<Event>) returns (chain: seq<Summary>)
    ensures ChainOrNone(events, chain)
  {
    var found := ContextSummaryChain(events);
    chain := if found.Some? then found.value else [];
  }

  /** The tier the plan calls for, and the tokens it saves. */
  method WriteTier(chain: seq<Summary>, plan: Plan, maximum: nat, summarizer: Option<Output>, fallback: bool,
                   bytesPerToken: real, hash: Text -> Digest)
    returns (compaction: Option<Compaction>, savings: nat)
    requires 0 < plan.count <= |chain| && plan.freshFrom < plan.count && maximum >= 8 && bytesPerToken > 0.0
    ensures PlannedText(chain, plan, maximum, summarizer, fallback, hash)
            == if compaction.Some? then Some(Written(compaction.value.body, compaction.value.producer)) else None
    ensures compaction.Some? ==>
              savings == Saved(InputBytes(Entries(chain, plan)), Bytes(compaction.value.body), bytesPerToken)
    ensures compaction.None? ==> summarizer.Some? && !fallback
    ensures compaction.Some? ==> Absorbs(compaction.value, chain, plan) && TierBody(compaction.value, maximum, hash)
  {
    savings := 0;
    compaction := CompactSummaryTier(chain, plan, maximum, summarizer, fallback, hash);
    if compaction.Some? {
      savings := Saved(InputBytes(Entries(chain, plan)), Bytes(compaction.value.body), bytesPerToken);
    }
  }

  /** The tokens a tier is expected to save. */
  function Saved(input: nat, body: nat, bytesPerToken: real): nat
    requires bytesPerToken > 0.0
  {
    Max(0, ((input - body) as real / bytesPerToken).Floor)
  }

  /** The next range to cover ends at the newest completed turn that is not to be preserved. */
  function Cutoff(events: seq<Event>, covered: nat, preserve: nat): (r: Option<nat>)
    ensures r.None? <==> |Completed(events, |events|, covered)| <= preserve
    ensures r.Some? ==>
              && covered < r.value <= |events| && events[r.value - 1].body.TurnCompleted?
              && |Completed(events, |events|, r.value)| == preserve
  {
    var completed := Completed(events, |events|, covered);
    if |completed| <= preserve then None
    else
      CompletedAfter(events, |events|, covered, |completed| - preserve - 1);
      Some(completed[|completed| - preserve - 1])
  }

  /** The delta that covers the next range. */
  function NextDelta(events: seq<Event>, o: Options, summarizer: Option<Output>, fallback: bool,
        extract: seq<Event> -> Text, h: Hashes): Option<Written> {
    var cutoff := Cutoff(events, Covered(events), o.preserve);
    if cutoff.None? then Some(Written([], Extractive))
    else DeltaBody(summarizer, extract(events[Covered(events)..cutoff.value]), o.maxDelta, fallback, h.text)
  }

  lemma {:induction false} NextDeltaUsable(events: seq<Event>, o: Options, summarizer: Option<Output>, fallback: bool,
                                           extract: seq<Event> -> Text, h: Hashes, delta: Option<Written>)
    requires Resolved(o) && delta == NextDelta(events, o, summarizer, fallback, extract, h)
    ensures delta.None? ==> summarizer.Some? && !fallback
    ensures delta.Some? && delta.value.text != [] ==> DeltaUsable(delta.value, o.maxDelta, h.text)
  {
    var cutoff := Cutoff(events, Covered(events), o.preserve);
    if cutoff.Some? && delta.Some? && delta.value.text != [] {
      DeltaBodyUsable(summarizer, extract(events[Covered(events)..cutoff.value]), o.maxDelta, fallback, h.text);
    }
  }

  predicate DeltaUsable(delta: Written, maximum: nat, hash: Text -> Digest) {
    && !Blank(delta.text) && Bytes(delta.text) <= maximum
    && (delta.producer.SummarizerPort? && delta.producer.response.Some? ==>
       delta.producer.response.value == hash(delta.text))
  }

  function SummaryTokens(text: Text, bytesPerToken: real): int
    requires bytesPerToken > 0.0
  {
    Max(1, Ceiling(Bytes(text) as real / bytesPerToken))
  }

  /** Why nothing is committed: no pressure yet, too few turns, nothing to say, or nothing to gain. */
  predicate NothingDue(before: nat, sourceTokens: nat, bytesPerToken: real, o: Options, cutoff: Option<nat>,
        delta: Option<Written>)
    requires bytesPerToken > 0.0
  {
    || before as real < o.threshold * o.window as real
    || cutoff.None?
    || (delta.Some?
        && (delta.value.text == [] || before <= 1 || sourceTokens <= SummaryTokens(delta.value.text, bytesPerToken)))
  }

  /** The commitment over a range that ends at `cutoff`. */
  function Assembled(events: seq<Event>, o: Options, h: Hashes, cutoff: nat, delta: Written, tier: Option<Compaction>,
        before: nat, after: nat): Summary
    requires Covered(events) < cutoff <= |events|
  {
    var prior := Newest(events);
    var commitment := Commitment(o.window, BasisPoints(o.threshold), BasisPoints(o.target),
      Covered(events) + 1, cutoff, events[Covered(events)].previous, events[cutoff - 1].digest,
      if prior.Some? then Some(prior.value.digest) else None,
      delta.text, tier, delta.producer, h.text(delta.text), before, after);
    Summary(commitment, h.commitment(commitment))
  }

  lemma {:induction false} AssembledPlans(events: seq<Event>, o: Options, h: Hashes, cutoff: nat, delta: Written,
        tier: Option<Compaction>, before: nat, after: nat)
    requires Covered(events) < cutoff <= |events| && events[cutoff - 1].body.TurnCompleted?
    requires |Completed(events, |events|, cutoff)| == o.preserve
    requires DeltaUsable(delta, o.maxDelta, h.text)
    requires TierPlanned(events, Bytes(delta.text), tier, o)
    requires tier.Some? ==> TierBody(tier.value, o.maxDelta, h.text)
    requires 1 <= after < before
    ensures Plans(events, Assembled(events, o, h, cutoff, delta, tier, before, after), o, h, before)
  {
  }

  /**
   * planContextCompression. `extract` is the extractive text of a range, `deltaAnswer` and
   * `tierAnswer` what the summarizer, if configured, yields for the delta and for the tier.
   */
  method PlanContextCompression(events: seq<Event>, before: nat, sourceTokens: nat, bytesPerToken: real,
                                o: Options, configured: bool, deltaAnswer: Output, tierAnswer: Output, fallback: bool,
                                extract: seq<Event> -> Text, h: Hashes)
    returns (r: Decision)
    requires Resolved(o) && 2.0 <= bytesPerToken <= 6.0
    ensures r.Commit? ==> Plans(events, r.summary, o, h, before)
    ensures r.Commit? ==> before as real >= o.threshold * o.window as real
    ensures r.Commit? ==>
              && NextDelta(events, o, if configured then Some(deltaAnswer) else None, fallback, extract, h)
                 == Some(Written(r.summary.of.delta, r.summary.of.producer))
              && Priced(events, r.summary, before, sourceTokens, bytesPerToken, o,
                        if configured then Some(tierAnswer) else None, fallback, h)
    ensures r.Nothing? ==>
            NothingDue(before, sourceTokens, bytesPerToken, o, Cutoff(events, Covered(events), o.preserve),
                       NextDelta(events, o, if configured then Some(deltaAnswer) else None, fallback, extract, h))
    ensures r.Failed? ==>
              || (configured && !fallback)
              || ((exists e :: e in events && e.body.SummaryUpdated?)
                  && forall chain :: !IsChain(Summaries(events, |events|), chain))
  {
    if before as real < o.threshold * o.window as real { return Nothing; }
    var priorProjection := MaterializeContextSummary(events);
    if priorProjection.None? && exists i :: 0 <= i < |events| && events[i].body.SummaryUpdated? { return Failed; }
    var covered := Covered(events);
    var cutoff := Cutoff(events, covered, o.preserve);
    if cutoff.None? { return Nothing; }
    var summarizer := if configured then Some(deltaAnswer) else None;
    var delta := NextDelta(events, o, summarizer, fallback, extract, h);
    NextDeltaUsable(events, o, summarizer, fallback, extract, h, delta);
    if delta.None? { return Failed; }
    if delta.value.text == [] { return Nothing; }
    r := CommitDelta(events, before, sourceTokens, bytesPerToken, o, cutoff.value, delta.value,
                     if configured then Some(tierAnswer) else None, fallback, h);
  }

  /** The tier says what is written for it, and the tokens afterwards are counted with what it saves. */
  ghost predicate Priced(events: seq<Event>, s: Summary, before: nat, sourceTokens: nat, bytesPerToken: real,
        o: Options, summarizer: Option<Output>, fallback: bool, h: Hashes)
    requires bytesPerToken > 0.0
  {
    exists savings: nat ::
      && TierWritten(events, Bytes(s.of.delta), s.of.compaction, o, summarizer, fallback, bytesPerToken, h.text,
                     savings)
      && s.of.tokensAfter == Max(1, before - sourceTokens + SummaryTokens(s.of.delta, bytesPerToken) - savings)
  }

  /** The end of it: the tier that is due with the delta, and the commitment if it saves tokens. */
  method CommitDelta(events: seq<Event>, before: nat, sourceTokens: nat, bytesPerToken: real, o: Options, cutoff: nat,
                     delta: Written, summarizer: Option<Output>, fallback: bool, h: Hashes)
    returns (r: Decision)
    requires Resolved(o) && 2.0 <= bytesPerToken <= 6.0
    requires Cutoff(events, Covered(events), o.preserve) == Some(cutoff) && DeltaUsable(delta, o.maxDelta, h.text)
    ensures r.Commit? ==> Plans(events, r.summary, o, h, before)
    ensures r.Commit? ==> r.summary.of.delta == delta.text && r.summary.of.producer == delta.producer
    ensures r.Commit? ==> Priced(events, r.summary, before, sourceTokens, bytesPerToken, o, summarizer, fallback, h)
    ensures r.Nothing? ==> before <= 1 || sourceTokens <= SummaryTokens(delta.text, bytesPerToken)
    ensures r.Failed? ==> summarizer.Some? && !fallback
  {
    var ok, compaction, savings := PlanTier(events, delta.text, o, summarizer, fallback, bytesPerToken, h.text);
    if !ok { return Failed; }
    var summaryTokens := SummaryTokens(delta.text, bytesPerToken);
    var after := Max(1, before - sourceTokens + summaryTokens - savings);
    if after >= before { return Nothing; }
    AssembledPlans(events, o, h, cutoff, delta, compaction, before, after);
    r := Commit(Assembled(events, o, h, cutoff, delta, compaction, before, after));
  }

  function Ceiling(x: real): int {
    -((-x).Floor)
  }

  lemma {:induction false} ChainIsCanonical(events: seq<Event>, chain: seq<Summary>)
    requires ChainOrNone(events, chain)
    ensures forall s :: s in chain ==> Canonical(s)
  {
    if chain != [] {
      SummariesAreCanonical(events, |events|);
      ChainIsLinked(Summaries(events, |events|), chain);
    }
  }
}
