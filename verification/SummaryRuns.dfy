/** Verifying commitments, and what every run of the compressor keeps (src/core/context-compressor.ts:424-489). */
module SummaryRuns {
  import opened Arithmetic
  import opened Messages
  import opened Utf8Text
  import opened SummaryChain
  import opened SummaryProjection
  import opened CompactionPlan
  import opened Compressor

  // ---- The verifier ----

  /** The summaries among the first `n` that end before a sequence number. */
  function Priors(all: seq<Summary>, n: nat, start: nat): seq<Summary>
    requires n <= |all|
  {
    if n == 0 then []
    else Priors(all, n - 1, start) + (if all[n - 1].of.end < start then [all[n - 1]] else [])
  }

  /** The highest tier level among the first `n`. */
  function MaxLevel(chain: seq<Summary>, n: nat): nat
    requires n <= |chain|
  {
    if n == 0 then 0 else Max(MaxLevel(chain, n - 1), LevelOf(chain[n - 1].of.compaction))
  }

  /** The tier names exactly the oldest run of the earlier summaries, takes every earlier tier in and tops them. */
  predicate TierVerifies(c: Compaction, priors: seq<Summary>, hash: Text -> Digest) {
    && hash(c.body) == c.bodyDigest
    && (c.producer.SummarizerPort? ==> c.producer.response == Some(c.bodyDigest))
    && 0 < |c.subsumed| <= |priors|
    && (forall i :: 0 <= i < |c.subsumed| ==> priors[i].digest == c.subsumed[i])
    && c.coveredStart == priors[0].of.start && c.coveredEnd == priors[|c.subsumed| - 1].of.end
    && (forall i :: |c.subsumed| <= i < |priors| ==> priors[i].of.compaction.None?)
    && c.level == MaxLevel(priors, |priors|) + 1
  }

  /** The summary is committed to by its digests, linked to the events and to the summary before it. */
  predicate Verifies(s: Summary, events: seq<Event>, h: Hashes) {
    var priors := Priors(Summaries(events, |events|), |Summaries(events, |events|)|, s.of.start);
    && h.text(s.of.delta) == s.of.deltaDigest
    && (s.of.producer.SummarizerPort? && s.of.producer.response.Some? ==>
       s.of.producer.response.value == s.of.deltaDigest)
    && h.commitment(s.of) == s.digest
    && 1 <= s.of.start <= |events| && 1 <= s.of.end <= |events|
    && events[s.of.start - 1].previous == s.of.startPrevious && events[s.of.end - 1].digest == s.of.endDigest
    && (s.of.compaction.Some? ==> TierVerifies(s.of.compaction.value, priors, h.text))
    && if priors == [] then s.of.previous.None? && s.of.start == 1
       else s.of.previous == Some(priors[|priors| - 1].digest) && s.of.start == priors[|priors| - 1].of.end + 1
  }

  method VerifySummaryCompaction(c: Compaction, priors: seq<Summary>, hash: Text -> Digest) returns (ok: bool)
    ensures ok <==> TierVerifies(c, priors, hash)
  {
    if hash(c.body) != c.bodyDigest { return false; }
    if c.producer.SummarizerPort? && c.producer.response != Some(c.bodyDigest) { return false; }
    var subsumed := c.subsumed;
    if subsumed == [] || |subsumed| > |priors| { return false; }
    for index := 0 to |subsumed|
      invariant forall i :: 0 <= i < index ==> priors[i].digest == subsumed[i]
    {
      if priors[index].digest != subsumed[index] { return false; }
    }
    if c.coveredStart != priors[0].of.start || c.coveredEnd != priors[|subsumed| - 1].of.end { return false; }
    var subsumedLevel := 0;
    for index := 0 to |priors|
      invariant forall i :: |subsumed| <= i < index ==> priors[i].of.compaction.None?
      invariant subsumedLevel == MaxLevel(priors, index)
    {
      var tier := priors[index].of.compaction;
      if tier.Some? {
        if index >= |subsumed| { return false; }
        subsumedLevel := Max(subsumedLevel, tier.value.level);
      }
    }
    ok := c.level == subsumedLevel + 1;
  }

  method VerifyContextSummary(s: Summary, events: seq<Event>, h: Hashes) returns (ok: bool)
    ensures ok <==> Verifies(s, events, h)
  {
    if h.text(s.of.delta) != s.of.deltaDigest { return false; }
    if s.of.producer.SummarizerPort? && s.of.producer.response.Some?
        && s.of.producer.response.value != s.of.deltaDigest {
      return false;
    }
    if h.commitment(s.of) != s.digest { return false; }
    if s.of.start < 1 || s.of.start > |events| || s.of.end < 1 || s.of.end > |events| { return false; }
    var first, last := events[s.of.start - 1], events[s.of.end - 1];
    if first.previous != s.of.startPrevious || last.digest != s.of.endDigest { return false; }
    var all := Summaries(events, |events|);
    var priors := Priors(all, |all|, s.of.start);
    if s.of.compaction.Some? {
      var tierOk := VerifySummaryCompaction(s.of.compaction.value, priors, h.text);
      if !tierOk { return false; }
    }
    if priors != [] {
      var previous := priors[|priors| - 1];
      ok := s.of.previous == Some(previous.digest) && s.of.start == previous.of.end + 1;
    } else {
      ok := s.of.previous == None && s.of.start == 1;
    }
  }

  // ---- Runs ----

  /**
   * One write to the journal: a commitment, planned on the first `planned` events it holds, or
   * any other event.
   */
  datatype Step =
    | Other(event: Event)
    | Summarize(event: Event, options: Options, before: nat, planned: nat)

  function Journal(steps: seq<Step>): (r: seq<Event>)
    ensures |r| == |steps|
  {
    if steps == [] then [] else Journal(steps[..|steps| - 1]) + [steps[|steps| - 1].event]
  }

  /** SHA-256 does not collide on this commitment and one the journal holds. */
  predicate NoCollision(events: seq<Event>, s: Summary, h: Hashes) {
    forall p :: p in Summaries(events, |events|) && h.commitment(p.of) == h.commitment(s.of) ==> p.of == s.of
  }

  /** The two ratios round to different basis points. */
  predicate RoundsApart(o: Options) {
    BasisPoints(o.target) < BasisPoints(o.threshold)
  }

  /** No summary and no completed turn from an event on. */
  predicate QuietFrom(events: seq<Event>, from: nat) {
    forall k :: from <= k < |events| ==> !events[k].body.SummaryUpdated? && !events[k].body.TurnCompleted?
  }

  /** Planned on the first `planned` events, with nothing since that the planner looks at. */
  ghost predicate PlannedAt(events: seq<Event>, planned: nat, s: Summary, o: Options, h: Hashes, before: nat) {
    && planned <= |events| && QuietFrom(events, planned)
    && Plans(events[..planned], s, o, h, before)
  }

  ghost predicate StepOk(events: seq<Event>, step: Step, h: Hashes) {
    && |events| < MAX_SEQUENCE
    && match step
       case Other(e) => !e.body.SummaryUpdated?
       case Summarize(e, o, before, planned) =>
         && e.body.SummaryUpdated? && Resolved(o) && RoundsApart(o) && before <= MAX_SEQUENCE
         && PlannedAt(events, planned, e.body.payload, o, h, before)
         && NoCollision(events, e.body.payload, h)
  }

  ghost predicate Run(steps: seq<Step>, h: Hashes) {
    steps == [] || (Run(steps[..|steps| - 1], h) && StepOk(Journal(steps[..|steps| - 1]), steps[|steps| - 1], h))
  }

  // ---- What a run keeps ----

  predicate DistinctDigests(all: seq<Summary>) {
    forall i, j :: 0 <= i < j < |all| ==> all[i].digest != all[j].digest
  }

  /** A tier above another is one it subsumes. */
  predicate LevelsIncrease(all: seq<Summary>) {
    forall i, j :: 0 <= i < j < |all| && all[i].of.compaction.Some? && all[j].of.compaction.Some?
      ==> all[i].of.compaction.value.level < all[j].of.compaction.value.level
  }

  /** A summary verifies against the summaries before it. */
  predicate VerifiesAfter(s: Summary, events: seq<Event>, priors: seq<Summary>, h: Hashes) {
    && h.text(s.of.delta) == s.of.deltaDigest
    && (s.of.producer.SummarizerPort? && s.of.producer.response.Some? ==>
       s.of.producer.response.value == s.of.deltaDigest)
    && h.commitment(s.of) == s.digest
    && 1 <= s.of.start <= s.of.end <= |events|
    && events[s.of.start - 1].previous == s.of.startPrevious && events[s.of.end - 1].digest == s.of.endDigest
    && (s.of.compaction.Some? ==> TierVerifies(s.of.compaction.value, priors, h.text))
    && if priors == [] then s.of.previous.None? && s.of.start == 1
       else s.of.previous == Some(priors[|priors| - 1].digest) && s.of.start == priors[|priors| - 1].of.end + 1
  }

  /** The summaries of a journal are one chain, each tier above the earlier ones. */
  predicate Sound(all: seq<Summary>) {
    && Contiguous(all)
    && (all != [] ==> all[0].of.start == 1 && all[0].of.previous.None?)
    && (forall i :: 0 < i < |all| ==> all[i].of.previous == Some(all[i - 1].digest))
    && DistinctDigests(all) && LevelsIncrease(all)
    && SegmentOf(all) != Invalid
  }

  /** Each summary verifies against those before it. */
  predicate AllVerify(events: seq<Event>, all: seq<Summary>, h: Hashes) {
    forall i :: 0 <= i < |all| ==> VerifiesAt(all, i, events, h)
  }

  predicate VerifiesAt(all: seq<Summary>, i: nat, events: seq<Event>, h: Hashes)
    requires i < |all|
  {
    VerifiesAfter(all[i], events, all[..i], h)
  }

  /** No summary event of the journal is left out. */
  predicate AllRead(events: seq<Event>, all: seq<Summary>) {
    forall e :: e in events && e.body.SummaryUpdated? ==> e.body.payload in all
  }

  lemma {:induction false} FindDistinct(all: seq<Summary>, n: nat, i: nat)
    requires i < n <= |all| && DistinctDigests(all)
    ensures Find(all, n, all[i].digest) == Some(all[i])
  {
    if i < n - 1 { FindDistinct(all, n - 1, i); }
  }

  /** Every summary of the journal is in the one chain there is. */
  lemma {:induction false} SoundIsChain(all: seq<Summary>)
    requires Sound(all) && all != []
    ensures IsChain(all, all)
  {
    forall i | 0 < i < |all| ensures Follows(all, all[i - 1], all[i]) {
      FindDistinct(all, |all|, i - 1);
    }
  }

  lemma {:induction false} TheChain(events: seq<Event>, all: seq<Summary>, chain: seq<Summary>)
    requires all == Summaries(events, |events|) && Sound(all) && ChainOrNone(events, chain)
    ensures chain == all
  {
    if all != [] {
      SoundIsChain(all);
      if chain != [] { ChainUnique(all, chain, all); }
    }
  }

  lemma {:induction false} MaxLevelIsNewest(all: seq<Summary>, n: nat)
    requires n <= |all| && LevelsIncrease(all)
    ensures MaxLevel(all, n)
            == if NewestTier(all, n).Some? then all[NewestTier(all, n).value].of.compaction.value.level else 0
  {
    if n > 0 { MaxLevelIsNewest(all, n - 1); }
  }

  lemma {:induction false} CarriedLevel(all: seq<Summary>)
    requires SegmentOf(all) != Invalid && LevelsIncrease(all)
    ensures LevelOf(Carried(all)) == MaxLevel(all, |all|)
  {
    MaxLevelIsNewest(all, |all|);
  }

  lemma {:induction false} LevelsBelow(all: seq<Summary>, n: nat, i: nat)
    requires i < n <= |all|
    ensures LevelOf(all[i].of.compaction) <= MaxLevel(all, n)
  {
    if i < n - 1 { LevelsBelow(all, n - 1, i); }
  }

  lemma {:induction false} NoTierPastFloor(all: seq<Summary>, i: nat)
    requires Floor(all, |all|) <= i < |all|
    ensures all[i].of.compaction.None?
  {
  }

  /** `tier` absorbs the first `count` summaries, which take in every earlier tier. */
  predicate AbsorbsRun(all: seq<Summary>, tier: Compaction, count: nat) {
    && 0 < count <= |all| && count <= MAX_SUBSUMED_SUMMARIES && Floor(all, |all|) <= count
    && tier.subsumed == Digests(all[..count])
    && tier.coveredStart == all[0].of.start && tier.coveredEnd == all[count - 1].of.end
    && tier.level == LevelOf(Carried(all)) + 1 <= MAX_COMPACTION_LEVEL
  }

  lemma {:induction false} FollowedAbsorbs(all: seq<Summary>, deltaBytes: nat, tier: Compaction, o: Options, plan: Plan)
    requires PlanFollowed(all, deltaBytes, Some(tier), o, Some(plan))
    ensures AbsorbsRun(all, tier, plan.count)
  {
    PlanAbsorbs(all, deltaBytes, o.window, o.maxDelta, Some(plan));
  }

  /** A planned tier absorbs an oldest run of all the summaries there are. */
  lemma {:induction false} PlannedAbsorbs(events: seq<Event>, all: seq<Summary>, deltaBytes: nat, tier: Compaction,
        o: Options)
    returns (count: nat)
    requires all == Summaries(events, |events|) && Sound(all)
    requires TierPlanned(events, deltaBytes, Some(tier), o)
    ensures AbsorbsRun(all, tier, count)
  {
    var chain, plan :| ChainOrNone(events, chain) && PlanFollowed(chain, deltaBytes, Some(tier), o, plan);
    TheChain(events, all, chain);
    FollowedAbsorbs(all, deltaBytes, tier, o, plan.value);
    count := plan.value.count;
  }

  /** A tier that absorbs a run passes the verifier. */
  lemma {:induction false} AbsorbingVerifies(all: seq<Summary>, tier: Compaction, count: nat, maximum: nat,
        hash: Text -> Digest)
    requires SegmentOf(all) != Invalid && LevelsIncrease(all)
    requires AbsorbsRun(all, tier, count) && TierBody(tier, maximum, hash)
    ensures TierVerifies(tier, all, hash)
  {
    CarriedLevel(all);
    forall i | 0 <= i < count ensures all[i].digest == tier.subsumed[i] { assert all[..count][i] == all[i]; }
    forall i | count <= i < |all| ensures all[i].of.compaction.None? { NoTierPastFloor(all, i); }
  }

  lemma {:induction false} EndsOrdered(chain: seq<Summary>, i: nat, j: nat)
    requires i <= j < |chain| && Contiguous(chain)
    ensures chain[i].of.end <= chain[j].of.end
  {
    if i < j { EndsOrdered(chain, i, j - 1); }
  }

  /** ... and the reader that canonicalises it. */
  lemma {:induction false} AbsorbingCanonical(all: seq<Summary>, tier: Compaction, count: nat, maximum: nat,
        hash: Text -> Digest)
    requires Contiguous(all) && DistinctDigests(all) && all != []
    requires all[0].of.start == 1 && all[|all| - 1].of.end <= MAX_SEQUENCE
    requires AbsorbsRun(all, tier, count) && TierBody(tier, maximum, hash) && maximum <= MAX_SUMMARY_BYTES
    ensures CanonicalCompaction(tier)
    ensures tier.coveredEnd <= all[|all| - 1].of.end
  {
    Ordered(all, 0, count - 1);
    EndsOrdered(all, count - 1, |all| - 1);
    forall i, j | 0 <= i < j < count ensures tier.subsumed[i] != tier.subsumed[j] {
      assert all[..count][i] == all[i] && all[..count][j] == all[j];
    }
  }

  /** Rounding keeps the ratios in the journal's ranges. */
  lemma {:induction false} BasisPointsRange(o: Options)
    requires Resolved(o)
    ensures 8000 <= BasisPoints(o.threshold) <= 8500 && 4000 <= BasisPoints(o.target) <= BasisPoints(o.threshold)
  {
  }

  /**
   * A planned commitment is one the journal's readers accept exactly when its two ratios
   * round to different basis points.
   */
  lemma {:induction false} CommitmentCanonicalIff(events: seq<Event>, all: seq<Summary>, h: Hashes, s: Summary,
        o: Options, before: nat)
    requires all == Summaries(events, |events|) && Sound(all) && AllVerify(events, all, h)
    requires Resolved(o) && |events| <= MAX_SEQUENCE && before <= MAX_SEQUENCE
    requires Plans(events, s, o, h, before)
    ensures Canonical(s) <==> RoundsApart(o)
  {
    BasisPointsRange(o);
    if s.of.compaction.Some? { PlannedTierCanonical(events, all, h, s, o, before); }
    CanonicalButForTier(events, h, s, o, before);
  }

  lemma {:induction false} PlannedTierCanonical(events: seq<Event>, all: seq<Summary>, h: Hashes, s: Summary,
        o: Options, before: nat)
    requires all == Summaries(events, |events|) && Sound(all) && AllVerify(events, all, h)
    requires Resolved(o) && |events| <= MAX_SEQUENCE
    requires Plans(events, s, o, h, before) && s.of.compaction.Some?
    ensures CanonicalCompaction(s.of.compaction.value) && s.of.compaction.value.coveredEnd < s.of.start
  {
    var tier := s.of.compaction.value;
    var count := PlannedAbsorbs(events, all, Bytes(s.of.delta), tier, o);
    NewestEnds(events, all, h);
    StartsAfter(events, all, s, o, h, before);
    TierCanonicalFor(all, tier, count, o, h, s.of.start);
  }

  lemma {:induction false} NewestEnds(events: seq<Event>, all: seq<Summary>, h: Hashes)
    requires AllVerify(events, all, h)
    ensures all != [] ==> all[|all| - 1].of.end <= |events|
  {
    if all != [] { assert VerifiesAt(all, |all| - 1, events, h); }
  }

  lemma {:induction false} StartsAfter(events: seq<Event>, all: seq<Summary>, s: Summary, o: Options, h: Hashes,
        before: nat)
    requires all == Summaries(events, |events|) && Plans(events, s, o, h, before)
    ensures s.of.start == if all == [] then 1 else all[|all| - 1].of.end + 1
  {
  }

  lemma {:induction false} TierCanonicalFor(all: seq<Summary>, tier: Compaction, count: nat, o: Options, h: Hashes,
        start: nat)
    requires Sound(all) && Resolved(o) && AbsorbsRun(all, tier, count) && TierBody(tier, o.maxDelta, h.text)
    requires all[|all| - 1].of.end <= MAX_SEQUENCE && start == all[|all| - 1].of.end + 1
    ensures CanonicalCompaction(tier) && tier.coveredEnd < start
  {
    AbsorbingCanonical(all, tier, count, o.maxDelta, h.text);
  }

  lemma {:induction false} CanonicalButForTier(events: seq<Event>, h: Hashes, s: Summary, o: Options, before: nat)
    requires Resolved(o) && |events| <= MAX_SEQUENCE && before <= MAX_SEQUENCE && Plans(events, s, o, h, before)
    requires s.of.compaction.Some? ==>
               CanonicalCompaction(s.of.compaction.value) && s.of.compaction.value.coveredEnd < s.of.start
    requires 8000 <= s.of.threshold <= 8500 && 4000 <= s.of.target <= s.of.threshold
    ensures Canonical(s) <==> s.of.target < s.of.threshold
  {
  }

  const CLOSE_RATIOS := Options(32768, 0.82, 0.81999, 2, 12288)

  /** ... which resolved options do not guarantee: 82% and a target a hair below it round together. */
  lemma {:induction false} ResolvedOptionsCanRoundTogether()
    ensures Resolved(CLOSE_RATIOS) && !RoundsApart(CLOSE_RATIOS)
  {
  }

  const SOME_DIGEST: Digest := seq(50, _ => 65)
  const A_TURN := Event(None, SOME_DIGEST, TurnCompleted)
  const THREE_TURNS: seq<Event> := [A_TURN, A_TURN, A_TURN]

  function Terse(range: seq<Event>): Text {
    [120]
  }

  lemma {:induction false} OneTurnIsDue(h: Hashes)
    ensures Summaries(THREE_TURNS, 3) == [] && Covered(THREE_TURNS) == 0 && Cutoff(THREE_TURNS, 0, 2) == Some(1)
    ensures NextDelta(THREE_TURNS, CLOSE_RATIOS, None, false, Terse, h) == Some(Written([120], Extractive))
  {
    assert Summaries(THREE_TURNS, 3) == Summaries(THREE_TURNS, 2) == Summaries(THREE_TURNS, 1) == [];
    assert Completed(THREE_TURNS, 1, 0) == [1] && Completed(THREE_TURNS, 2, 0) == [1, 2];
    assert Completed(THREE_TURNS, 3, 0) == [1, 2, 3];
    assert [120][1..] == [] && Trim([120]) == [120];
  }

  /**
   * On three completed turns, under pressure, the compressor commits with those options, and
   * the journal's readers do not see the commitment.
   */
  method CommitThatIsNotRead(h: Hashes) returns (s: Summary)
    ensures Plans(THREE_TURNS, s, CLOSE_RATIOS, h, 30000) && !Canonical(s)
    ensures Summaries(THREE_TURNS + [Event(None, SOME_DIGEST, SummaryUpdated(s))], 4) == []
  {
    var r := PlanContextCompression(THREE_TURNS, 30000, 20000, 3.6, CLOSE_RATIOS, false, Unusable, Unusable, false,
                                    Terse, h);
    OneTurnIsDue(h);
    assert !NothingDue(30000, 20000, 3.6, CLOSE_RATIOS, Some(1), Some(Written([120], Extractive)));
    s := r.summary;
    CommitmentCanonicalIff(THREE_TURNS, [], h, s, CLOSE_RATIOS, 30000);
    SummariesAppend(THREE_TURNS, Event(None, SOME_DIGEST, SummaryUpdated(s)));
  }

  /** Options read back from a session's pinned policy, in whole basis points, always round apart. */
  lemma {:induction false} PinnedPolicyRoundsApart(o: Options, threshold: int, target: int)
    requires o.threshold == threshold as real / 10000.0 && o.target == target as real / 10000.0 && target < threshold
    ensures BasisPoints(o.threshold) == threshold && BasisPoints(o.target) == target && RoundsApart(o)
  {
  }

  // ---- Between planning and committing ----

  lemma {:induction false} QuietSummaries(events: seq<Event>, planned: nat, n: nat)
    requires planned <= n <= |events| && QuietFrom(events, planned)
    ensures Summaries(events, n) == Summaries(events[..planned], planned)
  {
    if n == planned {
      SummariesTake(events, planned, n);
    } else {
      QuietSummaries(events, planned, n - 1);
    }
  }

  lemma {:induction false} SummariesTake(events: seq<Event>, planned: nat, n: nat)
    requires n <= planned <= |events|
    ensures Summaries(events[..planned], n) == Summaries(events, n)
  {
    if n > 0 { SummariesTake(events, planned, n - 1); }
  }

  lemma {:induction false} CompletedTake(events: seq<Event>, planned: nat, n: nat, covered: nat)
    requires n <= planned <= |events|
    ensures Completed(events[..planned], n, covered) == Completed(events, n, covered)
  {
    if n > covered { CompletedTake(events, planned, n - 1, covered); }
  }

  lemma {:induction false} QuietCompletes(events: seq<Event>, planned: nat, n: nat, covered: nat)
    requires covered <= planned <= n <= |events| && QuietFrom(events, planned)
    ensures Completed(events, n, covered) == Completed(events[..planned], planned, covered)
  {
    if n == planned {
      CompletedTake(events, planned, n, covered);
    } else {
      QuietCompletes(events, planned, n - 1, covered);
    }
  }

  /** A commitment is what would be planned now, although other events have come since it was planned. */
  lemma {:induction false} PlanSurvives(events: seq<Event>, planned: nat, s: Summary, o: Options, h: Hashes,
        before: nat)
    requires PlannedAt(events, planned, s, o, h, before)
    ensures Plans(events, s, o, h, before)
  {
    var seen := events[..planned];
    assert Summaries(events, |events|) == Summaries(seen, |seen|) by { QuietSummaries(events, planned, |events|); }
    assert Completed(events, |events|, s.of.end) == Completed(seen, |seen|, s.of.end) by {
      QuietCompletes(events, planned, |events|, s.of.end);
    }
    SameTierPlanned(seen, events, Bytes(s.of.delta), s.of.compaction, o);
  }

  lemma {:induction false} SameTierPlanned(a: seq<Event>, b: seq<Event>, deltaBytes: nat, tier: Option<Compaction>,
        o: Options)
    requires Summaries(a, |a|) == Summaries(b, |b|) && TierPlanned(a, deltaBytes, tier, o)
    ensures TierPlanned(b, deltaBytes, tier, o)
  {
    var chain, plan :| ChainOrNone(a, chain) && PlanFollowed(chain, deltaBytes, tier, o, plan);
    assert ChainOrNone(b, chain);
  }

  // ---- One step ----

  lemma {:induction false} SummariesPrefix(events: seq<Event>, more: seq<Event>, n: nat)
    requires n <= |events|
    ensures Summaries(events + more, n) == Summaries(events, n)
  {
    if n > 0 { SummariesPrefix(events, more, n - 1); }
  }

  lemma {:induction false} SummariesAppend(events: seq<Event>, e: Event)
    ensures Summaries(events + [e], |events| + 1)
            == Summaries(events, |events|)
               + if e.body.SummaryUpdated? && Canonical(e.body.payload) then [e.body.payload] else []
  {
    SummariesPrefix(events, [e], |events|);
    assert (events + [e])[|events|] == e;
  }

  lemma {:induction false} StillVerifies(s: Summary, events: seq<Event>, e: Event, priors: seq<Summary>, h: Hashes)
    requires VerifiesAfter(s, events, priors, h)
    ensures VerifiesAfter(s, events + [e], priors, h)
  {
    assert (events + [e])[s.of.start - 1] == events[s.of.start - 1];
    assert (events + [e])[s.of.end - 1] == events[s.of.end - 1];
  }

  lemma {:induction false} AllStillVerify(events: seq<Event>, e: Event, all: seq<Summary>, h: Hashes)
    requires AllVerify(events, all, h)
    ensures AllVerify(events + [e], all, h)
  {
    forall i | 0 <= i < |all| ensures VerifiesAt(all, i, events + [e], h) {
      assert VerifiesAt(all, i, events, h);
      StillVerifies(all[i], events, e, all[..i], h);
    }
  }

  lemma {:induction false} NextLevels(all: seq<Summary>, s: Summary)
    requires LevelsIncrease(all)
    requires s.of.compaction.Some? ==> s.of.compaction.value.level > MaxLevel(all, |all|)
    ensures LevelsIncrease(all + [s])
  {
    forall i | 0 <= i < |all| ensures LevelOf(all[i].of.compaction) <= MaxLevel(all, |all|) {
      LevelsBelow(all, |all|, i);
    }
  }

  lemma {:induction false} NextSegment(all: seq<Summary>, s: Summary)
    requires SegmentOf(all) != Invalid
    requires s.of.compaction.Some? ==> exists count :: AbsorbsRun(all, s.of.compaction.value, count)
    ensures SegmentOf(all + [s]) != Invalid
  {
    if s.of.compaction.None? {
      SegmentKept(all, s);
    } else {
      var tier := s.of.compaction.value;
      var count :| AbsorbsRun(all, tier, count);
      SegmentPlanned(all, Plan(count, tier.level, None, 0), s);
    }
  }

  lemma {:induction false} NextLinks(all: seq<Summary>, s: Summary)
    requires Contiguous(all) && DistinctDigests(all)
    requires all != [] ==> s.of.start == all[|all| - 1].of.end + 1
    requires s.of.start <= s.of.end && forall i :: 0 <= i < |all| ==> all[i].digest != s.digest
    ensures Contiguous(all + [s]) && DistinctDigests(all + [s])
  {
  }

  lemma {:induction false} NextIsSound(all: seq<Summary>, s: Summary)
    requires Sound(all)
    requires s.of.start == (if all == [] then 1 else all[|all| - 1].of.end + 1) && s.of.start <= s.of.end
    requires s.of.previous == if all == [] then None else Some(all[|all| - 1].digest)
    requires forall i :: 0 <= i < |all| ==> all[i].digest != s.digest
    requires s.of.compaction.Some? ==> exists count :: AbsorbsRun(all, s.of.compaction.value, count)
    ensures Sound(all + [s])
  {
    var after := all + [s];
    assert LevelsIncrease(after) by {
      CarriedLevel(all);
      NextLevels(all, s);
    }
    assert SegmentOf(after) != Invalid by { NextSegment(all, s); }
    assert Contiguous(after) && DistinctDigests(after) by { NextLinks(all, s); }
    assert after[0] == if all == [] then s else all[0];
    forall i | 0 < i < |after| ensures after[i].of.previous == Some(after[i - 1].digest) {
      if i < |all| { assert after[i] == all[i] && after[i - 1] == all[i - 1]; }
    }
  }

  lemma {:induction false} VerifiedDigest(events: seq<Event>, all: seq<Summary>, h: Hashes, i: nat)
    requires AllVerify(events, all, h) && i < |all|
    ensures all[i].digest == h.commitment(all[i].of)
  {
    assert VerifiesAt(all, i, events, h);
  }

  lemma {:induction false} FreshDigest(events: seq<Event>, all: seq<Summary>, h: Hashes, s: Summary)
    requires all == Summaries(events, |events|) && Contiguous(all) && AllVerify(events, all, h)
    requires NoCollision(events, s, h) && s.digest == h.commitment(s.of)
    requires s.of.start == if all == [] then 1 else all[|all| - 1].of.end + 1
    ensures forall i :: 0 <= i < |all| ==> all[i].digest != s.digest
  {
    forall i | 0 <= i < |all| ensures all[i].digest != s.digest { OtherDigest(events, all, h, s, i); }
  }

  lemma {:induction false} OtherDigest(events: seq<Event>, all: seq<Summary>, h: Hashes, s: Summary, i: nat)
    requires all == Summaries(events, |events|) && Contiguous(all) && AllVerify(events, all, h) && i < |all|
    requires NoCollision(events, s, h) && s.digest == h.commitment(s.of)
    requires s.of.start == all[|all| - 1].of.end + 1
    ensures all[i].digest != s.digest
  {
    var p := all[i];
    assert p.of.start <= all[|all| - 1].of.end by { Ordered(all, i, |all| - 1); }
    assert p.digest == h.commitment(p.of) by { VerifiedDigest(events, all, h, i); }
    assert p in Summaries(events, |events|);
  }

  /** A planned commitment verifies against all the summaries before it. */
  lemma {:induction false} PlannedVerifies(events: seq<Event>, all: seq<Summary>, h: Hashes, s: Summary, o: Options,
        before: nat)
    requires all == Summaries(events, |events|) && Sound(all)
    requires Plans(events, s, o, h, before)
    ensures VerifiesAfter(s, events, all, h)
    ensures s.of.compaction.Some? ==> exists count :: AbsorbsRun(all, s.of.compaction.value, count)
  {
    if s.of.compaction.Some? {
      var tier := s.of.compaction.value;
      var count := PlannedAbsorbs(events, all, Bytes(s.of.delta), tier, o);
      AbsorbingVerifies(all, tier, count, o.maxDelta, h.text);
    }
  }

  lemma {:induction false} AllVerifyAppend(events: seq<Event>, all: seq<Summary>, s: Summary, h: Hashes)
    requires AllVerify(events, all, h) && VerifiesAfter(s, events, all, h)
    ensures AllVerify(events, all + [s], h)
  {
    var next := all + [s];
    forall i | 0 <= i < |next| ensures VerifiesAt(next, i, events, h) {
      if i < |all| {
        assert VerifiesAt(all, i, events, h);
        assert next[i] == all[i] && next[..i] == all[..i];
      } else {
        assert next[i] == s && next[..i] == all;
      }
    }
  }

  lemma {:induction false} PlannedIsSound(events: seq<Event>, all: seq<Summary>, h: Hashes, s: Summary, o: Options,
        before: nat)
    requires all == Summaries(events, |events|) && Sound(all) && AllVerify(events, all, h)
    requires Plans(events, s, o, h, before) && NoCollision(events, s, h)
    ensures Sound(all + [s]) && VerifiesAfter(s, events, all, h)
  {
    PlannedVerifies(events, all, h, s, o, before);
    FreshDigest(events, all, h, s);
    NextIsSound(all, s);
  }

  /** A commitment keeps the summaries one sound, verified chain. */
  lemma {:induction false} SummarizeKeeps(events: seq<Event>, all: seq<Summary>, h: Hashes, e: Event, o: Options,
        before: nat, planned: nat)
    requires all == Summaries(events, |events|) && Sound(all) && AllVerify(events, all, h)
    requires StepOk(events, Summarize(e, o, before, planned), h)
    ensures Summaries(events + [e], |events| + 1) == all + [e.body.payload]
    ensures Sound(all + [e.body.payload]) && AllVerify(events + [e], all + [e.body.payload], h)
  {
    var s := e.body.payload;
    PlanSurvives(events, planned, s, o, h, before);
    CommitmentCanonicalIff(events, all, h, s, o, before);
    SummariesAppend(events, e);
    PlannedIsSound(events, all, h, s, o, before);
    AllStillVerify(events, e, all, h);
    StillVerifies(s, events, e, all, h);
    AllVerifyAppend(events + [e], all, s, h);
  }

  // ---- Every run ----

  function SummariesOf(steps: seq<Step>): seq<Summary> {
    Summaries(Journal(steps), |steps|)
  }

  lemma {:induction false} RunKeeps(steps: seq<Step>, h: Hashes)
    requires Run(steps, h)
    ensures Sound(SummariesOf(steps)) && AllVerify(Journal(steps), SummariesOf(steps), h)
    ensures AllRead(Journal(steps), SummariesOf(steps))
  {
    if steps != [] {
      var init, step := steps[..|steps| - 1], steps[|steps| - 1];
      RunKeeps(init, h);
      var events, all := Journal(init), SummariesOf(init);
      SummariesAppend(events, step.event);
      match step
      case Other(e) =>
        assert SummariesOf(steps) == all;
        AllStillVerify(events, e, all, h);
      case Summarize(e, o, before, planned) =>
        SummarizeKeeps(events, all, h, e, o, before, planned);
    }
  }

  lemma {:induction false} PriorsAre(all: seq<Summary>, n: nat, i: nat)
    requires i < |all| && n <= |all| && Contiguous(all)
    ensures Priors(all, n, all[i].of.start) == all[..if n < i then n else i]
  {
    if n > 0 {
      PriorsAre(all, n - 1, i);
      if n - 1 < i {
        EndsOrdered(all, n - 1, i - 1);
        assert all[..n] == all[..n - 1] + [all[n - 1]];
      } else {
        Ordered(all, i, n - 1);
      }
    }
  }

  lemma {:induction false} EachVerifies(events: seq<Event>, all: seq<Summary>, h: Hashes, i: nat)
    requires i < |all| && all == Summaries(events, |events|) && Contiguous(all) && AllVerify(events, all, h)
    ensures Verifies(all[i], events, h)
  {
    PriorsAre(all, |all|, i);
    assert VerifiesAt(all, i, events, h);
  }

  /** The verifier accepts every summary. */
  ghost predicate Pass(events: seq<Event>, all: seq<Summary>, h: Hashes) {
    forall s :: s in all ==> Verifies(s, events, h)
  }

  lemma {:induction false} AllPass(events: seq<Event>, all: seq<Summary>, h: Hashes)
    requires all == Summaries(events, |events|) && Contiguous(all) && AllVerify(events, all, h)
    ensures Pass(events, all, h)
  {
    forall s | s in all ensures Verifies(s, events, h) {
      var i :| 0 <= i < |all| && all[i] == s;
      EachVerifies(events, all, h, i);
    }
  }

  /**
   * Planner, walker and verifier agree over every run: however many commitments the planner
   * has made, the walker's chain is all of them, its newest tier is never invalid, tier
   * levels strictly increase, and the verifier accepts each one.
   */
  lemma {:induction false} PlannerWalkerVerifierAgree(steps: seq<Step>, h: Hashes)
    requires Run(steps, h)
    ensures AllRead(Journal(steps), SummariesOf(steps))
    ensures SummariesOf(steps) != [] ==> IsChain(SummariesOf(steps), SummariesOf(steps))
    ensures SegmentOf(SummariesOf(steps)) != Invalid
    ensures LevelsIncrease(SummariesOf(steps))
    ensures Pass(Journal(steps), SummariesOf(steps), h)
  {
    RunKeeps(steps, h);
    var events, all := Journal(steps), SummariesOf(steps);
    if all != [] { SoundIsChain(all); }
    AllPass(events, all, h);
  }

  /** A commitment whose options leave room for two bodies, within the caps on tiers and absorbed summaries. */
  predicate Ample(all: seq<Summary>, o: Options) {
    && 2 * o.maxDelta + 482 <= BodyBudgetBytes(o.window)
    && |all| <= MAX_SUBSUMED_SUMMARIES && LevelOf(Carried(all)) < MAX_COMPACTION_LEVEL
  }

  ghost predicate AmpleRun(steps: seq<Step>) {
    steps == []
    || (AmpleRun(steps[..|steps| - 1])
        && (steps[|steps| - 1].Summarize? ==> Ample(SummariesOf(steps[..|steps| - 1]), steps[|steps| - 1].options)))
  }

  /** The projection of a chain omits nothing and cuts nothing. */
  predicate ShowsAll(chain: seq<Summary>) {
    && chain != []
    && ProjectionOf(chain).omitted == 0
    && ProjectionOf(chain).content == Framed(Whole(chain, 0).body)
  }

  /** A commitment under ample options leaves nothing out of the next projection. */
  lemma {:induction false} AmpleCommitmentShowsAll(events: seq<Event>, all: seq<Summary>, h: Hashes, s: Summary,
        o: Options, before: nat)
    requires all == Summaries(events, |events|) && Sound(all) && Canonical(s)
    requires Plans(events, s, o, h, before) && Ample(all, o)
    ensures ShowsAll(all + [s])
  {
    var chain, plan :| ChainOrNone(events, chain) && PlanFollowed(chain, Bytes(s.of.delta), s.of.compaction, o, plan);
    TheChain(events, all, chain);
    AmpleBudgetNeverOmits(all, plan, o.maxDelta, s);
  }

  lemma {:induction false} AmpleStep(events: seq<Event>, all: seq<Summary>, h: Hashes, e: Event, o: Options,
        before: nat, planned: nat)
    requires all == Summaries(events, |events|) && Sound(all) && AllVerify(events, all, h)
    requires StepOk(events, Summarize(e, o, before, planned), h) && Ample(all, o)
    ensures ShowsAll(Summaries(events + [e], |events| + 1))
  {
    SummarizeKeeps(events, all, h, e, o, before, planned);
    PlanSurvives(events, planned, e.body.payload, o, h, before);
    CommitmentCanonicalIff(events, all, h, e.body.payload, o, before);
    AmpleCommitmentShowsAll(events, all, h, e.body.payload, o, before);
  }

  /** Every projection of a run under an ample policy shows every delta, uncut. */
  lemma {:induction false} AmpleRunsNeverOmit(steps: seq<Step>, h: Hashes)
    requires Run(steps, h) && AmpleRun(steps) && SummariesOf(steps) != []
    ensures ShowsAll(SummariesOf(steps))
  {
    var init, step := steps[..|steps| - 1], steps[|steps| - 1];
    var events, all := Journal(init), SummariesOf(init);
    RunKeeps(init, h);
    SummariesAppend(events, step.event);
    match step
    case Other(e) =>
      assert SummariesOf(steps) == all;
      AmpleRunsNeverOmit(init, h);
    case Summarize(e, o, before, planned) =>
      AmpleStep(events, all, h, e, o, before, planned);
  }
}
