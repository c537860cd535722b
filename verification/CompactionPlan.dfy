/**
 * When a commitment opens a higher tier, and how much it absorbs
 * (src/core/context-summary-projection.ts:332-339, 424-483).
 */
module CompactionPlan {
  import opened Arithmetic
  import opened Messages
  import opened Utf8Text
  import opened SummaryChain
  import opened SummaryProjection

  const REFERENCE_FRAMING_BYTES: nat := 160
  const COMPACTED_TIER_FRAMING_BYTES: nat := 320

  /** The run to absorb, its level, and from where its summaries are not in an earlier tier. */
  datatype Plan = Plan(count: nat, level: nat, carried: Option<Compaction>, freshFrom: nat)

  // ---- What the planner adds up ----

  /** Each delta as rendered, with its separator. */
  function DeltaSizes(chain: seq<Summary>): (r: seq<nat>)
    ensures |r| == |chain| && forall i :: 0 <= i < |r| ==> r[i] == Bytes(Render(DeltaPart(chain[i]))) + 2
  {
    seq(|chain|, i requires 0 <= i < |chain| => Bytes(Render(DeltaPart(chain[i]))) + 2)
  }

  function SumFrom(sizes: seq<nat>, from: nat): nat
    decreases |sizes| - from
  {
    if from >= |sizes| then 0 else sizes[from] + SumFrom(sizes, from + 1)
  }

  function Carried(chain: seq<Summary>): Option<Compaction> {
    match SegmentOf(chain) case Tier(index, _) => chain[index].of.compaction case _ => None
  }

  function HeadBytes(carried: Option<Compaction>): nat
    requires carried.Some? ==> carried.value.subsumed != []
  {
    if carried.Some? then Bytes(Render(TierPart(carried.value))) + 2 else 0
  }

  function Pending(pendingDeltaBytes: int): nat {
    Max(0, pendingDeltaBytes) + REFERENCE_FRAMING_BYTES
  }

  /** What the next projection takes if it shows a head and the deltas from `from` on. */
  function Projects(sizes: seq<nat>, from: nat, head: nat, pending: nat): nat {
    head + pending + SumFrom(sizes, from)
  }

  function NewHead(maxBody: nat): nat {
    COMPACTED_TIER_FRAMING_BYTES + maxBody + 2
  }

  /** The shortest run that takes in every earlier tier: summaryCompactionFloor. */
  function Floor(chain: seq<Summary>, n: nat): nat
    requires n <= |chain|
  {
    match NewestTier(chain, n) case Some(index) => index + 1 case None => 0
  }

  /** planSummaryCompaction finds nothing to do: the chain and the pending delta fit. */
  predicate StillFits(chain: seq<Summary>, pending: nat, budget: int)
    requires chain != [] && SegmentOf(chain) != Invalid
  {
    Projects(DeltaSizes(chain), Base(chain), HeadBytes(Carried(chain)), pending) <= budget
  }

  /** A run of `count` summaries whose tier leaves the projection within the budget. */
  predicate RunFits(sizes: seq<nat>, count: nat, maxBody: nat, pending: nat, budget: int) {
    Projects(sizes, count, NewHead(maxBody), pending) <= budget
  }

  /** ... and within three quarters of it. */
  predicate RunLeavesRoom(sizes: seq<nat>, count: nat, maxBody: nat, pending: nat, budget: int) {
    4 * Projects(sizes, count, NewHead(maxBody), pending) <= 3 * budget
  }

  /** The run the planner settles on: the shortest with headroom, else the shortest that fits, else all it may. */
  predicate Chosen(sizes: seq<nat>, count: nat, floor: nat, ceiling: nat, maxBody: nat, pending: nat, budget: int) {
    && floor <= count <= ceiling
    && (|| (RunLeavesRoom(sizes, count, maxBody, pending, budget)
            && forall c :: floor <= c < count ==> !RunLeavesRoom(sizes, c, maxBody, pending, budget))
        || ((forall c :: floor <= c <= ceiling ==> !RunLeavesRoom(sizes, c, maxBody, pending, budget))
            && RunFits(sizes, count, maxBody, pending, budget)
            && forall c :: floor <= c < count ==> !RunFits(sizes, c, maxBody, pending, budget))
        || ((forall c :: floor <= c <= ceiling ==> !RunFits(sizes, c, maxBody, pending, budget)) && count == ceiling))
  }

  function LevelOf(tier: Option<Compaction>): nat {
    if tier.Some? then tier.value.level else 0
  }

  /** Nothing to plan: no chain to absorb, everything still fits, or no run of it may be absorbed. */
  predicate Declines(chain: seq<Summary>, pendingDeltaBytes: int, window: int) {
    || chain == [] || SegmentOf(chain) == Invalid
    || StillFits(chain, Pending(pendingDeltaBytes), BodyBudgetBytes(window))
    || LevelOf(Carried(chain)) >= MAX_COMPACTION_LEVEL
    || Max(Floor(chain, |chain|), 1) > Min(|chain|, MAX_SUBSUMED_SUMMARIES)
  }

  /** planSummaryCompaction's answer: when it declines, and what it plans when it does not. */
  predicate IsPlan(chain: seq<Summary>, pendingDeltaBytes: int, window: int, maxBody: nat, plan: Option<Plan>)
  {
    match plan
    case None => Declines(chain, pendingDeltaBytes, window)
    case Some(p) =>
      && !Declines(chain, pendingDeltaBytes, window)
      && p.level == LevelOf(Carried(chain)) + 1 && p.carried == Carried(chain) && p.freshFrom == Base(chain)
      && Chosen(DeltaSizes(chain), p.count, Max(Floor(chain, |chain|), 1),
                Min(|chain|, MAX_SUBSUMED_SUMMARIES), maxBody, Pending(pendingDeltaBytes), BodyBudgetBytes(window))
  }

  // ---- The planner ----

  method SummaryCompactionFloor(chain: seq<Summary>) returns (floor: nat)
    ensures floor == Floor(chain, |chain|)
  {
    floor := 0;
    for index := 0 to |chain|
      invariant floor == Floor(chain, index)
    {
      if chain[index].of.compaction.Some? { floor := index + 1; }
    }
  }

  method ProjectedBytes(deltaBytes: seq<nat>, from: nat, head: nat, pending: nat) returns (total: nat)
    ensures total == Projects(deltaBytes, from, head, pending)
  {
    total := head + pending;
    var index := from;
    while index < |deltaBytes|
      invariant total + SumFrom(deltaBytes, index) == Projects(deltaBytes, from, head, pending)
      decreases |deltaBytes| - index
    {
      total := total + deltaBytes[index];
      index := index + 1;
    }
  }

  /** The tier the chain carries, and how many of its summaries that stands for; None if its claim is invalid. */
  method CarriedTier(chain: seq<Summary>) returns (r: Option<(Option<Compaction>, nat)>)
    requires chain != [] && forall s :: s in chain ==> Canonical(s)
    ensures r.None? <==> SegmentOf(chain) == Invalid
    ensures r.Some? ==> r.value == (Carried(chain), Base(chain))
  {
    var segment := CompactionSegment(chain);
    match segment
    case Invalid => r := None;
    case Tier(index, count) => r := Some((chain[index].of.compaction, count));
    case NoTier => r := Some((None, 0));
  }

  lemma {:induction false} ChosenIsPlan(chain: seq<Summary>, pendingDeltaBytes: int, window: int, maxBody: nat,
        count: nat)
    requires !Declines(chain, pendingDeltaBytes, window)
    requires Chosen(DeltaSizes(chain), count, Max(Floor(chain, |chain|), 1), Min(|chain|, MAX_SUBSUMED_SUMMARIES),
                    maxBody, Pending(pendingDeltaBytes), BodyBudgetBytes(window))
    ensures IsPlan(chain, pendingDeltaBytes, window, maxBody,
                   Some(Plan(count, LevelOf(Carried(chain)) + 1, Carried(chain), Base(chain))))
  {
  }

  method PlanSummaryCompaction(chain: seq<Summary>, pendingDeltaBytes: int, window: int, maxBody: nat)
    returns (plan: Option<Plan>)
    requires forall s :: s in chain ==> Canonical(s)
    ensures IsPlan(chain, pendingDeltaBytes, window, maxBody, plan)
  {
    if chain == [] { return None; }
    var segment := CarriedTier(chain);
    if segment.None? { return None; }
    var carried, subsumedCount := segment.value.0, segment.value.1;
    var budget, deltaBytes, pending := BodyBudgetBytes(window), DeltaSizes(chain), Pending(pendingDeltaBytes);
    var current := ProjectedBytes(deltaBytes, subsumedCount, HeadBytes(carried), pending);
    if current <= budget { return None; }
    var level := LevelOf(carried) + 1;
    if level > MAX_COMPACTION_LEVEL { return None; }
    var floor := SummaryCompactionFloor(chain);
    floor := Max(floor, 1);
    var ceiling := Min(|chain|, MAX_SUBSUMED_SUMMARIES);
    if floor > ceiling { return None; }
    var count := ChooseRun(deltaBytes, floor, ceiling, maxBody, pending, budget);
    assert !Declines(chain, pendingDeltaBytes, window);
    ChosenIsPlan(chain, pendingDeltaBytes, window, maxBody, count);
    plan := Some(Plan(count, level, carried, subsumedCount));
  }

  /** The search of planSummaryCompaction (src/core/context-summary-projection.ts:468-482). */
  method ChooseRun(deltaBytes: seq<nat>, floor: nat, ceiling: nat, maxBody: nat, pending: nat, budget: int)
    returns (count: nat)
    requires floor <= ceiling
    ensures Chosen(deltaBytes, count, floor, ceiling, maxBody, pending, budget)
  {
    var smallestFitting: Option<nat> := None;
    count := floor;
    while count <= ceiling
      invariant floor <= count <= ceiling + 1
      invariant forall c :: floor <= c < count ==> !RunLeavesRoom(deltaBytes, c, maxBody, pending, budget)
      invariant smallestFitting.None? ==> forall c :: floor <= c < count ==>
                !RunFits(deltaBytes, c, maxBody, pending, budget)
      invariant smallestFitting.Some? ==>
                  && floor <= smallestFitting.value < count
                  && RunFits(deltaBytes, smallestFitting.value, maxBody, pending, budget)
                  && forall c :: floor <= c < smallestFitting.value ==>
                     !RunFits(deltaBytes, c, maxBody, pending, budget)
    {
      var projected := ProjectedBytes(deltaBytes, count, NewHead(maxBody), pending);
      assert RunFits(deltaBytes, count, maxBody, pending, budget) <==> projected <= budget;
      assert RunLeavesRoom(deltaBytes, count, maxBody, pending, budget) <==> 4 * projected <= 3 * budget;
      if projected <= budget && smallestFitting.None? { smallestFitting := Some(count); }
      if 4 * projected <= 3 * budget { return; }
      count := count + 1;
    }
    if smallestFitting.Some? { return smallestFitting.value; }
    count := ceiling;
  }

  // ---- The sums are the rendered bytes ----

  lemma {:induction false} SumAppend(sizes: seq<nat>, more: nat, from: nat)
    requires from <= |sizes|
    ensures SumFrom(sizes + [more], from) == SumFrom(sizes, from) + more
    decreases |sizes| - from
  {
    if from < |sizes| {
      SumAppend(sizes, more, from + 1);
    } else {
      assert SumFrom(sizes + [more], from + 1) == 0;
    }
  }

  lemma {:induction false} SumIsRendered(chain: seq<Summary>, from: nat)
    requires from <= |chain|
    ensures SumFrom(DeltaSizes(chain), from) == PartBytes(Deltas(chain[from..]))
    decreases |chain| - from
  {
    if from < |chain| {
      SumIsRendered(chain, from + 1);
      assert chain[from..][1..] == chain[from + 1..];
      assert DeltaParts(chain[from..])[1..] == DeltaParts(chain[from + 1..]);
      assert Deltas(chain[from..])[1..] == Deltas(chain[from + 1..]);
    }
  }

  lemma {:induction false} JoinedParts(a: seq<Text>, b: seq<Text>)
    requires b != []
    ensures Bytes(Joined(a + b)) + 2 == PartBytes(a) + PartBytes(b)
  {
    PartBytesConcat(a, b);
    JoinedBytes(a + b);
  }

  lemma {:induction false} HeadIsRendered(chain: seq<Summary>)
    ensures PartBytes(Texts(HeadParts(chain))) == HeadBytes(Carried(chain))
  {
    var head := HeadParts(chain);
    if head != [] {
      assert head[1..] == [];
      PartBytesOne(Render(head[0]));
    }
  }

  lemma {:induction false} WholeIsJoined(chain: seq<Summary>)
    requires chain != []
    ensures Whole(chain, 0).body == Joined(Texts(HeadParts(chain)) + Deltas(chain[Base(chain)..]))
  {
    TextsConcat(HeadParts(chain), DeltaParts(chain[Base(chain)..]));
  }

  /** What the planner adds up for a chain is what the renderer needs to show it all. */
  lemma {:induction false} WholeBytes(chain: seq<Summary>)
    requires chain != []
    ensures Bytes(Whole(chain, 0).body) + 2 == HeadBytes(Carried(chain)) + SumFrom(DeltaSizes(chain), Base(chain))
  {
    WholeIsJoined(chain);
    HeadIsRendered(chain);
    SumIsRendered(chain, Base(chain));
    JoinedParts(Texts(HeadParts(chain)), Deltas(chain[Base(chain)..]));
  }

  // ---- The next projection ----

  /** `summary` is what a commitment under that plan appends. */
  predicate Commits(chain: seq<Summary>, plan: Option<Plan>, maxBody: nat, summary: Summary) {
    && Canonical(summary)
    && match plan
       case None => summary.of.compaction.None?
       case Some(p) =>
         && summary.of.compaction.Some? && 0 < p.count <= |chain|
         && Absorbs(summary.of.compaction.value, chain, p)
         && Bytes(summary.of.compaction.value.body) <= maxBody
  }

  /** A tier that names the run of a plan. */
  predicate Absorbs(tier: Compaction, chain: seq<Summary>, plan: Plan)
    requires 0 < plan.count <= |chain|
  {
    && tier.level == plan.level && tier.subsumed == Digests(chain[..plan.count])
    && tier.coveredStart == chain[0].of.start && tier.coveredEnd == chain[plan.count - 1].of.end
  }

  lemma {:induction false} NewestTierPrefix(chain: seq<Summary>, more: seq<Summary>, n: nat)
    requires n <= |chain|
    ensures NewestTier(chain + more, n) == NewestTier(chain, n)
  {
    if n > 0 { NewestTierPrefix(chain, more, n - 1); }
  }

  /** A commitment without a tier keeps the chain's tier. */
  lemma {:induction false} SegmentKept(chain: seq<Summary>, summary: Summary)
    requires summary.of.compaction.None?
    ensures SegmentOf(chain + [summary]) == SegmentOf(chain)
    ensures Carried(chain + [summary]) == Carried(chain)
  {
    NewestTierPrefix(chain, [summary], |chain|);
    var all := chain + [summary];
    assert NewestTier(all, |all|) == NewestTier(chain, |chain|);
    if NewestTier(chain, |chain|).Some? { TierFitsPrefix(chain, summary, NewestTier(chain, |chain|).value); }
  }

  lemma {:induction false} TierFitsPrefix(chain: seq<Summary>, summary: Summary, index: nat)
    requires index < |chain| && chain[index].of.compaction.Some?
    ensures (chain + [summary])[index] == chain[index]
    ensures TierFits(chain + [summary], index) == TierFits(chain, index)
  {
    var all := chain + [summary];
    assert forall i :: 0 <= i < |chain| ==> all[i] == chain[i];
  }

  /** A commitment with a planned tier makes that the chain's tier. */
  lemma {:induction false} SegmentPlanned(chain: seq<Summary>, plan: Plan, summary: Summary)
    requires summary.of.compaction.Some? && 0 < plan.count <= |chain| && Floor(chain, |chain|) <= plan.count
    requires Absorbs(summary.of.compaction.value, chain, plan)
    ensures SegmentOf(chain + [summary]) == Tier(|chain|, plan.count)
    ensures Carried(chain + [summary]) == summary.of.compaction
  {
    var all := chain + [summary];
    assert NewestTier(all, |all|) == Some(|chain|);
    assert forall i :: 0 <= i < |chain| ==> all[i] == chain[i];
    assert TierFits(all, |chain|);
  }

  lemma {:induction false} SizesAppend(chain: seq<Summary>, summary: Summary, from: nat)
    requires from <= |chain| && Canonical(summary)
    ensures SumFrom(DeltaSizes(chain + [summary]), from) <= SumFrom(DeltaSizes(chain), from) + 107
            + Bytes(summary.of.delta)
  {
    DeltaFraming(summary);
    var size := SizesOf(chain, summary);
    SumAppend(DeltaSizes(chain), size, from);
  }

  lemma {:induction false} SizesOf(chain: seq<Summary>, summary: Summary) returns (size: nat)
    ensures size == Bytes(Render(DeltaPart(summary))) + 2
    ensures DeltaSizes(chain + [summary]) == DeltaSizes(chain) + [size]
  {
    size := Bytes(Render(DeltaPart(summary))) + 2;
    var all := chain + [summary];
    forall i | 0 <= i < |all| ensures DeltaSizes(all)[i] == (DeltaSizes(chain) + [size])[i] {
      assert all[i] == if i < |chain| then chain[i] else summary;
    }
  }

  /** Declined because it fits, or planned a run that fits: either way the planner expects no omission. */
  predicate ExpectsAll(chain: seq<Summary>, plan: Option<Plan>, maxBody: nat, pending: nat, budget: int) {
    match plan
    case None => chain != [] && SegmentOf(chain) != Invalid && StillFits(chain, pending, budget)
    case Some(p) => RunFits(DeltaSizes(chain), p.count, maxBody, pending, budget)
  }

  lemma {:induction false} KeptFits(chain: seq<Summary>, window: int, summary: Summary)
    requires chain != [] && SegmentOf(chain) != Invalid && Canonical(summary) && summary.of.compaction.None?
    requires StillFits(chain, Pending(Bytes(summary.of.delta)), BodyBudgetBytes(window))
    ensures Fits(Whole(chain + [summary], 0), BodyBudgetBytes(window))
  {
    SegmentKept(chain, summary);
    WholeBytes(chain + [summary]);
    SizesAppend(chain, summary, Base(chain));
  }

  lemma {:induction false} PlannedFits(chain: seq<Summary>, plan: Plan, window: int, maxBody: nat, summary: Summary)
    requires Commits(chain, Some(plan), maxBody, summary) && Floor(chain, |chain|) <= plan.count
    requires RunFits(DeltaSizes(chain), plan.count, maxBody, Pending(Bytes(summary.of.delta)), BodyBudgetBytes(window))
    ensures Fits(Whole(chain + [summary], 0), BodyBudgetBytes(window))
  {
    SegmentPlanned(chain, plan, summary);
    WholeBytes(chain + [summary]);
    SizesAppend(chain, summary, plan.count);
    TierFraming(summary.of.compaction.value);
  }

  /**
   * The trigger and the renderer never disagree: when the planner declines because the chain
   * fits, or picks a run that fits, the projection after the commitment shows every delta uncut.
   */
  lemma {:induction false} PlannerAndRendererAgree(chain: seq<Summary>, plan: Option<Plan>, window: int, maxBody: nat,
        summary: Summary)
    requires IsPlan(chain, Bytes(summary.of.delta), window, maxBody, plan)
    requires ExpectsAll(chain, plan, maxBody, Pending(Bytes(summary.of.delta)), BodyBudgetBytes(window))
    requires Commits(chain, plan, maxBody, summary)
    ensures Fits(Whole(chain + [summary], 0), BodyBudgetBytes(window))
  {
    if plan.None? {
      KeptFits(chain, window, summary);
    } else {
      PlannedFits(chain, plan.value, window, maxBody, summary);
    }
  }

  /** A whole body that fits is what the projection shows. */
  lemma {:induction false} NothingOmitted(chain: seq<Summary>)
    requires chain != [] && BodyBudgetBytes(chain[|chain| - 1].of.window) >= 0
    requires Fits(Whole(chain, 0), BodyBudgetBytes(chain[|chain| - 1].of.window))
    ensures ProjectionOf(chain).omitted == 0
    ensures ProjectionOf(chain).content == Framed(Whole(chain, 0).body)
  {
    LongestSuffixShown(chain, BodyBudgetBytes(chain[|chain| - 1].of.window));
  }

  lemma {:induction false} SumPastEnd(sizes: seq<nat>)
    ensures SumFrom(sizes, |sizes|) == 0
  {
  }

  /** If the longest run leaves the projection within the budget, so does the chosen one. */
  lemma {:induction false} ChosenFits(sizes: seq<nat>, count: nat, floor: nat, ceiling: nat, maxBody: nat, pending: nat,
        budget: int)
    requires Chosen(sizes, count, floor, ceiling, maxBody, pending, budget) && budget >= 0
    requires RunFits(sizes, ceiling, maxBody, pending, budget)
    ensures RunFits(sizes, count, maxBody, pending, budget)
  {
  }

  /** With room for two bodies and their framing, absorbing the whole chain always fits. */
  lemma {:induction false} WholeRunFits(sizes: seq<nat>, maxBody: nat, pendingDeltaBytes: nat, budget: int)
    requires pendingDeltaBytes <= maxBody && 2 * maxBody + 482 <= budget
    ensures RunFits(sizes, |sizes|, maxBody, Pending(pendingDeltaBytes), budget)
  {
    SumPastEnd(sizes);
  }

  lemma {:induction false} AmpleBudgetExpectsAll(chain: seq<Summary>, pendingDeltaBytes: nat, window: int,
        maxBody: nat, plan: Option<Plan>)
    requires IsPlan(chain, pendingDeltaBytes, window, maxBody, plan)
    requires chain != [] && SegmentOf(chain) != Invalid
    requires pendingDeltaBytes <= maxBody && 2 * maxBody + 482 <= BodyBudgetBytes(window)
    requires |chain| <= MAX_SUBSUMED_SUMMARIES && LevelOf(Carried(chain)) < MAX_COMPACTION_LEVEL
    ensures ExpectsAll(chain, plan, maxBody, Pending(pendingDeltaBytes), BodyBudgetBytes(window))
  {
    if plan.Some? {
      var sizes, budget, pending := DeltaSizes(chain), BodyBudgetBytes(window), Pending(pendingDeltaBytes);
      WholeRunFits(sizes, maxBody, pendingDeltaBytes, budget);
      ChosenFits(sizes, plan.value.count, Max(Floor(chain, |chain|), 1), |chain|, maxBody, pending, budget);
    }
  }

  lemma {:induction false} FirstFits(summary: Summary, window: int, maxBody: nat)
    requires Canonical(summary) && summary.of.compaction.None?
    requires Bytes(summary.of.delta) <= maxBody && 2 * maxBody + 482 <= BodyBudgetBytes(window)
    ensures Fits(Whole([summary], 0), BodyBudgetBytes(window))
  {
    SegmentKept([], summary);
    assert [] + [summary] == [summary];
    WholeBytes([summary]);
    SizesAppend([], summary, 0);
  }

  /**
   * For a policy with 2 * maxBody + 482 within the body budget, and within the caps on tiers
   * and absorbed summaries, the projection after any commitment omits nothing and cuts nothing.
   */
  lemma {:induction false} AmpleBudgetNeverOmits(chain: seq<Summary>, plan: Option<Plan>, maxBody: nat,
        summary: Summary)
    requires IsPlan(chain, Bytes(summary.of.delta), summary.of.window, maxBody, plan)
    requires chain == [] || SegmentOf(chain) != Invalid
    requires Commits(chain, plan, maxBody, summary) && Bytes(summary.of.delta) <= maxBody
    requires 2 * maxBody + 482 <= BodyBudgetBytes(summary.of.window)
    requires |chain| <= MAX_SUBSUMED_SUMMARIES && LevelOf(Carried(chain)) < MAX_COMPACTION_LEVEL
    ensures ProjectionOf(chain + [summary]).omitted == 0
    ensures ProjectionOf(chain + [summary]).content == Framed(Whole(chain + [summary], 0).body)
  {
    if chain == [] {
      FirstFits(summary, summary.of.window, maxBody);
      assert chain + [summary] == [summary];
    } else {
      AmpleBudgetExpectsAll(chain, Bytes(summary.of.delta), summary.of.window, maxBody, plan);
      PlannerAndRendererAgree(chain, plan, summary.of.window, maxBody, summary);
    }
    NothingOmitted(chain + [summary]);
  }
}
