/**
 * Summaries as concurrent turns commit them: planned on what a turn read before it was
 * admitted, written after other events (src/core/agent.ts:190-401; src/core/context-compressor.ts:291-422).
 */
module TurnCompaction {
  import opened Messages
  import opened TurnJournal
  import opened TurnHistory
  import opened TurnProtocol
  import C = SummaryChain
  import K = Compressor
  import R = SummaryRuns

  // ---- What comes between planning and committing ----

  /** No summary and no completed turn from an event on. */
  predicate QuietSince(journal: seq<Event>, from: nat) {
    forall k :: from <= k < |journal| ==> !journal[k].body.SummaryUpdated? && !journal[k].body.TurnCompleted?
  }

  /** The turn has yet to commit its summary, if it is to commit one. */
  predicate MayCompact(s: System, i: nat) {
    i < |s.runs| && s.runs[i].Working? && (s.runs[i].local.stage.Selecting? || s.runs[i].local.stage.Compacting?)
  }

  predicate SeenThenQuiet(s: System, i: nat) {
    MayCompact(s, i) ==>
      s.runs[i].local.seen <= s.journal && QuietSince(s.journal, |s.runs[i].local.seen|)
  }

  lemma {:induction false} QuietAdmission(s: System, n: System, i: nat, content: string, images: seq<Image>,
        environment: string, how: Append)
    requires Inv(s) && Admit(s, n, i, content, images, environment, how)
    ensures SeenThenQuiet(n, i)
  {
    if how.Ok? { assert s.runs[i].seen == s.journal by { assert RunFits(s.journal, i, s.runs[i]); } }
  }

  lemma {:induction false} QuietWork(s: System, n: System, i: nat, w: Write, how: Append)
    requires Inv(s) && Work(s, n, i, w, how) && SeenThenQuiet(s, i)
    ensures SeenThenQuiet(n, i)
  {
    assert RunFits(s.journal, i, s.runs[i]);
    if MayCompact(n, i) { assert w.Select?; }
  }

  /** While a turn is open no other one writes but to ask for admission. */
  lemma {:induction false} QuietOther(s: System, n: System, step: Step, i: nat)
    requires Inv(s) && Next(s, n, step) && SeenThenQuiet(s, i) && MayCompact(s, i)
    requires step.SElsewhere? || step.i != i
    ensures SeenThenQuiet(n, i)
  {
    assert RunFits(s.journal, i, s.runs[i]);
    if !step.SElsewhere? { assert RunFits(s.journal, step.i, s.runs[step.i]); }
  }

  lemma {:induction false} QuietStep(s: System, n: System, step: Step, i: nat)
    requires Inv(s) && Next(s, n, step) && SeenThenQuiet(s, i)
    ensures SeenThenQuiet(n, i)
  {
    if step.SElsewhere? || step.i != i {
      if MayCompact(n, i) {
        assert MayCompact(s, i);
        QuietOther(s, n, step, i);
      }
    } else {
      match step
      case SAdmit(_, content, images, environment, how) => QuietAdmission(s, n, i, content, images, environment, how);
      case SWork(_, w, how) => QuietWork(s, n, i, w, how);
      case _ =>
    }
  }

  /**
   * Over every run of the protocol: until a turn commits its summary, the journal is the history
   * it read before it was admitted, and then events the planner does not look at.
   */
  lemma {:induction false} JournalIsSeenThenQuiet(trace: seq<System>, steps: seq<Step>, k: nat, i: nat)
    requires Behaviour(trace, steps) && k < |trace|
    ensures SeenThenQuiet(trace[k], i)
  {
    if k > 0 {
      JournalIsSeenThenQuiet(trace, steps, k - 1, i);
      Reachable(trace, steps, k - 1);
      assert StepTaken(trace, steps, k - 1);
      QuietStep(trace[k - 1], trace[k], steps[k - 1], i);
    }
  }

  // ---- The same journal, read for turns and read for summaries ----

  predicate SameEvent(e: Event, c: C.Event) {
    && (e.body.TurnCompleted? <==> c.body.TurnCompleted?)
    && (e.body.SummaryUpdated? <==> c.body.SummaryUpdated?)
    && (e.body.SummaryUpdated? ==> e.body.covers == c.body.payload.of.end)
  }

  predicate SameJournal(journal: seq<Event>, events: seq<C.Event>) {
    |journal| == |events| && forall k :: 0 <= k < |journal| ==> SameEvent(journal[k], events[k])
  }

  datatype Planning = Planning(options: K.Options, before: nat)

  /** The event at `at` is a commitment, planned on the first `seen` events. */
  ghost predicate AsPlanned(events: seq<C.Event>, at: nat, seen: nat, p: Planning, h: K.Hashes) {
    && seen <= at < |events| && events[at].body.SummaryUpdated?
    && K.Resolved(p.options) && R.RoundsApart(p.options) && p.before <= C.MAX_SEQUENCE
    && K.Plans(events[..seen], events[at].body.payload, p.options, h, p.before)
    && R.NoCollision(events[..at], events[at].body.payload, h)
  }

  /** If step `m` commits a summary, it is one planned on what its turn had read. */
  ghost predicate CommitsAsPlanned(trace: seq<System>, steps: seq<Step>, m: nat, events: seq<C.Event>,
        plannings: nat -> Planning, h: K.Hashes)
    requires m < |steps| < |trace|
  {
    match steps[m]
    case SWork(i, Summarize(_), how) =>
      how.Lost? || (i < |trace[m].runs| && trace[m].runs[i].Working?
                    && AsPlanned(events, |trace[m].journal|, |trace[m].runs[i].local.seen|, plannings(m), h))
    case _ => true
  }

  /** The decoded journal of a run whose commitments are all planned. */
  ghost predicate Decoded(trace: seq<System>, steps: seq<Step>, k: nat, events: seq<C.Event>,
        plannings: nat -> Planning, h: K.Hashes) {
    && Behaviour(trace, steps) && k < |trace| && |events| <= C.MAX_SEQUENCE
    && |trace[k].journal| <= |events|
    && SameJournal(trace[k].journal, events[..|trace[k].journal|])
    && forall m :: 0 <= m < k ==> CommitsAsPlanned(trace, steps, m, events, plannings, h)
  }

  lemma {:induction false} NoSummaryAsked(i: nat, calls: seq<Call>)
    ensures forall k :: 0 <= k < |Requests(i, calls)| ==> !Requests(i, calls)[k].body.SummaryUpdated?
  {
    if calls != [] { NoSummaryAsked(i, calls[1..]); }
  }

  predicate AddsSummary(step: Step) {
    step.SWork? && step.w.Summarize? && !step.how.Lost?
  }

  lemma {:induction false} JournalGrows(s: System, n: System, step: Step)
    requires Next(s, n, step)
    ensures s.journal <= n.journal
    ensures AddsSummary(step) ==> |n.journal| == |s.journal| + 1
    ensures !AddsSummary(step) ==>
              forall k :: |s.journal| <= k < |n.journal| ==> !n.journal[k].body.SummaryUpdated?
  {
    if step.SWork? && step.w.Declare? { NoSummaryAsked(step.i, step.w.calls); }
  }

  lemma {:induction false} Extended(run: seq<R.Step>, events: seq<C.Event>, n: nat, step: R.Step, h: K.Hashes)
      returns (longer: seq<R.Step>)
    requires n < |events| && R.Run(run, h) && R.Journal(run) == events[..n]
    requires R.StepOk(events[..n], step, h) && step.event == events[n]
    ensures R.Run(longer, h) && R.Journal(longer) == events[..n + 1]
  {
    longer := run + [step];
    assert longer[..|longer| - 1] == run && longer[|longer| - 1] == step;
    assert events[..n + 1] == events[..n] + [events[n]];
  }

  /** Events that are no summaries extend a run. */
  lemma {:induction false} OthersExtend(run: seq<R.Step>, events: seq<C.Event>, start: nat, end: nat, h: K.Hashes)
      returns (longer: seq<R.Step>)
    requires start <= end <= |events| <= C.MAX_SEQUENCE && R.Run(run, h) && R.Journal(run) == events[..start]
    requires forall k :: start <= k < end ==> !events[k].body.SummaryUpdated?
    ensures R.Run(longer, h) && R.Journal(longer) == events[..end]
    decreases end
  {
    if start == end {
      longer := run;
    } else {
      var shorter := OthersExtend(run, events, start, end - 1, h);
      longer := Extended(shorter, events, end - 1, R.Other(events[end - 1]), h);
    }
  }

  lemma {:induction false} SamePrefix(journal: seq<Event>, events: seq<C.Event>, n: nat)
    requires n <= |journal| && SameJournal(journal, events)
    ensures SameJournal(journal[..n], events[..n])
  {
    forall k | 0 <= k < n ensures SameEvent(journal[..n][k], events[..n][k]) {
      assert SameEvent(journal[k], events[k]);
    }
  }

  lemma {:induction false} DecodedBefore(trace: seq<System>, steps: seq<Step>, k: nat, events: seq<C.Event>,
        plannings: nat -> Planning, h: K.Hashes)
    requires 0 < k && Decoded(trace, steps, k, events, plannings, h)
    ensures Decoded(trace, steps, k - 1, events, plannings, h)
    ensures trace[k - 1].journal <= trace[k].journal
  {
    assert StepTaken(trace, steps, k - 1);
    JournalGrows(trace[k - 1], trace[k], steps[k - 1]);
    var n := |trace[k - 1].journal|;
    SamePrefix(trace[k].journal, events[..|trace[k].journal|], n);
    assert trace[k].journal[..n] == trace[k - 1].journal && events[..|trace[k].journal|][..n] == events[..n];
  }

  lemma {:induction false} SameQuiet(journal: seq<Event>, events: seq<C.Event>, from: nat)
    requires SameJournal(journal, events) && QuietSince(journal, from)
    ensures R.QuietFrom(events, from)
  {
    forall k | from <= k < |events|
      ensures !events[k].body.SummaryUpdated? && !events[k].body.TurnCompleted?
    {
      assert SameEvent(journal[k], events[k]);
    }
  }

  lemma {:induction false} PlannedStepOk(events: seq<C.Event>, at: nat, seen: nat, p: Planning, h: K.Hashes)
    requires AsPlanned(events, at, seen, p, h) && R.QuietFrom(events[..at], seen) && |events| <= C.MAX_SEQUENCE
    ensures R.StepOk(events[..at], R.Summarize(events[at], p.options, p.before, seen), h)
  {
    assert R.PlannedAt(events[..at], seen, events[at].body.payload, p.options, h, p.before) by {
      assert events[..at][..seen] == events[..seen];
    }
  }

  function Committing(s: System, i: nat, events: seq<C.Event>, p: Planning): R.Step
    requires MayCompact(s, i) && |s.journal| < |events|
  {
    R.Summarize(events[|s.journal|], p.options, p.before, |s.runs[i].local.seen|)
  }

  /** A planned commitment may be the next step of the run, although other events came since it was planned. */
  lemma {:induction false} CommitmentIsNext(s: System, i: nat, events: seq<C.Event>, p: Planning, h: K.Hashes)
    requires MayCompact(s, i) && SeenThenQuiet(s, i) && |events| <= C.MAX_SEQUENCE && |s.journal| < |events|
    requires SameJournal(s.journal, events[..|s.journal|])
    requires AsPlanned(events, |s.journal|, |s.runs[i].local.seen|, p, h)
    ensures R.StepOk(events[..|s.journal|], Committing(s, i, events, p), h)
  {
    SameQuiet(s.journal, events[..|s.journal|], |s.runs[i].local.seen|);
    PlannedStepOk(events, |s.journal|, |s.runs[i].local.seen|, p, h);
  }

  lemma {:induction false} OthersAreSame(s: System, n: System, step: Step, events: seq<C.Event>)
    requires Next(s, n, step) && !AddsSummary(step) && |n.journal| <= |events|
    requires SameJournal(n.journal, events[..|n.journal|])
    ensures forall k :: |s.journal| <= k < |n.journal| ==> !events[k].body.SummaryUpdated?
  {
    JournalGrows(s, n, step);
    forall k | |s.journal| <= k < |n.journal| ensures !events[k].body.SummaryUpdated? {
      assert SameEvent(n.journal[k], events[..|n.journal|][k]);
    }
  }

  lemma {:induction false} Summarizes(s: System, n: System, step: Step)
    requires Next(s, n, step) && AddsSummary(step)
    ensures MayCompact(s, step.i) && |n.journal| == |s.journal| + 1
  {
  }

  /** What the protocol writes is a run of planned commitments. */
  lemma {:induction false} RunOf(trace: seq<System>, steps: seq<Step>, k: nat, events: seq<C.Event>,
        plannings: nat -> Planning, h: K.Hashes)
      returns (run: seq<R.Step>)
    requires Decoded(trace, steps, k, events, plannings, h)
    ensures R.Run(run, h) && R.Journal(run) == events[..|trace[k].journal|]
  {
    if k == 0 {
      run := [];
    } else {
      DecodedBefore(trace, steps, k, events, plannings, h);
      var before := RunOf(trace, steps, k - 1, events, plannings, h);
      var s, n, step := trace[k - 1], trace[k], steps[k - 1];
      assert StepTaken(trace, steps, k - 1);
      if AddsSummary(step) {
        Summarizes(s, n, step);
        JournalIsSeenThenQuiet(trace, steps, k - 1, step.i);
        assert CommitsAsPlanned(trace, steps, k - 1, events, plannings, h);
        CommitmentIsNext(s, step.i, events, plannings(k - 1), h);
        run := Extended(before, events, |s.journal|, Committing(s, step.i, events, plannings(k - 1)), h);
      } else {
        OthersAreSame(s, n, step, events);
        run := OthersExtend(before, events, |s.journal|, |n.journal|, h);
      }
    }
  }

  /** The summaries of a journal, and that planner, walker and verifier agree on them. */
  ghost predicate Agreed(events: seq<C.Event>, h: K.Hashes) {
    var all := C.Summaries(events, |events|);
    && R.AllRead(events, all) && (all != [] ==> C.IsChain(all, all))
    && C.SegmentOf(all) != C.Invalid && R.LevelsIncrease(all) && R.Pass(events, all, h)
  }

  /**
   * Over every run of the protocol, with any number of turns at once and whatever appends are
   * lost: if what turns commit is what the planner made of what they had read, the summaries are
   * one chain, none is left out, tiers are in order, and the verifier accepts each one.
   */
  lemma {:induction false} ConcurrentCommitmentsAgree(trace: seq<System>, steps: seq<Step>, k: nat,
        events: seq<C.Event>, plannings: nat -> Planning, h: K.Hashes)
    requires Decoded(trace, steps, k, events, plannings, h) && |events| == |trace[k].journal|
    ensures Agreed(events, h)
  {
    var run := RunOf(trace, steps, k, events, plannings, h);
    assert events[..|events|] == events;
    R.PlannerWalkerVerifierAgree(run, h);
  }

  // ---- A planned summary is one the protocol may write ----

  predicate AllCanonical(events: seq<C.Event>) {
    forall e :: e in events && e.body.SummaryUpdated? ==> C.Canonical(e.body.payload)
  }

  function CoveredBy(events: seq<C.Event>, n: nat): nat
    requires n <= |events|
  {
    var all := C.Summaries(events, n);
    if all == [] then 0 else all[|all| - 1].of.end
  }

  lemma {:induction false} CoveredAgrees(seen: seq<Event>, events: seq<C.Event>, n: nat)
    requires SameJournal(seen, events) && AllCanonical(events) && n <= |events|
    ensures LatestCovered(seen, n) == CoveredBy(events, n)
  {
    if n > 0 {
      CoveredAgrees(seen, events, n - 1);
      assert SameEvent(seen[n - 1], events[n - 1]) && events[n - 1] in events;
    }
  }

  lemma {:induction false} ReadIsCanonical(events: seq<C.Event>, n: nat)
    requires n <= |events| && R.AllRead(events, C.Summaries(events, |events|))
    ensures AllCanonical(events[..n])
  {
    C.SummariesAreCanonical(events, |events|);
    forall e | e in events[..n] && e.body.SummaryUpdated? ensures C.Canonical(e.body.payload) {
      assert e in events;
    }
  }

  lemma {:induction false} PlannedCovers(seen: seq<Event>, events: seq<C.Event>, s: C.Summary, o: K.Options,
        h: K.Hashes, before: nat)
    requires SameJournal(seen, events) && AllCanonical(events) && K.Plans(events, s, o, h, before)
    ensures Coverable(seen, s.of.end)
  {
    CoveredAgrees(seen, events, |events|);
    assert SameEvent(seen[s.of.end - 1], events[s.of.end - 1]);
  }

  /**
   * What the planner makes of what a turn has read is what the protocol lets it write: it ends at
   * a completed turn, past the summary before it.
   */
  lemma {:induction false} PlannedIsAdmitted(trace: seq<System>, steps: seq<Step>, k: nat, i: nat,
        events: seq<C.Event>, plannings: nat -> Planning, h: K.Hashes, s: C.Summary, o: K.Options, before: nat)
    requires Decoded(trace, steps, k, events, plannings, h) && |events| == |trace[k].journal|
    requires MayCompact(trace[k], i) && |trace[k].runs[i].local.seen| <= |events|
    requires K.Plans(events[..|trace[k].runs[i].local.seen|], s, o, h, before)
    ensures After(trace[k].runs[i].local, Summarize(s.of.end)).Some?
  {
    var seen := trace[k].runs[i].local.seen;
    JournalIsSeenThenQuiet(trace, steps, k, i);
    ConcurrentCommitmentsAgree(trace, steps, k, events, plannings, h);
    ReadIsCanonical(events, |seen|);
    assert events[..|events|] == events;
    SamePrefix(trace[k].journal, events, |seen|);
    assert trace[k].journal[..|seen|] == seen;
    PlannedCovers(seen, events[..|seen|], s, o, h, before);
  }
}
