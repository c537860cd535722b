/**
 * How a turn of a run that is over may have been left, over every run of the protocol
 * (src/core/agent.ts:218-313, 838-879).
 */
module TurnEndings {
  import opened Messages
  import opened TurnJournal
  import opened TurnHistory
  import opened TurnProtocol

  /** The turns a state's journal has seen requested. */
  function TurnsSeen(s: System): set<TurnId> {
    if Tracked(s.journal) then Track(s.journal).turns else {}
  }

  /** An admission of run `i` among the first `k` steps that committed, and then reported failure. */
  predicate AdmittedAmbiguously(steps: seq<Step>, k: nat, i: nat)
    requires k <= |steps|
  {
    k > 0 && (AdmittedAmbiguously(steps, k - 1, i)
              || (steps[k - 1].SAdmit? && steps[k - 1].i == i && steps[k - 1].how.Ambiguous?))
  }

  predicate CommitsTerminal(step: Step, i: nat) {
    match step
    case SFinish(j, _, how) => j == i && !how.Lost?
    case SWriteTerminal(j, _, _, how) => j == i && !how.Lost?
    case _ => false
  }

  /** One of the first `k` steps committed a terminal record of run `i`. */
  predicate TerminalCommitted(steps: seq<Step>, k: nat, i: nat)
    requires k <= |steps|
  {
    k > 0 && (TerminalCommitted(steps, k - 1, i) || CommitsTerminal(steps[k - 1], i))
  }

  lemma {:induction false} CountConcat(journal: seq<Event>, more: seq<Event>, n: nat, t: TurnId)
    requires n <= |journal|
    ensures TerminalCount(journal + more, n, t) == TerminalCount(journal, n, t)
  {
    if n > 0 { CountConcat(journal, more, n - 1, t); }
  }

  lemma {:induction false} CountOne(journal: seq<Event>, e: Event, t: TurnId)
    ensures TerminalCount(journal + [e], |journal| + 1, t)
         == TerminalCount(journal, |journal|, t) + if e.Of(t) && e.Terminal() then 1 else 0
  {
    CountConcat(journal, [e], |journal|, t);
  }

  /** Records that are no terminals count for nothing. */
  lemma {:induction false} CountNone(journal: seq<Event>, more: seq<Event>, t: TurnId)
    requires forall k :: 0 <= k < |more| ==> !more[k].Terminal()
    ensures TerminalCount(journal + more, |journal + more|, t) == TerminalCount(journal, |journal|, t)
  {
    if more == [] {
      assert journal + more == journal;
    } else {
      var init, last := more[..|more| - 1], more[|more| - 1];
      CountNone(journal, init, t);
      CountOne(journal + init, last, t);
      assert journal + more == (journal + init) + [last];
    }
  }

  lemma {:induction false} NoTerminalAmongRequests(i: nat, calls: seq<Call>)
    ensures forall k :: 0 <= k < |Requests(i, calls)| ==> !Requests(i, calls)[k].Terminal()
  {
    if calls != [] { NoTerminalAmongRequests(i, calls[1..]); }
  }

  lemma {:induction false} NoTerminalInWork(i: nat, w: Write)
    ensures forall k :: 0 <= k < |Records(i, w)| ==> !Records(i, w)[k].Terminal()
  {
    if w.Declare? { NoTerminalAmongRequests(i, w.calls); }
  }

  lemma {:induction false} StepCounts(s: System, n: System, step: Step, i: nat)
    requires Next(s, n, step)
    ensures TerminalCount(n.journal, |n.journal|, i)
         == TerminalCount(s.journal, |s.journal|, i) + if CommitsTerminal(step, i) then 1 else 0
  {
    match step
    case SAdmit(j, content, images, environment, how) =>
      if !how.Lost? { CountOne(s.journal, Of(j, TurnRequested(content, images, environment)), i); }
    case SWork(j, w, how) =>
      if !how.Lost? {
        NoTerminalInWork(j, w);
        CountNone(s.journal, Records(j, w), i);
      }
    case SFinish(j, text, how) =>
      if !how.Lost? {
        var answer, done := Of(j, AssistantCompleted(text, [])), Of(j, TurnCompleted);
        CountOne(s.journal, answer, i);
        CountOne(s.journal + [answer], done, i);
        assert n.journal == (s.journal + [answer]) + [done];
      }
    case SWriteTerminal(j, cancelled, reason, how) =>
      if !how.Lost? { CountOne(s.journal, Of(j, if cancelled then TurnCancelled(reason) else TurnFailed(reason)), i); }
    case SElsewhere(turn) => CountOne(s.journal, Event(turn, SessionRecord), i);
    case _ =>
  }

  /** The journal holds a terminal record of a run's turn exactly when one of its steps committed one. */
  lemma {:induction false} CountedCommits(trace: seq<System>, steps: seq<Step>, k: nat, i: nat)
    requires Behaviour(trace, steps) && k < |trace|
    ensures TerminalCount(trace[k].journal, |trace[k].journal|, i) > 0 <==> TerminalCommitted(steps, k, i)
  {
    if k > 0 {
      CountedCommits(trace, steps, k - 1, i);
      assert StepTaken(trace, steps, k - 1);
      StepCounts(trace[k - 1], trace[k], steps[k - 1], i);
    }
  }

  /** Whether run `i` has asked for admission yet. */
  predicate Before(runs: seq<Run>, i: nat) {
    i < |runs| ==> runs[i].Started? || runs[i].Read? || runs[i].Vetted?
  }

  /** What a run's place says of how its admission went. */
  predicate AdmissionTold(s: System, i: nat, ambiguous: bool) {
    if Before(s.runs, i) then !ambiguous && i !in TurnsSeen(s)
    else if s.runs[i].Refused? then ambiguous <==> i in TurnsSeen(s)
    else !ambiguous && i in TurnsSeen(s)
  }

  lemma {:induction false} AdmissionStep(s: System, n: System, step: Step, i: nat, ambiguous: bool)
    requires Inv(s) && Inv(n) && Next(s, n, step) && AdmissionTold(s, i, ambiguous)
    ensures AdmissionTold(n, i, ambiguous || (step.SAdmit? && step.i == i && step.how.Ambiguous?))
  {
    TurnsOnlyByAdmission(s, n, step, i);
  }

  lemma {:induction false} FinishTurns(journal: seq<Event>, i: nat, text: string)
    requires Tracked(journal) && Tracked(journal + [Of(i, AssistantCompleted(text, [])), Of(i, TurnCompleted)])
    ensures Track(journal + [Of(i, AssistantCompleted(text, [])), Of(i, TurnCompleted)]).turns == Track(journal).turns
  {
    var answer, done := Of(i, AssistantCompleted(text, [])), Of(i, TurnCompleted);
    var one, all := journal + [answer], journal + [answer, done];
    TrackAppend(journal, answer);
    assert all == one + [done];
    TrackPrefix(all, |one|, |all|);
    TrackIgnoresSuffix(one, [done], |one|);
    TrackAppend(one, done);
  }

  lemma {:induction false} RequestTurns(journal: seq<Event>, e: Event)
    requires Tracked(journal) && Tracked(journal + [e])
    ensures Track(journal + [e]).turns ==
            Track(journal).turns + if e.body.TurnRequested? && e.turn.Some? then {e.turn.value} else {}
  {
    TrackAppend(journal, e);
  }

  lemma {:induction false} WorkTurns(s: System, n: System, i: nat, w: Write, how: Append)
    requires Inv(s) && Work(s, n, i, w, how)
    ensures TurnsSeen(n) == TurnsSeen(s)
  {
    if !how.Lost? { WriteAdmitted(s.journal, i, s.runs[i].local, w); }
  }

  /** Only a committed admission of a run makes its turn a requested one. */
  lemma {:induction false} TurnsOnlyByAdmission(s: System, n: System, step: Step, i: nat)
    requires Inv(s) && Inv(n) && Next(s, n, step)
    ensures i in TurnsSeen(n) <==> i in TurnsSeen(s) || (step.SAdmit? && step.i == i && !step.how.Lost?)
  {
    match step
    case SAdmit(j, content, images, environment, how) =>
      if !how.Lost? { RequestTurns(s.journal, Of(j, TurnRequested(content, images, environment))); }
    case SWork(j, w, how) => WorkTurns(s, n, j, w, how);
    case SFinish(j, text, how) =>
      if !how.Lost? { FinishTurns(s.journal, j, text); }
    case SWriteTerminal(j, cancelled, reason, how) =>
      if !how.Lost? { RequestTurns(s.journal, Of(j, if cancelled then TurnCancelled(reason) else TurnFailed(reason))); }
    case SElsewhere(turn) =>
      if n.runs == s.runs { RequestTurns(s.journal, Event(turn, SessionRecord)); }
    case _ =>
  }

  lemma {:induction false} AdmissionsTold(trace: seq<System>, steps: seq<Step>, k: nat, i: nat)
    requires Behaviour(trace, steps) && k < |trace|
    ensures AdmissionTold(trace[k], i, AdmittedAmbiguously(steps, k, i))
  {
    Reachable(trace, steps, k);
    if k > 0 {
      AdmissionsTold(trace, steps, k - 1, i);
      Reachable(trace, steps, k - 1);
      assert StepTaken(trace, steps, k - 1);
      AdmissionStep(trace[k - 1], trace[k], steps[k - 1], i, AdmittedAmbiguously(steps, k - 1, i));
    }
  }

  predicate Over(s: System, i: nat) {
    i < |s.runs| && (s.runs[i].Refused? || s.runs[i].Ended?)
  }

  // ---- What a run has met at the store ----

  /**
   * How a run's closing append, its reads in the catch path and its terminal append went; none
   * of them when it has not come to that.
   */
  datatype Met = Met(
    finish: Option<Append>,
    reconciled: Option<bool>,
    terminal: Option<Append>,
    rechecked: Option<bool>)

  const NOTHING_MET := Met(None, None, None, None)

  function Meeting(m: Met, step: Step, i: nat): Met {
    match step
    case SFinish(j, _, how) => if j == i then m.(finish := Some(how)) else m
    case SReconcile(j, readable) => if j == i then m.(reconciled := Some(readable)) else m
    case SWriteTerminal(j, _, _, how) => if j == i then m.(terminal := Some(how)) else m
    case SRecheck(j, readable) => if j == i then m.(rechecked := Some(readable)) else m
    case _ => m
  }

  /** What run `i` has met in the first `k` steps. */
  function MetBy(steps: seq<Step>, k: nat, i: nat): Met
    requires k <= |steps|
  {
    if k == 0 then NOTHING_MET else Meeting(MetBy(steps, k - 1, i), steps[k - 1], i)
  }

  predicate Landed(how: Option<Append>) {
    how.Some? && !how.value.Lost?
  }

  /** Where a run stands tells what it has met. */
  predicate MetTold(run: Run, m: Met) {
    match run
    case Failing => m == Met(m.finish, None, None, None) && m.finish != Some(Ok)
    case Writing => m == Met(m.finish, Some(true), None, None) && !Landed(m.finish)
    case Rechecking => m == Met(m.finish, Some(true), m.terminal, None) && !Landed(m.finish)
      && m.terminal.Some? && m.terminal != Some(Ok)
    case Ended(Returned) => m == Met(Some(Ok), None, None, None)
    case Ended(Threw) => m.reconciled == Some(true)
      && (|| (m.finish == Some(Ambiguous) && m.terminal.None?)
          || (!Landed(m.finish) && m.terminal == Some(Ok))
          || (!Landed(m.finish) && m.terminal == Some(Ambiguous) && m.rechecked == Some(true)))
    case Ended(Aggregate) => m.finish != Some(Ok)
      && (|| (m.reconciled == Some(false) && m.terminal.None?)
          || (!Landed(m.finish) && m.reconciled == Some(true) && m.terminal == Some(Lost))
          || (!Landed(m.finish) && m.reconciled == Some(true) && m.terminal == Some(Ambiguous)
              && m.rechecked == Some(false)))
    case _ => m == NOTHING_MET
  }

  predicate MetFits(s: System, i: nat, m: Met) {
    && (if i < |s.runs| then MetTold(s.runs[i], m) else m == NOTHING_MET)
    && (TerminalCount(s.journal, |s.journal|, i) > 0 <==> Landed(m.finish) || Landed(m.terminal))
  }

  lemma {:induction false} MeetingCounts(s: System, n: System, step: Step, i: nat, m: Met)
    requires Next(s, n, step) && MetFits(s, i, m)
    ensures TerminalCount(n.journal, |n.journal|, i) > 0 <==>
            Landed(Meeting(m, step, i).finish) || Landed(Meeting(m, step, i).terminal)
  {
    StepCounts(s, n, step, i);
  }

  /** A step of another run is not noticed. */
  lemma {:induction false} MeetingElsewhere(s: System, n: System, step: Step, i: nat, m: Met)
    requires Next(s, n, step) && i < |s.runs| && (step.SElsewhere? || step.i != i)
    ensures i < |n.runs| && n.runs[i] == s.runs[i] && Meeting(m, step, i) == m
  {
  }

  lemma {:induction false} MeetingOwn(s: System, n: System, step: Step, i: nat, m: Met)
    requires Inv(s) && Next(s, n, step) && MetFits(s, i, m) && i < |s.runs| && !step.SElsewhere? && step.i == i
    ensures i < |n.runs| && MetTold(n.runs[i], Meeting(m, step, i))
  {
    TerminalsOf(s.journal, |s.journal|, i);
  }

  lemma {:induction false} MeetingTold(s: System, n: System, step: Step, i: nat, m: Met)
    requires Inv(s) && Next(s, n, step) && MetFits(s, i, m)
    ensures if i < |n.runs| then MetTold(n.runs[i], Meeting(m, step, i)) else Meeting(m, step, i) == NOTHING_MET
  {
    if i < |s.runs| {
      if step.SElsewhere? || step.i != i { MeetingElsewhere(s, n, step, i, m); } else { MeetingOwn(s, n, step, i, m); }
    }
  }

  lemma {:induction false} MeetingFits(s: System, n: System, step: Step, i: nat, m: Met)
    requires Inv(s) && Next(s, n, step) && MetFits(s, i, m)
    ensures MetFits(n, i, Meeting(m, step, i))
  {
    MeetingCounts(s, n, step, i, m);
    MeetingTold(s, n, step, i, m);
  }

  lemma {:induction false} MetIsTold(trace: seq<System>, steps: seq<Step>, k: nat, i: nat)
    requires Behaviour(trace, steps) && k < |trace|
    ensures MetFits(trace[k], i, MetBy(steps, k, i))
  {
    if k > 0 {
      MetIsTold(trace, steps, k - 1, i);
      Reachable(trace, steps, k - 1);
      assert StepTaken(trace, steps, k - 1);
      MeetingFits(trace[k - 1], trace[k], steps[k - 1], i, MetBy(steps, k - 1, i));
    }
  }

  /**
   * Exactly when a run that is over ended in an aggregate error: the journal could not be read
   * when it failed; or its terminal append reported failure, and had not committed or could not
   * be found again.
   */
  lemma {:induction false} AggregateExactly(trace: seq<System>, steps: seq<Step>, k: nat, i: nat)
    requires Behaviour(trace, steps) && k < |trace| && Over(trace[k], i)
    ensures trace[k].runs[i] == Ended(Aggregate) <==>
            var m := MetBy(steps, k, i);
            || m.reconciled == Some(false)
            || m.terminal == Some(Lost)
            || (m.terminal == Some(Ambiguous) && m.rechecked == Some(false))
  {
    MetIsTold(trace, steps, k, i);
  }

  /**
   * Exactly when a run that is over leaves its turn requested and open for good: its admission
   * committed but reported failure; or the journal could not be read when it failed, and its
   * closing append had not committed; or its terminal append was lost.
   */
  lemma {:induction false} LeftOpenExactly(trace: seq<System>, steps: seq<Step>, k: nat, i: nat)
    requires Behaviour(trace, steps) && k < |trace| && Over(trace[k], i)
    ensures i in TurnsSeen(trace[k]) && TerminalCount(trace[k].journal, |trace[k].journal|, i) == 0 <==>
            || AdmittedAmbiguously(steps, k, i)
            || (MetBy(steps, k, i).reconciled == Some(false) && MetBy(steps, k, i).finish != Some(Ambiguous))
            || MetBy(steps, k, i).terminal == Some(Lost)
  {
    Reachable(trace, steps, k);
    AdmissionsTold(trace, steps, k, i);
    MetIsTold(trace, steps, k, i);
    if trace[k].runs[i].Refused? && i in TurnsSeen(trace[k]) { RefusedIsOpen(trace[k], i); }
  }

  lemma {:induction false} RefusedIsOpen(s: System, i: nat)
    requires Inv(s) && i < |s.runs| && s.runs[i].Refused? && i in TurnsSeen(s)
    ensures TerminalCount(s.journal, |s.journal|, i) == 0
  {
    TerminalsOf(s.journal, |s.journal|, i);
    assert RunFits(s.journal, i, s.runs[i]);
  }

  lemma {:induction false} RefusedStep(s: System, n: System, step: Step, i: nat)
    requires Next(s, n, step) && i < |s.runs| && s.runs[i].Refused?
    ensures i < |n.runs| && n.runs[i].Refused?
  {
  }

  lemma {:induction false} RefusedStaysRefused(trace: seq<System>, steps: seq<Step>, k: nat, m: nat, i: nat)
    requires Behaviour(trace, steps) && k <= m < |trace|
    requires i < |trace[k].runs| && trace[k].runs[i].Refused?
    ensures i < |trace[m].runs| && trace[m].runs[i].Refused?
    decreases m
  {
    if k < m {
      RefusedStaysRefused(trace, steps, k, m - 1, i);
      assert StepTaken(trace, steps, m - 1);
      RefusedStep(trace[m - 1], trace[m], steps[m - 1], i);
    }
  }

  lemma {:induction false} AmbiguousStays(steps: seq<Step>, k: nat, m: nat, i: nat)
    requires k <= m <= |steps| && AdmittedAmbiguously(steps, k, i)
    ensures AdmittedAmbiguously(steps, m, i)
    decreases m
  {
    if k < m { AmbiguousStays(steps, k, m - 1, i); }
  }

  /** A turn left open by an ambiguous admission stays so, and the session never admits another. */
  lemma {:induction false} OrphanedAdmissionBlocksTheSession(trace: seq<System>, steps: seq<Step>, k: nat, m: nat,
        i: nat, j: nat)
    requires Behaviour(trace, steps) && k <= m < |trace|
    requires i < |trace[k].runs| && trace[k].runs[i].Refused? && AdmittedAmbiguously(steps, k, i)
    requires j < |trace[m].runs|
    ensures !trace[m].runs[j].Working? && Unfinished(trace[m].journal, |trace[m].journal|) == Some(i)
  {
    RefusedStaysRefused(trace, steps, k, m, i);
    AmbiguousStays(steps, k, m, i);
    AdmissionsTold(trace, steps, m, i);
    Reachable(trace, steps, m);
    UnfinishedIsOpenTurn(trace[m].journal, |trace[m].journal|);
    assert RunFits(trace[m].journal, i, trace[m].runs[i]) && RunFits(trace[m].journal, j, trace[m].runs[j]);
  }

  // ---- Two runs that leave a turn open ----

  const ALONE := System([], [Started])

  /** One run whose admission goes `how`. */
  function Admitting(how: Append): seq<System> {
    var request := Of(0, TurnRequested("hello", [], ""));
    [ALONE, System([], [Read(0)]), System([], [Vetted(0, [])]),
     System(Committed([], [request], how), [if how.Ok? then Working(Local([], {}, {}, Selecting)) else Refused])]
  }

  function AdmittingSteps(how: Append): seq<Step> {
    [SReadSession(0), SReadEvents(0), SAdmit(0, "hello", [], "", how)]
  }

  lemma {:induction false} AdmittingRuns(how: Append)
    ensures Behaviour(Admitting(how), AdmittingSteps(how))
  {
    var trace, steps := Admitting(how), AdmittingSteps(how);
    assert Next(trace[0], trace[1], steps[0]);
    assert Next(trace[1], trace[2], steps[1]);
    assert OperationIds([], 0) == {};
    assert Next(trace[2], trace[3], steps[2]);
    forall k | 0 <= k < |steps| ensures StepTaken(trace, steps, k) {
      if k == 0 {} else if k == 1 {} else { assert k == 2; }
    }
  }

  /** The ambiguous admission happens: its run is over and its turn is open. */
  lemma {:induction false} AnAdmissionIsOrphaned()
    ensures Behaviour(Admitting(Ambiguous), AdmittingSteps(Ambiguous))
    ensures Admitting(Ambiguous)[3].runs[0].Refused? && AdmittedAmbiguously(AdmittingSteps(Ambiguous), 3, 0)
    ensures 0 in TurnsSeen(Admitting(Ambiguous)[3])
  {
    AdmittingRuns(Ambiguous);
    AdmissionsTold(Admitting(Ambiguous), AdmittingSteps(Ambiguous), 3, 0);
  }

  lemma {:induction false} NothingCommitted(steps: seq<Step>, k: nat, i: nat)
    requires k <= |steps| && forall m :: 0 <= m < k ==> !CommitsTerminal(steps[m], i)
    ensures !TerminalCommitted(steps, k, i)
  {
    if k > 0 { NothingCommitted(steps, k - 1, i); }
  }

  /** One run that is admitted, fails, and cannot read the journal back. */
  function Unreadable(): seq<System> {
    var journal := [Of(0, TurnRequested("hello", [], ""))];
    Admitting(Ok) + [System(journal, [Failing]), System(journal, [Ended(Aggregate)])]
  }

  function UnreadableSteps(): seq<Step> {
    AdmittingSteps(Ok) + [SThrow(0), SReconcile(0, false)]
  }

  lemma {:induction false} UnreadableRuns()
    ensures Behaviour(Unreadable(), UnreadableSteps())
  {
    var trace, steps := Unreadable(), UnreadableSteps();
    AdmittingRuns(Ok);
    assert Next(trace[3], trace[4], steps[3]);
    assert Next(trace[4], trace[5], steps[4]);
    forall k | 0 <= k < |steps| ensures StepTaken(trace, steps, k) {
      if k < 3 {
        assert StepTaken(Admitting(Ok), AdmittingSteps(Ok), k);
      } else {
        assert k == 3 || k == 4;
      }
    }
  }

  /** So does the other way: the store cannot be read back when the turn has failed. */
  lemma {:induction false} AnAggregateLeavesItOpen()
    ensures Behaviour(Unreadable(), UnreadableSteps()) && |UnreadableSteps()| == 5
    ensures Unreadable()[5].runs == [Ended(Aggregate)] && 0 in TurnsSeen(Unreadable()[5])
    ensures !TerminalCommitted(UnreadableSteps(), 5, 0)
  {
    UnreadableRuns();
    assert 0 in TurnsSeen(Unreadable()[5]) by { AdmissionsTold(Unreadable(), UnreadableSteps(), 5, 0); }
    NothingCommitted(UnreadableSteps(), 5, 0);
  }
}
