/** What each outcome of a queued operation stands for (src/core/journal.ts:171-305). */
module QueueOutcomes {
  import opened Messages
  import opened JournalQueue

  /** The backend is asked, while the session stands as said. */
  predicate AsksFor(s: System, step: Step, i: nat, stands: bool) {
    step.Apply? && step.op == i && i < |s.ops| && s.ops[i].phase.Submitted?
    && (stands <==> s.session == Some(s.ops[i].phase.head))
  }

  /** The step, and the session it meets, that give operation `i` an outcome. */
  predicate Decides(s: System, step: Step, i: nat, outcome: Outcome) {
    match outcome
    case Committed => AsksFor(s, step, i, true) && step.reported
    case CommittedThenFailed => AsksFor(s, step, i, true) && !step.reported
    case Conflict => AsksFor(s, step, i, false) && s.session.Some?
    case AlreadyGone => AsksFor(s, step, i, false) && s.session.None? && s.ops[i].kind.Delete?
    case UnknownSession =>
      && s.session.None?
      && (step == ReadHead(i) || (AsksFor(s, step, i, false) && !s.ops[i].kind.Delete?))
    case BackendFailed => step == Fail(i)
    case Aborted =>
      || (step.Call? && step.aborted && i == |s.ops| && s.tail.None? && !step.kind.Delete?)
      || (step == Start(i, true) && i < |s.ops| && !s.ops[i].kind.Delete?)
      || step == LeaveEarly(i) || step == Submit(i, true)
  }

  predicate Has(s: System, i: nat, outcome: Outcome) {
    i < |s.ops| && (s.ops[i].phase.Applied? || s.ops[i].phase.Settled?) && s.ops[i].phase.outcome == outcome
  }

  lemma {:induction false} CallDecides(s: System, step: Step, i: nat, outcome: Outcome)
    requires Enabled(s, step) && step.Call?
    ensures Has(Do(s, step), i, outcome) <==> Has(s, i, outcome) || Decides(s, step, i, outcome)
  {
    if i < |s.ops| { assert Do(s, step).ops[i] == s.ops[i]; }
  }

  lemma {:induction false} ApplyDecides(s: System, step: Step, i: nat, outcome: Outcome)
    requires Enabled(s, step) && step.Apply?
    ensures Has(Do(s, step), i, outcome) <==> Has(s, i, outcome) || Decides(s, step, i, outcome)
  {
    var n := Do(s, step);
    assert |n.ops| == |s.ops| && n.ops[step.op].phase.Applied?;
    if i < |s.ops| && i != step.op { assert n.ops[i] == s.ops[i]; }
  }

  lemma {:induction false} StepDecides(s: System, step: Step, i: nat, outcome: Outcome)
    requires Enabled(s, step)
    ensures Has(Do(s, step), i, outcome) <==> Has(s, i, outcome) || Decides(s, step, i, outcome)
  {
    if step.Call? {
      CallDecides(s, step, i, outcome);
    } else if step.Apply? {
      ApplyDecides(s, step, i, outcome);
    } else {
      QuietDecides(s, step, i, outcome);
    }
  }

  lemma {:induction false} QuietDecides(s: System, step: Step, i: nat, outcome: Outcome)
    requires Enabled(s, step) && !step.Call? && !step.Apply?
    ensures Has(Do(s, step), i, outcome) <==> Has(s, i, outcome) || Decides(s, step, i, outcome)
  {
    var n := Do(s, step);
    assert |n.ops| == |s.ops|;
    if i < |s.ops| && (step.Outside? || i != step.op) { assert n.ops[i] == s.ops[i]; }
  }

  predicate DecidedBefore(trace: seq<System>, steps: seq<Step>, k: nat, i: nat, outcome: Outcome)
    requires k <= |steps| <= |trace|
  {
    exists m :: 0 <= m < k && Decides(trace[m], steps[m], i, outcome)
  }

  /**
   * Over every run, an operation has an outcome exactly when the step that stands for it was
   * taken: no conflict is reported but on a head that has moved, no abort but of an aborted
   * call, and nothing is reported lost or gone that the backend was asked for and held.
   */
  lemma {:induction false} OutcomeExactly(trace: seq<System>, steps: seq<Step>, k: nat, i: nat, outcome: Outcome)
    requires Behaviour(trace, steps) && k < |trace|
    ensures Has(trace[k], i, outcome) <==> DecidedBefore(trace, steps, k, i, outcome)
  {
    if k > 0 {
      OutcomeExactly(trace, steps, k - 1, i, outcome);
      assert StepTaken(trace, steps, k - 1);
      StepDecides(trace[k - 1], steps[k - 1], i, outcome);
      if Decides(trace[k - 1], steps[k - 1], i, outcome) { assert DecidedBefore(trace, steps, k, i, outcome); }
    }
  }
}
