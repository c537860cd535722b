/** What a run's steps leave in the journal, record by record (src/core/agent.ts:283-313, 390-409, 442-879). */
module TurnRecords {
  import opened Messages
  import opened TurnJournal
  import opened TurnProtocol
  import opened TurnEndings

  /** A step of run `i` that commits a record with this body. */
  predicate Commits(step: Step, i: nat, body: Body) {
    match step
    case SAdmit(j, content, images, environment, how) =>
      j == i && !how.Lost? && body == TurnRequested(content, images, environment)
    case SWork(j, w, how) => j == i && !how.Lost? && WorkRecord(w, body)
    case SFinish(j, text, how) =>
      j == i && !how.Lost? && (body == AssistantCompleted(text, []) || body == TurnCompleted)
    case SWriteTerminal(j, cancelled, reason, how) =>
      j == i && !how.Lost? && (if cancelled then body == TurnCancelled(reason) else body == TurnFailed(reason))
    case _ => false
  }

  /** What one append of the try block says, of the records it makes. */
  predicate WorkRecord(w: Write, body: Body) {
    match body
    case ContextSelected(selection) => w == Select(selection)
    case SummaryUpdated(covers) => w == Summarize(covers)
    case PlanRestated(note) => w == Restate(note)
    case InferenceNoted => w == Infer
    case ToolApproved(id) => w == Approve(id)
    case ToolOutcome(id, result) => w == Resolve(id, result)
    case AssistantCompleted(text, calls) => w == Declare(text, calls)
    case ToolRequested(call) => w.Declare? && call in w.calls
    case _ => false
  }

  /** One of the first `k` steps commits such a record. */
  predicate Committed(steps: seq<Step>, k: nat, i: nat, body: Body)
    requires k <= |steps|
  {
    k > 0 && (Committed(steps, k - 1, i, body) || Commits(steps[k - 1], i, body))
  }

  lemma {:induction false} RequestRecords(i: nat, calls: seq<Call>, e: Event)
    ensures e in Requests(i, calls) <==> e.turn == Some(i) && e.body.ToolRequested? && e.body.call in calls
  {
    if calls != [] {
      var rest := Requests(i, calls[1..]);
      RequestRecords(i, calls[1..], e);
      assert calls == [calls[0]] + calls[1..];
      assert e in Requests(i, calls) <==> e == Of(i, ToolRequested(calls[0])) || e in rest;
    }
  }

  lemma {:induction false} WorkRecords(i: nat, w: Write, e: Event)
    ensures e in Records(i, w) <==> e.turn == Some(i) && WorkRecord(w, e.body)
  {
    if w.Declare? {
      RequestRecords(i, w.calls, e);
      assert e in Records(i, w) <==> e == Of(i, AssistantCompleted(w.text, w.calls)) || e in Requests(i, w.calls);
    }
  }

  lemma {:induction false} StepRecords(s: System, n: System, step: Step, i: nat, body: Body)
    requires Next(s, n, step) && !body.SessionRecord?
    ensures Of(i, body) in n.journal <==> Of(i, body) in s.journal || Commits(step, i, body)
  {
    match step
    case SWork(j, w, how) => WorkRecords(j, w, Of(i, body));
    case _ =>
  }

  /**
   * Over every run of the protocol, the journal holds a record of a turn exactly when a step of
   * that turn's run committed it: a cancellation with its reason, a failure, a completion, and
   * each request, selection, summary, note, approval, outcome and answer with what it says.
   */
  lemma {:induction false} RecordsAreCommitted(trace: seq<System>, steps: seq<Step>, k: nat, i: nat, body: Body)
    requires Behaviour(trace, steps) && k < |trace| && !body.SessionRecord?
    ensures Of(i, body) in trace[k].journal <==> Committed(steps, k, i, body)
  {
    if k > 0 {
      RecordsAreCommitted(trace, steps, k - 1, i, body);
      assert StepTaken(trace, steps, k - 1);
      StepRecords(trace[k - 1], trace[k], steps[k - 1], i, body);
    }
  }

  lemma {:induction false} CommittedBy(steps: seq<Step>, k: nat, i: nat, body: Body) returns (m: nat)
    requires k <= |steps| && Committed(steps, k, i, body)
    ensures m < k && Commits(steps[m], i, body)
  {
    m := k - 1;
    if Committed(steps, k - 1, i, body) { m := CommittedBy(steps, k - 1, i, body); }
  }

  lemma {:induction false} CommitsIn(steps: seq<Step>, k: nat, i: nat, body: Body, m: nat)
    requires m < k <= |steps| && Commits(steps[m], i, body)
    ensures Committed(steps, k, i, body)
  {
    if m < k - 1 { CommitsIn(steps, k - 1, i, body, m); }
  }

  /** Which terminal a turn gets is what the step that wrote it was told. */
  lemma {:induction false} TerminalSays(trace: seq<System>, steps: seq<Step>, k: nat, i: nat)
    requires Behaviour(trace, steps) && k < |trace|
    ensures forall reason :: Of(i, TurnCancelled(reason)) in trace[k].journal <==>
              exists m :: 0 <= m < k && steps[m].SWriteTerminal? && steps[m].i == i && !steps[m].how.Lost?
                          && steps[m].cancelled && steps[m].reason == reason
    ensures forall error :: Of(i, TurnFailed(error)) in trace[k].journal <==>
              exists m :: 0 <= m < k && steps[m].SWriteTerminal? && steps[m].i == i && !steps[m].how.Lost?
                          && !steps[m].cancelled && steps[m].reason == error
    ensures Of(i, TurnCompleted) in trace[k].journal <==>
            exists m :: 0 <= m < k && steps[m].SFinish? && steps[m].i == i && !steps[m].how.Lost?
  {
    forall reason
      ensures Of(i, TurnCancelled(reason)) in trace[k].journal <==>
              exists m :: 0 <= m < k && steps[m].SWriteTerminal? && steps[m].i == i && !steps[m].how.Lost?
                          && steps[m].cancelled && steps[m].reason == reason
    {
      CommittedExactly(trace, steps, k, i, TurnCancelled(reason));
    }
    forall error
      ensures Of(i, TurnFailed(error)) in trace[k].journal <==>
              exists m :: 0 <= m < k && steps[m].SWriteTerminal? && steps[m].i == i && !steps[m].how.Lost?
                          && !steps[m].cancelled && steps[m].reason == error
    {
      CommittedExactly(trace, steps, k, i, TurnFailed(error));
    }
    CommittedExactly(trace, steps, k, i, TurnCompleted);
  }

  lemma {:induction false} CommittedExactly(trace: seq<System>, steps: seq<Step>, k: nat, i: nat, body: Body)
    requires Behaviour(trace, steps) && k < |trace| && !body.SessionRecord?
    ensures Of(i, body) in trace[k].journal <==> exists m :: 0 <= m < k && Commits(steps[m], i, body)
  {
    RecordsAreCommitted(trace, steps, k, i, body);
    if Committed(steps, k, i, body) { var m := CommittedBy(steps, k, i, body); }
    if m :| 0 <= m < k && Commits(steps[m], i, body) { CommitsIn(steps, k, i, body, m); }
  }

  // ---- Where the records stand ----

  lemma {:induction false} JournalsExtend(trace: seq<System>, steps: seq<Step>, m: nat, k: nat)
    requires Behaviour(trace, steps) && m <= k < |trace|
    ensures trace[m].journal <= trace[k].journal
    decreases k
  {
    if m < k {
      JournalsExtend(trace, steps, m, k - 1);
      assert StepTaken(trace, steps, k - 1);
      StepExtends(trace[k - 1], trace[k], steps[k - 1]);
    }
  }

  lemma {:induction false} StepExtends(s: System, n: System, step: Step)
    requires Next(s, n, step)
    ensures s.journal <= n.journal
  {
  }

  /** How an append of a step went; Lost for a step that appends nothing of a turn. */
  function Went(step: Step): Append {
    match step
    case SAdmit(_, _, _, _, how) => how
    case SWork(_, _, how) => how
    case SFinish(_, _, how) => how
    case SWriteTerminal(_, _, _, how) => how
    case _ => Lost
  }

  /** How many records an append makes: an answer comes with its end, a step with its calls. */
  function Weight(step: Step): nat {
    match step
    case SFinish(_, _, _) => 2
    case SWork(_, Declare(_, calls), _) => 1 + |calls|
    case _ => 1
  }

  /** The records of a step stand together from `at` on, in their order. */
  predicate StandAt(step: Step, journal: seq<Event>, at: nat) {
    && at + Weight(step) <= |journal|
    && match step
       case SFinish(i, text, _) =>
         journal[at] == Of(i, AssistantCompleted(text, [])) && journal[at + 1] == Of(i, TurnCompleted)
       case SWork(i, Declare(text, calls), _) =>
         && journal[at] == Of(i, AssistantCompleted(text, calls))
         && forall j :: 0 <= j < |calls| ==> journal[at + 1 + j] == Of(i, ToolRequested(calls[j]))
       case SWork(i, w, _) => journal[at].turn == Some(i) && WorkRecord(w, journal[at].body)
       case SAdmit(i, content, images, environment, _) =>
         journal[at] == Of(i, TurnRequested(content, images, environment))
       case SWriteTerminal(i, cancelled, reason, _) =>
         journal[at] == Of(i, if cancelled then TurnCancelled(reason) else TurnFailed(reason))
       case _ => true
  }

  lemma {:induction false} RequestAt(i: nat, calls: seq<Call>, j: nat)
    requires j < |calls|
    ensures |Requests(i, calls)| == |calls| && Requests(i, calls)[j] == Of(i, ToolRequested(calls[j]))
  {
    RequestCount(i, calls);
    if j > 0 { RequestAt(i, calls[1..], j - 1); }
  }

  lemma {:induction false} RequestCount(i: nat, calls: seq<Call>)
    ensures |Requests(i, calls)| == |calls|
  {
    if calls != [] { RequestCount(i, calls[1..]); }
  }

  lemma {:induction false} DeclarationStands(s: System, n: System, step: Step)
    requires Next(s, n, step) && step.SWork? && step.w.Declare? && !step.how.Lost?
    ensures StandAt(step, n.journal, |s.journal|) && |n.journal| == |s.journal| + Weight(step)
  {
    var calls := step.w.calls;
    RequestCount(step.i, calls);
    forall j | 0 <= j < |calls| ensures n.journal[|s.journal| + 1 + j] == Of(step.i, ToolRequested(calls[j])) {
      RequestAt(step.i, calls, j);
    }
  }

  lemma {:induction false} StepStands(s: System, n: System, step: Step)
    requires Next(s, n, step)
    ensures !Went(step).Lost? ==> StandAt(step, n.journal, |s.journal|) && |n.journal| == |s.journal| + Weight(step)
    ensures Went(step).Lost? && !step.SElsewhere? ==> n.journal == s.journal
  {
    if step.SWork? && step.w.Declare? && !step.how.Lost? { DeclarationStands(s, n, step); }
  }

  lemma {:induction false} StandsInMore(step: Step, journal: seq<Event>, more: seq<Event>, at: nat)
    requires StandAt(step, journal, at) && journal <= more
    ensures StandAt(step, more, at)
  {
  }

  /**
   * Over every run, what a step appended stands where the journal then ended, complete and in
   * order, whatever comes after it; and an append that was lost left nothing.
   */
  lemma {:induction false} RecordsStand(trace: seq<System>, steps: seq<Step>, m: nat, k: nat)
    requires Behaviour(trace, steps) && m < k < |trace|
    ensures !Went(steps[m]).Lost? ==>
              && StandAt(steps[m], trace[k].journal, |trace[m].journal|)
              && |trace[m + 1].journal| == |trace[m].journal| + Weight(steps[m])
    ensures Went(steps[m]).Lost? && !steps[m].SElsewhere? ==> trace[m + 1].journal == trace[m].journal
  {
    assert StepTaken(trace, steps, m);
    StepStands(trace[m], trace[m + 1], steps[m]);
    JournalsExtend(trace, steps, m + 1, k);
    if !Went(steps[m]).Lost? {
      StandsInMore(steps[m], trace[m + 1].journal, trace[k].journal, |trace[m].journal|);
    }
  }
}
