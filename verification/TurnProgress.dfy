/** That turns can get done: from every state there are steps that finish them (src/core/agent.ts:190-836). */
module TurnProgress {
  import opened Messages
  import opened TurnJournal
  import opened TurnHistory
  import opened TurnProtocol

  /** The steps lead from the first state to the last. */
  predicate Path(trace: seq<System>, steps: seq<Step>) {
    |trace| == |steps| + 1 && forall k :: 0 <= k < |steps| ==> StepTaken(trace, steps, k)
  }

  /** A path of run `i`'s own steps, none of whose appends fails. */
  predicate OwnPath(s: System, trace: seq<System>, steps: seq<Step>, i: nat) {
    && Path(trace, steps) && trace[0] == s
    && forall k :: 0 <= k < |steps| ==> OwnStep(steps[k], i)
  }

  predicate OwnStep(step: Step, i: nat) {
    match step
    case SReadSession(j) => j == i
    case SReadEvents(j) => j == i
    case SAdmit(j, _, _, _, how) => j == i && how.Ok?
    case SWork(j, _, how) => j == i && how.Ok?
    case SFinish(j, _, how) => j == i && how.Ok?
    case _ => false
  }

  function Final(trace: seq<System>): System
    requires trace != []
  {
    trace[|trace| - 1]
  }

  lemma {:induction false} Prepend(s: System, step: Step, i: nat, n: System, trace: seq<System>, steps: seq<Step>)
    requires Next(s, n, step) && OwnStep(step, i) && OwnPath(n, trace, steps, i)
    ensures OwnPath(s, [s] + trace, [step] + steps, i) && Final([s] + trace) == Final(trace)
  {
    var all, walked := [s] + trace, [step] + steps;
    forall k | 0 <= k < |walked| ensures StepTaken(all, walked, k) && OwnStep(walked[k], i) {
      if k > 0 {
        assert StepTaken(trace, steps, k - 1);
        assert all[k] == trace[k - 1] && all[k + 1] == trace[k] && walked[k] == steps[k - 1];
      }
    }
  }

  lemma {:induction false} NoPath(s: System, i: nat)
    ensures OwnPath(s, [s], [], i)
  {
  }

  /** The turn is answered: the run returned, and its answer and completion are the last of the journal. */
  predicate AnsweredBy(before: System, after: System, i: nat, answer: string) {
    && i < |after.runs| && after.runs[i] == Ended(Returned)
    && before.journal <= after.journal && |after.journal| >= 2
    && after.journal[|after.journal| - 2..] == [Of(i, AssistantCompleted(answer, [])), Of(i, TurnCompleted)]
  }

  predicate AtWork(s: System, i: nat) {
    i < |s.runs| && s.runs[i].Working?
  }

  /** The state after a write of run `i`. */
  function Wrote(s: System, i: nat, w: Write): System
    requires AtWork(s, i) && After(s.runs[i].local, w).Some?
  {
    System(s.journal + Records(i, w), s.runs[i := Working(After(s.runs[i].local, w).value)])
  }

  lemma {:induction false} WroteIsNext(s: System, i: nat, w: Write)
    requires AtWork(s, i) && After(s.runs[i].local, w).Some?
    ensures Next(s, Wrote(s, i, w), SWork(i, w, Ok)) && AtWork(Wrote(s, i, w), i)
    ensures Wrote(s, i, w).runs[i].local == After(s.runs[i].local, w).value
  {
  }

  lemma {:induction false} Finishes(s: System, i: nat, answer: string) returns (n: System)
    requires AtWork(s, i) && s.runs[i].local.stage.Stepping? && s.runs[i].local.pending == {}
    ensures Next(s, n, SFinish(i, answer, Ok)) && AnsweredBy(s, n, i, answer)
  {
    n := System(s.journal + [Of(i, AssistantCompleted(answer, [])), Of(i, TurnCompleted)],
                s.runs[i := Ended(Returned)]);
  }

  /**
   * Wherever the loop of a run stands, with whatever calls unanswered, the run can still answer
   * them and complete its turn by its own appends.
   */
  lemma {:induction false} CanFinish(s: System, i: nat, answer: string) returns (trace: seq<System>, steps: seq<Step>)
    requires AtWork(s, i)
    ensures OwnPath(s, trace, steps, i) && AnsweredBy(s, Final(trace), i, answer)
    decreases |s.runs[i].local.pending|, if s.runs[i].local.stage.Stepping? then 0 else 1
  {
    var l := s.runs[i].local;
    if l.pending == {} && l.stage.Stepping? {
      var n := Finishes(s, i, answer);
      NoPath(n, i);
      Prepend(s, SFinish(i, answer, Ok), i, n, [n], []);
      trace, steps := [s] + [n], [SFinish(i, answer, Ok)] + [];
    } else {
      var w := if l.pending == {} then Infer else var id :| id in l.pending; Resolve(id, "");
      WroteIsNext(s, i, w);
      var n := Wrote(s, i, w);
      var rest, others := CanFinish(n, i, answer);
      Prepend(s, SWork(i, w, Ok), i, n, rest, others);
      trace, steps := [s] + rest, [SWork(i, w, Ok)] + others;
    }
  }

  /** One write more in front of a path that completes the turn. */
  lemma {:induction false} WriteFirst(s: System, i: nat, w: Write, answer: string, trace: seq<System>,
        steps: seq<Step>)
    requires AtWork(s, i) && After(s.runs[i].local, w).Some?
    requires OwnPath(Wrote(s, i, w), trace, steps, i) && AnsweredBy(Wrote(s, i, w), Final(trace), i, answer)
    ensures OwnPath(s, [s] + trace, [SWork(i, w, Ok)] + steps, i)
    ensures AnsweredBy(s, Final([s] + trace), i, answer)
  {
    WroteIsNext(s, i, w);
    Prepend(s, SWork(i, w, Ok), i, Wrote(s, i, w), trace, steps);
  }

  /** A loop between steps can declare any calls under new ids, and complete its turn after them. */
  lemma {:induction false} CanCall(s: System, i: nat, text: string, calls: seq<Call>, answer: string)
      returns (trace: seq<System>, steps: seq<Step>)
    requires AtWork(s, i) && s.runs[i].local.stage.Stepping? && s.runs[i].local.pending == {}
    requires calls != [] && DistinctIds(calls) && CallIds(calls) !! s.runs[i].local.reserved
    ensures OwnPath(s, trace, steps, i) && AnsweredBy(s, Final(trace), i, answer)
    ensures |steps| > 1 && steps[0] == SWork(i, Declare(text, calls), Ok)
    ensures steps[1] == SWork(i, Approve(calls[0].id), Ok)
  {
    var declared := Wrote(s, i, Declare(text, calls));
    assert calls[0] in calls;
    var approved := Wrote(declared, i, Approve(calls[0].id));
    var rest, others := CanFinish(approved, i, answer);
    WriteFirst(declared, i, Approve(calls[0].id), answer, rest, others);
    WriteFirst(s, i, Declare(text, calls), answer, [declared] + rest, [SWork(i, Approve(calls[0].id), Ok)] + others);
    trace := [s] + ([declared] + rest);
    steps := [SWork(i, Declare(text, calls), Ok)] + ([SWork(i, Approve(calls[0].id), Ok)] + others);
  }

  /** A turn just admitted can write its whole prelude, in its order, and then complete. */
  lemma {:induction false} CanPrepare(s: System, i: nat, selection: string, covers: nat, note: Option<string>,
        answer: string)
      returns (trace: seq<System>, steps: seq<Step>)
    requires AtWork(s, i) && s.runs[i].local.stage.Selecting? && Coverable(s.runs[i].local.seen, covers)
    ensures OwnPath(s, trace, steps, i) && AnsweredBy(s, Final(trace), i, answer)
    ensures |steps| > 2 && steps[0] == SWork(i, Select(selection), Ok)
    ensures steps[1] == SWork(i, Summarize(covers), Ok) && steps[2] == SWork(i, Restate(note), Ok)
  {
    var selected := Wrote(s, i, Select(selection));
    var covered := Wrote(selected, i, Summarize(covers));
    var noted := Wrote(covered, i, Restate(note));
    var rest, others := CanFinish(noted, i, answer);
    WriteFirst(covered, i, Restate(note), answer, rest, others);
    WriteFirst(selected, i, Summarize(covers), answer, [covered] + rest, [SWork(i, Restate(note), Ok)] + others);
    WriteFirst(s, i, Select(selection), answer, [selected] + ([covered] + rest),
               [SWork(i, Summarize(covers), Ok)] + ([SWork(i, Restate(note), Ok)] + others));
    trace := [s] + ([selected] + ([covered] + rest));
    steps := [SWork(i, Select(selection), Ok)]
             + ([SWork(i, Summarize(covers), Ok)] + ([SWork(i, Restate(note), Ok)] + others));
  }

  /** With no turn open, a run that has not begun can be admitted, and complete its turn. */
  lemma {:induction false} CanRun(s: System, i: nat, content: string, images: seq<Image>, environment: string,
        answer: string)
      returns (trace: seq<System>, steps: seq<Step>)
    requires i < |s.runs| && s.runs[i].Started? && Unfinished(s.journal, |s.journal|).None?
    ensures OwnPath(s, trace, steps, i) && AnsweredBy(s, Final(trace), i, answer)
    ensures |steps| > 2 && steps[2] == SAdmit(i, content, images, environment, Ok)
  {
    var read := System(s.journal, s.runs[i := Read(|s.journal|)]);
    var vetted := System(s.journal, s.runs[i := Vetted(|s.journal|, s.journal)]);
    var l := Local(s.journal, OperationIds(s.journal, |s.journal|), {}, Selecting);
    var admitted := System(s.journal + [Of(i, TurnRequested(content, images, environment))], s.runs[i := Working(l)]);
    var admission := SAdmit(i, content, images, environment, Ok);
    assert Next(s, read, SReadSession(i));
    assert Next(read, vetted, SReadEvents(i)) by { assert vetted.runs == read.runs[i := vetted.runs[i]]; }
    assert Next(vetted, admitted, admission) by { assert admitted.runs == vetted.runs[i := admitted.runs[i]]; }
    var rest, others := CanFinish(admitted, i, answer);
    Prepend(vetted, admission, i, admitted, rest, others);
    Prepend(read, SReadEvents(i), i, vetted, [vetted] + rest, [admission] + others);
    Prepend(s, SReadSession(i), i, read, [read] + ([vetted] + rest), [SReadEvents(i)] + ([admission] + others));
    trace := [s] + ([read] + ([vetted] + rest));
    steps := [SReadSession(i)] + ([SReadEvents(i)] + ([admission] + others));
  }
}
