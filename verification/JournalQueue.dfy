/**
 * One session's append queue on one EventJournal, interleaved with its backend and with
 * writers outside the instance (src/core/journal.ts:198, 278-298, 383-498, 649-660).
 */
module JournalQueue {
  import opened Messages

  /** A session's history as the operations that wrote it; it stands for sequence and digest. */
  datatype Head = Head(incarnation: nat, history: seq<nat>)

  datatype Kind = Append | AppendAt(expected: Head) | Delete(expected: Head)

  datatype Outcome =
    | Committed
    | CommittedThenFailed  // the backend committed and then reported a failure
    | AlreadyGone          // a delete found no session
    | Conflict
    | UnknownSession
    | Aborted
    | BackendFailed

  datatype Phase =
    | Waiting              // behind the predecessor's link
    | Reading              // append: asked the backend for the head
    | Sealing(head: Head)  // hashing events onto a head
    | Submitted(head: Head)
    | Applied(outcome: Outcome)
    | Settled(outcome: Outcome)

  /** A call, the link it was chained behind, and whether its own link has settled. */
  datatype Op = Op(kind: Kind, pending: Option<nat>, abortable: bool, phase: Phase, linked: bool)

  /** `tail` is the queue's map entry, `log` the operations in the order they took effect. */
  datatype System = System(ops: seq<Op>, tail: Option<nat>, session: Option<Head>, log: seq<nat>)

  datatype Step =
    | Call(kind: Kind, abortable: bool, aborted: bool)
    | Start(op: nat, aborted: bool)
    | LeaveEarly(op: nat)
    | ReadHead(op: nat)
    | Fail(op: nat)
    | Submit(op: nat, aborted: bool)
    | Apply(op: nat, reported: bool)
    | Answer(op: nat)
    | SettleLink(op: nat)
    | ClearTail(op: nat)
    | Outside(session: Option<Head>)

  // ---- Steps ----

  predicate Done(s: System, i: nat)
    requires i < |s.ops|
  {
    s.ops[i].phase.Settled?
  }

  predicate Linked(s: System, pending: Option<nat>) {
    pending.None? || (pending.value < |s.ops| && s.ops[pending.value].linked)
  }

  predicate Enabled(s: System, step: Step) {
    match step
    case Call(_, abortable, aborted) => aborted ==> abortable
    case Outside(_) => true
    case Start(i, aborted) => i < |s.ops| && s.ops[i].phase.Waiting? && Linked(s, s.ops[i].pending)
        && (aborted ==> s.ops[i].abortable)
    case LeaveEarly(i) => i < |s.ops| && s.ops[i].phase.Waiting? && s.ops[i].abortable && !s.ops[i].kind.Delete?
    case ReadHead(i) => i < |s.ops| && s.ops[i].phase.Reading?
    case Fail(i) => i < |s.ops| && (s.ops[i].phase.Reading? || s.ops[i].phase.Submitted?)
    case Submit(i, aborted) => i < |s.ops| && s.ops[i].phase.Sealing?
        && (aborted ==> s.ops[i].abortable && s.ops[i].kind.AppendAt?)
    case Apply(i, _) => i < |s.ops| && s.ops[i].phase.Submitted?
    case Answer(i) => i < |s.ops| && s.ops[i].phase.Applied?
    case SettleLink(i) => i < |s.ops| && s.ops[i].phase.Settled? && !s.ops[i].linked && Linked(s, s.ops[i].pending)
    case ClearTail(i) => i < |s.ops| && s.ops[i].linked
  }

  /** What a call does once nothing is ahead of it; a delete has no abort check of its own. */
  function Begin(kind: Kind, aborted: bool): Phase {
    match kind
    case Append => if aborted then Settled(Aborted) else Reading
    case AppendAt(head) => if aborted then Settled(Aborted) else Sealing(head)
    case Delete(head) => Submitted(head)
  }

  function To(s: System, i: nat, phase: Phase): System
    requires i < |s.ops|
  {
    s.(ops := s.ops[i := s.ops[i].(phase := phase)])
  }

  /** The backend's compare-and-set: how it answers, and the session it leaves. */
  function Effect(kind: Kind, head: Head, session: Option<Head>, i: nat): (Outcome, Option<Head>) {
    if session.None? then (if kind.Delete? then AlreadyGone else UnknownSession, None)
    else if session.value != head then (Conflict, session)
    else if kind.Delete? then (Committed, None)
    else (Committed, Some(Head(head.incarnation, head.history + [i])))
  }

  function Do(s: System, step: Step): System
    requires Enabled(s, step)
  {
    match step
    case Call(kind, abortable, aborted) =>
      var phase := if s.tail.Some? || kind.Delete? then Waiting else Begin(kind, aborted);
      s.(ops := s.ops + [Op(kind, s.tail, abortable, phase, false)], tail := Some(|s.ops|))
    case Start(i, aborted) => To(s, i, Begin(s.ops[i].kind, aborted))
    case LeaveEarly(i) => To(s, i, Settled(Aborted))
    case ReadHead(i) => To(s, i, if s.session.None? then Settled(UnknownSession) else Sealing(s.session.value))
    case Fail(i) => To(s, i, Settled(BackendFailed))
    case Submit(i, aborted) => To(s, i, if aborted then Settled(Aborted) else Submitted(s.ops[i].phase.head))
    case Apply(i, reported) =>
      var effect := Effect(s.ops[i].kind, s.ops[i].phase.head, s.session, i);
      var outcome := if effect.0.Committed? && !reported then CommittedThenFailed else effect.0;
      To(s, i, Applied(outcome)).(session := effect.1, log := if effect.0.Committed? then s.log + [i] else s.log)
    case Answer(i) => To(s, i, Settled(s.ops[i].phase.outcome))
    case SettleLink(i) => s.(ops := s.ops[i := s.ops[i].(linked := true)])
    case ClearTail(i) => if s.tail == Some(i) then s.(tail := None) else s
    case Outside(session) => s.(session := session)
  }

  predicate Init(s: System) {
    s.ops == [] && s.tail.None? && s.log == []
  }

  // ---- The queue invariant ----

  /** Between leaving the queue and settling: the backend may be asked or changed on its behalf. */
  predicate Active(s: System, i: nat)
    requires i < |s.ops|
  {
    !s.ops[i].phase.Waiting? && !s.ops[i].phase.Settled?
  }

  predicate AllLinkedBefore(s: System, n: nat)
    requires n <= |s.ops|
  {
    forall j :: 0 <= j < n ==> s.ops[j].linked
  }

  predicate TookEffect(outcome: Outcome) {
    outcome.Committed? || outcome.CommittedThenFailed?
  }

  /** Operation `i` has committed, as its own state records it. */
  predicate HasCommitted(s: System, i: nat)
    requires i < |s.ops|
  {
    (s.ops[i].phase.Applied? || s.ops[i].phase.Settled?) && TookEffect(s.ops[i].phase.outcome)
  }

  predicate OpInv(s: System, i: nat)
    requires i < |s.ops|
  {
    && (s.ops[i].pending.Some? ==> i > 0 && s.ops[i].pending.value == i - 1)
    && (s.ops[i].pending.None? ==> AllLinkedBefore(s, i))
    && (s.ops[i].linked ==> Done(s, i) && AllLinkedBefore(s, i))
    && (Active(s, i) ==> AllLinkedBefore(s, i))
    && (HasCommitted(s, i) ==> AllLinkedBefore(s, i))
  }

  predicate Increasing(log: seq<nat>) {
    forall a, b :: 0 <= a < b < |log| ==> log[a] < log[b]
  }

  predicate QueueInv(s: System) {
    && (s.tail.Some? ==> s.tail.value + 1 == |s.ops|)
    && (s.tail.None? ==> AllLinkedBefore(s, |s.ops|))
    && (forall i :: 0 <= i < |s.ops| ==> OpInv(s, i))
    && (forall a :: 0 <= a < |s.log| ==> s.log[a] < |s.ops|)
    && (forall i :: 0 <= i < |s.ops| ==> (i in s.log <==> HasCommitted(s, i)))
    && Increasing(s.log)
  }

  lemma {:induction false} QueueStep(s: System, step: Step)
    requires QueueInv(s) && Enabled(s, step)
    ensures QueueInv(Do(s, step))
  {
    var t := Do(s, step);
    match step
    case Call(_, _, _) => CallKeeps(s, step);
    case Outside(_) =>
      forall i | 0 <= i < |t.ops| ensures OpInv(t, i) { assert OpInv(s, i); }
    case ClearTail(op) =>
      assert OpInv(s, op);
      forall i | 0 <= i < |t.ops| ensures OpInv(t, i) { assert OpInv(s, i); }
    case _ => MoveKeeps(s, step, t);
  }

  lemma {:induction false} CallKeeps(s: System, step: Step)
    requires QueueInv(s) && Enabled(s, step) && step.Call?
    ensures QueueInv(Do(s, step))
  {
    var t := Do(s, step);
    assert forall j :: 0 <= j < |s.ops| ==> t.ops[j] == s.ops[j];
    forall i | 0 <= i < |t.ops| ensures OpInv(t, i) {
      if i < |s.ops| { assert OpInv(s, i); }
    }
    forall i | 0 <= i < |t.ops| ensures i in t.log <==> HasCommitted(t, i) {
      if i < |s.ops| { assert i in s.log <==> HasCommitted(s, i); }
    }
  }

  /** A step of one operation, which the others do not notice but for its link. */
  lemma {:induction false} MovedOps(s: System, step: Step, t: System, j: nat)
    requires QueueInv(s) && Enabled(s, step) && t == Do(s, step) && j < |s.ops|
    requires !step.Call? && !step.Outside? && !step.ClearTail?
    ensures |t.ops| == |s.ops| && OpInv(t, j)
  {
    var i := step.op;
    assert OpInv(s, i) && OpInv(s, j);
    assert forall k :: 0 <= k < |s.ops| && k != i ==> t.ops[k] == s.ops[k];
    assert forall k :: 0 <= k < |s.ops| && s.ops[k].linked ==> t.ops[k].linked;
    if (step.Start? || step.SettleLink?) && s.ops[i].pending.Some? { assert OpInv(s, i - 1); }
  }

  lemma {:induction false} MovedLog(s: System, step: Step, t: System, k: nat)
    requires QueueInv(s) && Enabled(s, step) && t == Do(s, step) && k < |s.ops|
    requires !step.Call? && !step.Outside? && !step.ClearTail?
    ensures |t.ops| == |s.ops| && (k in t.log <==> HasCommitted(t, k))
  {
    assert k in s.log <==> HasCommitted(s, k);
    if k != step.op { assert t.ops[k] == s.ops[k]; }
  }

  lemma {:induction false} MovedOrder(s: System, step: Step, t: System)
    requires QueueInv(s) && Enabled(s, step) && t == Do(s, step)
    requires !step.Call? && !step.Outside? && !step.ClearTail?
    ensures Increasing(t.log) && forall a :: 0 <= a < |t.log| ==> t.log[a] < |t.ops|
  {
    if step.Apply? { LogGrows(s, step.op); }
  }

  lemma {:induction false} MovedTail(s: System, step: Step, t: System)
    requires QueueInv(s) && Enabled(s, step) && t == Do(s, step)
    requires !step.Call? && !step.Outside? && !step.ClearTail?
    ensures t.tail.Some? ==> t.tail.value + 1 == |t.ops|
    ensures t.tail.None? ==> AllLinkedBefore(t, |t.ops|)
  {
    assert forall k :: 0 <= k < |s.ops| && s.ops[k].linked ==> t.ops[k].linked;
  }

  lemma {:induction false} MoveKeeps(s: System, step: Step, t: System)
    requires QueueInv(s) && Enabled(s, step) && t == Do(s, step)
    requires !step.Call? && !step.Outside? && !step.ClearTail?
    ensures QueueInv(t)
  {
    MovedTail(s, step, t);
    MovedOrder(s, step, t);
    forall j | 0 <= j < |t.ops| ensures OpInv(t, j) { MovedOps(s, step, t, j); }
    forall k | 0 <= k < |t.ops| ensures k in t.log <==> HasCommitted(t, k) { MovedLog(s, step, t, k); }
  }

  /** Everything in the log is older than an active operation. */
  lemma {:induction false} LogGrows(s: System, i: nat)
    requires QueueInv(s) && i < |s.ops| && Active(s, i) && !HasCommitted(s, i)
    ensures Increasing(s.log + [i])
  {
    assert OpInv(s, i);
    forall a | 0 <= a < |s.log| ensures s.log[a] < i {
      var k := s.log[a];
      assert k in s.log && HasCommitted(s, k) && OpInv(s, k);
    }
  }

  // ---- The instance alone ----

  /** What the log leaves of a session: its commits appended in order, unless one was a delete. */
  function Remaining(first: Option<Head>, ops: seq<Op>, log: seq<nat>): Option<Head>
    requires forall a :: 0 <= a < |log| ==> log[a] < |ops|
  {
    if log == [] then first
    else
      var before, last := Remaining(first, ops, log[..|log| - 1]), log[|log| - 1];
      if before.None? || ops[last].kind.Delete? then None
      else Some(Head(before.value.incarnation, before.value.history + [last]))
  }

  lemma {:induction false} RemainingAppends(first: Head, ops: seq<Op>, log: seq<nat>)
    requires forall a :: 0 <= a < |log| ==> log[a] < |ops| && !ops[log[a]].kind.Delete?
    ensures Remaining(Some(first), ops, log) == Some(Head(first.incarnation, first.history + log))
  {
    if log != [] {
      RemainingAppends(first, ops, log[..|log| - 1]);
      assert first.history + log == first.history + log[..|log| - 1] + [log[|log| - 1]];
    } else {
      assert first.history + log == first.history;
    }
  }

  /** With no writer outside, an append works on the session's own head. */
  predicate OnHead(s: System, i: nat)
    requires i < |s.ops|
  {
    s.ops[i].kind.Append? ==>
      && (s.ops[i].phase.Sealing? || s.ops[i].phase.Submitted? ==> s.session == Some(s.ops[i].phase.head))
      && (s.ops[i].phase.Applied? || s.ops[i].phase.Settled? ==> !s.ops[i].phase.outcome.Conflict?)
  }

  predicate AloneInv(s: System, first: Option<Head>) {
    && QueueInv(s)
    && (forall i :: 0 <= i < |s.ops| ==> OnHead(s, i))
    && s.session == Remaining(first, s.ops, s.log)
  }

  lemma {:induction false} RemainingSame(first: Option<Head>, ops: seq<Op>, later: seq<Op>, log: seq<nat>)
    requires forall a :: 0 <= a < |log| ==> log[a] < |ops|
    requires |ops| <= |later| && forall k :: 0 <= k < |ops| ==> later[k].kind == ops[k].kind
    ensures Remaining(first, later, log) == Remaining(first, ops, log)
  {
    if log != [] { RemainingSame(first, ops, later, log[..|log| - 1]); }
  }

  lemma {:induction false} AloneStep(s: System, step: Step, first: Option<Head>)
    requires AloneInv(s, first) && Enabled(s, step) && !step.Outside?
    ensures AloneInv(Do(s, step), first)
  {
    var t := Do(s, step);
    QueueStep(s, step);
    if step.Apply? {
      ApplyAlone(s, step, t, first);
    } else {
      RemainingSame(first, s.ops, t.ops, s.log);
      forall i | 0 <= i < |t.ops| ensures OnHead(t, i) {
        if i < |s.ops| { assert OnHead(s, i); }
      }
    }
  }

  /** An operation's effect reaches no other one that is waiting for its own. */
  lemma {:induction false} AppliedOnHead(s: System, step: Step, t: System, first: Option<Head>, j: nat)
    requires AloneInv(s, first) && step.Apply? && Enabled(s, step) && t == Do(s, step) && j < |s.ops|
    ensures |t.ops| == |s.ops| && OnHead(t, j)
  {
    var i := step.op;
    assert OnHead(s, i) && OnHead(s, j);
    if j != i {
      assert t.ops[j] == s.ops[j];
      OneActive(s, i, j);
    }
  }

  lemma {:induction false} AppliedSession(s: System, step: Step, t: System, first: Option<Head>)
    requires AloneInv(s, first) && step.Apply? && Enabled(s, step) && t == Do(s, step) && QueueInv(t)
    ensures t.session == Remaining(first, t.ops, t.log)
  {
    assert OnHead(s, step.op);
    RemainingSame(first, s.ops, t.ops, s.log);
    if t.log != s.log { assert t.log[..|t.log| - 1] == s.log; }
  }

  lemma {:induction false} ApplyAlone(s: System, step: Step, t: System, first: Option<Head>)
    requires AloneInv(s, first) && step.Apply? && Enabled(s, step) && t == Do(s, step) && QueueInv(t)
    ensures AloneInv(t, first)
  {
    AppliedSession(s, step, t, first);
    forall j | 0 <= j < |t.ops| ensures OnHead(t, j) { AppliedOnHead(s, step, t, first, j); }
  }

  lemma {:induction false} OneActive(s: System, i: nat, j: nat)
    requires QueueInv(s) && i < |s.ops| && j < |s.ops| && i != j && Active(s, i)
    ensures !Active(s, j)
  {
    assert OpInv(s, i) && OpInv(s, j);
  }

  // ---- Every interleaving ----

  ghost predicate Behaviour(trace: seq<System>, steps: seq<Step>) {
    && |trace| == |steps| + 1
    && Init(trace[0])
    && forall k :: 0 <= k < |steps| ==> StepTaken(trace, steps, k)
  }

  predicate StepTaken(trace: seq<System>, steps: seq<Step>, k: nat)
    requires k < |steps| && |trace| == |steps| + 1
  {
    Enabled(trace[k], steps[k]) && trace[k + 1] == Do(trace[k], steps[k])
  }

  lemma {:induction false} Reachable(trace: seq<System>, steps: seq<Step>, k: nat)
    requires Behaviour(trace, steps) && k < |trace|
    ensures QueueInv(trace[k])
  {
    if k > 0 {
      Reachable(trace, steps, k - 1);
      assert StepTaken(trace, steps, k - 1);
      QueueStep(trace[k - 1], steps[k - 1]);
    }
  }

  /**
   * In every interleaving of appends, fenced appends, deletes, early aborts, backend failures
   * and outside writers, at most one operation of the instance is at the backend, and the
   * operations that take effect do so in the order they were called. An operation has taken
   * effect exactly when its own outcome says so; one that left early has not.
   */
  lemma {:induction false} QueueSafety(trace: seq<System>, steps: seq<Step>, k: nat)
    requires Behaviour(trace, steps) && k < |trace|
    ensures forall i, j :: 0 <= i < j < |trace[k].ops| ==> !(Active(trace[k], i) && Active(trace[k], j))
    ensures Increasing(trace[k].log)
    ensures forall i :: 0 <= i < |trace[k].ops| ==> (i in trace[k].log <==> HasCommitted(trace[k], i))
  {
    Reachable(trace, steps, k);
    var s := trace[k];
    forall i, j | 0 <= i < j < |s.ops| ensures !(Active(s, i) && Active(s, j)) {
      if Active(s, i) { OneActive(s, i, j); }
    }
  }

  ghost predicate Alone(steps: seq<Step>) {
    forall k :: 0 <= k < |steps| ==> !steps[k].Outside?
  }

  lemma {:induction false} ReachableAlone(trace: seq<System>, steps: seq<Step>, k: nat)
    requires Behaviour(trace, steps) && Alone(steps) && k < |trace|
    ensures AloneInv(trace[k], trace[0].session)
  {
    if k > 0 {
      ReachableAlone(trace, steps, k - 1);
      assert StepTaken(trace, steps, k - 1);
      AloneStep(trace[k - 1], steps[k - 1], trace[0].session);
    }
  }

  /**
   * With no writer outside the instance, a plain append is never refused for a head
   * conflict, and the session is the first one with the committed appends in call order,
   * or gone once a delete has committed.
   */
  lemma {:induction false} NoConflictWhenAlone(trace: seq<System>, steps: seq<Step>, k: nat)
    requires Behaviour(trace, steps) && Alone(steps) && k < |trace|
    ensures forall i :: 0 <= i < |trace[k].ops| && trace[k].ops[i].kind.Append? && trace[k].ops[i].phase.Settled? ==>
              !trace[k].ops[i].phase.outcome.Conflict?
    ensures forall a :: 0 <= a < |trace[k].log| ==> trace[k].log[a] < |trace[k].ops|
    ensures trace[k].session == Remaining(trace[0].session, trace[k].ops, trace[k].log)
  {
    ReachableAlone(trace, steps, k);
    var s := trace[k];
    forall i | 0 <= i < |s.ops| && s.ops[i].kind.Append? && s.ops[i].phase.Settled?
      ensures !s.ops[i].phase.outcome.Conflict?
    {
      assert OnHead(s, i);
    }
  }

  /** A fenced operation never reads the head: it is sealed onto and submitted with its own. */
  predicate OnFence(op: Op) {
    && (op.phase.Reading? ==> op.kind.Append?)
    && (!op.kind.Append? && (op.phase.Sealing? || op.phase.Submitted?) ==> op.phase.head == op.kind.expected)
  }

  lemma {:induction false} KeepsFence(trace: seq<System>, steps: seq<Step>, k: nat, i: nat)
    requires Behaviour(trace, steps) && k < |trace| && i < |trace[k].ops|
    ensures OnFence(trace[k].ops[i])
  {
    if k > 0 {
      var s, step := trace[k - 1], steps[k - 1];
      assert StepTaken(trace, steps, k - 1);
      if i < |s.ops| { KeepsFence(trace, steps, k - 1, i); }
    }
  }

  /**
   * A fenced operation takes effect exactly when the session has the head it was given, and
   * otherwise changes nothing.
   */
  lemma {:induction false} FencedOnItsHead(trace: seq<System>, steps: seq<Step>, k: nat, i: nat, reported: bool)
    requires Behaviour(trace, steps) && k < |trace|
    requires Enabled(trace[k], Apply(i, reported)) && !trace[k].ops[i].kind.Append?
    ensures HasCommitted(Do(trace[k], Apply(i, reported)), i) <==>
            trace[k].session == Some(trace[k].ops[i].kind.expected)
    ensures !HasCommitted(Do(trace[k], Apply(i, reported)), i) ==>
              Do(trace[k], Apply(i, reported)).session == trace[k].session
  {
    KeepsFence(trace, steps, k, i);
  }

  /** A step that can move the oldest unsettled operation on without a caller's help. */
  predicate Moves(s: System, step: Step) {
    Enabled(s, step)
        && (step.Start? || step.ReadHead? || step.Submit? || step.Apply? || step.Answer? || step.SettleLink?)
  }

  /** The queue never locks up: while any operation is unsettled, some step moves the queue on. */
  lemma {:induction false} QueueNeverStuck(trace: seq<System>, steps: seq<Step>, k: nat, i: nat)
    requires Behaviour(trace, steps) && k < |trace|
    requires i < |trace[k].ops| && !trace[k].ops[i].phase.Settled?
    ensures exists step :: Moves(trace[k], step)
  {
    Reachable(trace, steps, k);
    var s := trace[k];
    assert OpInv(s, i);
    var first := FirstUnlinked(s, i);
    assert OpInv(s, first);
    var step := NextOf(s, first);
  }

  // ---- The queue drains ----

  /** How many steps an operation has before it, at most. */
  function Ahead(op: Op): nat {
    match op.phase
    case Waiting => 6
    case Reading => 5
    case Sealing(_) => 4
    case Submitted(_) => 3
    case Applied(_) => 2
    case Settled(_) => if op.linked then 0 else 1
  }

  function AheadOf(ops: seq<Op>, n: nat): nat
    requires n <= |ops|
  {
    if n == 0 then 0 else AheadOf(ops, n - 1) + Ahead(ops[n - 1])
  }

  /** How much the queue has before it: each operation's steps, and its own map entry. */
  function Load(s: System): nat {
    AheadOf(s.ops, |s.ops|) + if s.tail.Some? then 1 else 0
  }

  /** A step of the queue: no caller and no writer outside takes it. */
  predicate Own(step: Step) {
    !step.Call? && !step.Outside?
  }

  lemma {:induction false} AheadChanges(ops: seq<Op>, i: nat, op: Op, n: nat)
    requires i < |ops| && n <= |ops|
    ensures AheadOf(ops[i := op], n) + (if i < n then Ahead(ops[i]) else 0)
            == AheadOf(ops, n) + if i < n then Ahead(op) else 0
  {
    if n > 0 { AheadChanges(ops, i, op, n - 1); }
  }

  /** A step of an operation brings it nearer to its end. */
  lemma {:induction false} OperationAdvances(s: System, step: Step)
    requires QueueInv(s) && Enabled(s, step) && Own(step) && !step.ClearTail?
    ensures |Do(s, step).ops| == |s.ops| && Do(s, step).tail == s.tail
    ensures Do(s, step).ops == s.ops[step.op := Do(s, step).ops[step.op]]
    ensures Ahead(Do(s, step).ops[step.op]) < Ahead(s.ops[step.op])
  {
    assert OpInv(s, step.op);
  }

  /** Every step of the queue lowers its load, but for finding the map entry to be a later call's. */
  lemma {:induction false} StepLowersLoad(s: System, step: Step)
    requires QueueInv(s) && Enabled(s, step) && Own(step)
    ensures Load(Do(s, step)) < Load(s) || (step.ClearTail? && Do(s, step) == s)
  {
    if !step.ClearTail? {
      OperationAdvances(s, step);
      AheadChanges(s.ops, step.op, Do(s, step).ops[step.op], |s.ops|);
    }
  }

  lemma {:induction false} NothingAhead(ops: seq<Op>, n: nat)
    requires n <= |ops|
    ensures AheadOf(ops, n) == 0 <==> forall i :: 0 <= i < n ==> ops[i].linked && ops[i].phase.Settled?
  {
    if n > 0 { NothingAhead(ops, n - 1); }
  }

  /** All calls have settled, their links too, and the queue has left the map. */
  predicate Drained(s: System) {
    s.tail.None? && forall i :: 0 <= i < |s.ops| ==> s.ops[i].linked && s.ops[i].phase.Settled?
  }

  /** While there is any load, some step of the queue lowers it. */
  lemma {:induction false} LoadCanBeLowered(s: System) returns (step: Step)
    requires QueueInv(s) && !Drained(s)
    ensures Enabled(s, step) && Own(step) && Load(Do(s, step)) < Load(s)
  {
    if i :| 0 <= i < |s.ops| && !s.ops[i].linked {
      var first := FirstUnlinked(s, i);
      assert OpInv(s, first);
      step := NextOf(s, first);
    } else {
      forall i | 0 <= i < |s.ops| ensures s.ops[i].phase.Settled? { assert OpInv(s, i); }
      step := ClearTail(s.tail.value);
    }
    StepLowersLoad(s, step);
  }

  /** The step that moves the oldest operation on. */
  lemma {:induction false} NextOf(s: System, first: nat) returns (step: Step)
    requires first < |s.ops| && OpInv(s, first) && !s.ops[first].linked && AllLinkedBefore(s, first)
    ensures Enabled(s, step) && Moves(s, step) && Own(step) && !step.ClearTail?
  {
    match s.ops[first].phase
    case Waiting => step := Start(first, false);
    case Reading => step := ReadHead(first);
    case Sealing(_) => step := Submit(first, false);
    case Submitted(_) => step := Apply(first, true);
    case Applied(_) => step := Answer(first);
    case Settled(_) => step := SettleLink(first);
  }

  /** The steps between two moments that are the queue's own and change something. */
  function Progress(trace: seq<System>, steps: seq<Step>, k: nat, m: nat): nat
    requires |trace| == |steps| + 1 && k <= m <= |steps|
    decreases m
  {
    if k == m then 0
    else Progress(trace, steps, k, m - 1) + if Own(steps[m - 1]) && trace[m] != trace[m - 1] then 1 else 0
  }

  predicate NoCalls(steps: seq<Step>, k: nat, m: nat) {
    forall j :: k <= j < m && j < |steps| ==> !steps[j].Call?
  }

  /**
   * Without further calls, whatever writers outside do, the queue takes at most as many steps as
   * its load; and it is drained exactly when no load is left, which some step always lowers.
   */
  lemma {:induction false} QueueDrains(trace: seq<System>, steps: seq<Step>, k: nat, m: nat)
    requires Behaviour(trace, steps) && k <= m < |trace| && NoCalls(steps, k, m)
    ensures Progress(trace, steps, k, m) + Load(trace[m]) <= Load(trace[k])
    ensures Drained(trace[m]) <==> Load(trace[m]) == 0
    ensures !Drained(trace[m]) ==>
              exists step :: Enabled(trace[m], step) && Own(step) && Load(Do(trace[m], step)) < Load(trace[m])
    decreases m
  {
    assert QueueInv(trace[m]) by { Reachable(trace, steps, m); }
    LoadIsExact(trace[m]);
    if k < m {
      QueueDrains(trace, steps, k, m - 1);
      assert QueueInv(trace[m - 1]) by { Reachable(trace, steps, m - 1); }
      assert StepTaken(trace, steps, m - 1);
      StepCosts(trace[m - 1], steps[m - 1]);
    }
  }

  lemma {:induction false} LoadIsExact(s: System)
    requires QueueInv(s)
    ensures Drained(s) <==> Load(s) == 0
    ensures !Drained(s) ==> exists step :: Enabled(s, step) && Own(step) && Load(Do(s, step)) < Load(s)
  {
    NothingAhead(s.ops, |s.ops|);
    if !Drained(s) { var step := LoadCanBeLowered(s); }
  }

  lemma {:induction false} StepCosts(s: System, step: Step)
    requires QueueInv(s) && Enabled(s, step) && !step.Call?
    ensures Load(Do(s, step)) + (if Own(step) && Do(s, step) != s then 1 else 0) <= Load(s)
  {
    if Own(step) { StepLowersLoad(s, step); }
  }

  lemma {:induction false} FirstUnlinked(s: System, i: nat) returns (first: nat)
    requires i < |s.ops| && !s.ops[i].linked
    ensures first <= i && !s.ops[first].linked && AllLinkedBefore(s, first)
  {
    if AllLinkedBefore(s, i) {
      first := i;
    } else {
      var j :| 0 <= j < i && !s.ops[j].linked;
      first := FirstUnlinked(s, j);
    }
  }
}
