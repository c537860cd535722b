/** How long a settled outcome stays on the broker's ledger (src/approvals/broker.ts:255-259, 378-383). */
module OutcomeLedger {
  import opened Messages
  import opened Broker

  /** What happens to the ledger: an outcome is filed, or one is taken. */
  datatype Op = File(record: Record) | Take(id: string)

  function Played(outcomes: seq<Record>, op: Op): seq<Record> {
    match op
    case File(r) => Remembered(outcomes, r)
    case Take(id) => Taken(outcomes, id)
  }

  /** Operations one after another. */
  datatype Log = Nothing | Then(init: Log, op: Op)

  function Play(outcomes: seq<Record>, log: Log): seq<Record> {
    match log
    case Nothing => outcomes
    case Then(init, op) => Played(Play(outcomes, init), op)
  }

  predicate Fine(outcomes: seq<Record>) {
    |outcomes| <= MAX_SETTLED_OUTCOMES && DistinctRecords(outcomes)
  }

  /**
   * A record stays unless its id is filed anew or taken, or it is the oldest of a full ledger
   * when something is filed.
   */
  predicate Keeps(outcomes: seq<Record>, r: Record, op: Op) {
    match op
    case File(q) => q.id != r.id && !(|outcomes| >= MAX_SETTLED_OUTCOMES && outcomes[0] == r)
    case Take(id) => id != r.id
  }

  lemma {:induction false} FiledFine(outcomes: seq<Record>, q: Record)
    requires Fine(outcomes)
    ensures Fine(Remembered(outcomes, q))
  {
    var kept := Roomy(outcomes);
    assert forall i :: 0 <= i < |kept| ==> kept[i] == outcomes[if |outcomes| >= MAX_SETTLED_OUTCOMES then i + 1 else i];
    assert DistinctRecords(kept);
  }

  lemma {:induction false} TakenFine(outcomes: seq<Record>, id: string)
    requires Fine(outcomes)
    ensures Fine(Taken(outcomes, id))
  {
    match Find(outcomes, id)
    case None =>
    case Some(i) =>
      var left := Taken(outcomes, id);
      assert forall j :: 0 <= j < |left| ==> left[j] == outcomes[if j < i then j else j + 1];
  }

  lemma {:induction false} PlayFine(outcomes: seq<Record>, log: Log)
    requires Fine(outcomes)
    ensures Fine(Play(outcomes, log))
  {
    match log
    case Nothing =>
    case Then(init, op) =>
      PlayFine(outcomes, init);
      match op
      case File(q) => FiledFine(Play(outcomes, init), q);
      case Take(id) => TakenFine(Play(outcomes, init), id);
  }

  /** Where the record at `p` is after something else is filed. */
  lemma {:induction false} FiledMoves(outcomes: seq<Record>, p: nat, q: Record) returns (next: nat)
    requires Fine(outcomes) && p < |outcomes| && Keeps(outcomes, outcomes[p], File(q))
    ensures next < |Remembered(outcomes, q)| && Remembered(outcomes, q)[next] == outcomes[p]
    ensures |Remembered(outcomes, q)| - next <= |outcomes| - p + 1
    ensures Find(Roomy(outcomes), q.id).None? ==> |Remembered(outcomes, q)| - next == |outcomes| - p + 1
  {
    next := if |outcomes| >= MAX_SETTLED_OUTCOMES then p - 1 else p;
    assert Roomy(outcomes)[next] == outcomes[p];
  }

  lemma {:induction false} TakenMoves(outcomes: seq<Record>, p: nat, id: string) returns (next: nat)
    requires Fine(outcomes) && p < |outcomes| && outcomes[p].id != id
    ensures next < |Taken(outcomes, id)| && Taken(outcomes, id)[next] == outcomes[p]
    ensures |Taken(outcomes, id)| - next <= |outcomes| - p
  {
    match Find(outcomes, id)
    case None => next := p;
    case Some(i) => next := if p < i then p else p - 1;
  }

  /** A ledger only holds what it held, and what is filed. */
  lemma {:induction false} NothingNew(outcomes: seq<Record>, r: Record, op: Op)
    requires r !in outcomes && op != File(r)
    ensures r !in Played(outcomes, op)
  {
    var after := Played(outcomes, op);
    forall i | 0 <= i < |after| ensures after[i] != r {
      match op
      case File(q) =>
        if after[i] != q { assert after[i] in Roomy(outcomes) && after[i] in outcomes; }
      case Take(id) => assert after[i] in outcomes;
    }
  }

  lemma {:induction false} KeptByOne(outcomes: seq<Record>, r: Record, op: Op)
    requires Fine(outcomes) && r in outcomes && op != File(r)
    ensures r in Played(outcomes, op) <==> Keeps(outcomes, r, op)
  {
    var p :| 0 <= p < |outcomes| && outcomes[p] == r;
    match op
    case File(q) =>
      if Keeps(outcomes, r, op) {
        var next := FiledMoves(outcomes, p, q);
      } else {
        FiledDrops(outcomes, p, q);
      }
    case Take(id) =>
      if id != r.id {
        var next := TakenMoves(outcomes, p, id);
      } else {
        Found(outcomes, p);
        assert forall j :: 0 <= j < |Taken(outcomes, id)| ==>
               Taken(outcomes, id)[j] == outcomes[if j < p then j else j + 1];
      }
  }

  lemma {:induction false} FiledReplaces(kept: seq<Record>, r: Record, q: Record)
    requires DistinctRecords(kept) && q != r && q.id == r.id
    ensures r !in Filed(kept, q)
  {
    var after := Filed(kept, q);
    forall i | 0 <= i < |after| ensures after[i] != r {}
  }

  lemma {:induction false} FirstIsNot(outcomes: seq<Record>, p: nat)
    requires Fine(outcomes) && 0 < p < |outcomes|
    ensures outcomes[0] != outcomes[p]
  {
  }

  lemma {:induction false} FiledDrops(outcomes: seq<Record>, p: nat, q: Record)
    requires Fine(outcomes) && p < |outcomes| && q != outcomes[p] && !Keeps(outcomes, outcomes[p], File(q))
    ensures outcomes[p] !in Remembered(outcomes, q)
  {
    var r, kept, after := outcomes[p], Roomy(outcomes), Remembered(outcomes, q);
    assert forall i :: 0 <= i < |kept| ==> kept[i] == outcomes[if |outcomes| >= MAX_SETTLED_OUTCOMES then i + 1 else i];
    assert DistinctRecords(kept);
    if q.id == r.id {
      FiledReplaces(kept, r, q);
    } else {
      forall i | 0 <= i < |after| ensures after[i] != r {}
    }
  }

  /** Each operation kept the record. */
  predicate KeptThrough(outcomes: seq<Record>, r: Record, log: Log) {
    match log
    case Nothing => true
    case Then(init, op) => KeptThrough(outcomes, r, init) && Keeps(Play(outcomes, init), r, op)
  }

  predicate NeverFiles(log: Log, r: Record) {
    match log
    case Nothing => true
    case Then(init, op) => NeverFiles(init, r) && op != File(r)
  }

  /** A record is still there exactly when every one of the operations since kept it. */
  lemma {:induction false} KeptExactly(outcomes: seq<Record>, r: Record, log: Log)
    requires Fine(outcomes) && r in outcomes && NeverFiles(log, r)
    ensures r in Play(outcomes, log) <==> KeptThrough(outcomes, r, log)
  {
    match log
    case Nothing =>
    case Then(init, op) =>
      KeptExactly(outcomes, r, init);
      PlayFine(outcomes, init);
      var before := Play(outcomes, init);
      if r in before { KeptByOne(before, r, op); } else { NothingNew(before, r, op); }
  }

  function Filings(log: Log): nat {
    match log
    case Nothing => 0
    case Then(init, op) => Filings(init) + if op.File? then 1 else 0
  }

  predicate Touches(op: Op, id: string) {
    match op
    case File(q) => q.id == id
    case Take(other) => other == id
  }

  /** Nothing files or takes the id. */
  predicate Untouched(log: Log, id: string) {
    match log
    case Nothing => true
    case Then(init, op) => Untouched(init, id) && !Touches(op, id)
  }

  lemma {:induction false} OldestOf256(outcomes: seq<Record>, p: nat)
    requires Fine(outcomes) && p < |outcomes| && |outcomes| - p < MAX_SETTLED_OUTCOMES
    ensures |outcomes| < MAX_SETTLED_OUTCOMES || outcomes[0] != outcomes[p]
  {
    if p > 0 { FirstIsNot(outcomes, p); }
  }

  /** Where the newest record is after fewer than 256 filings, and that it is still there. */
  lemma {:induction false} FewFilingsKeep(outcomes: seq<Record>, r: Record, log: Log) returns (p: nat)
    requires Fine(outcomes) && outcomes != [] && outcomes[|outcomes| - 1] == r
    requires Untouched(log, r.id) && Filings(log) < MAX_SETTLED_OUTCOMES
    ensures p < |Play(outcomes, log)| && Play(outcomes, log)[p] == r
    ensures |Play(outcomes, log)| - p <= Filings(log) + 1
  {
    match log
    case Nothing => p := |outcomes| - 1;
    case Then(init, op) =>
      p := FewFilingsKeep(outcomes, r, init);
      PlayFine(outcomes, init);
      var before := Play(outcomes, init);
      match op
      case File(q) =>
        OldestOf256(before, p);
        p := FiledMoves(before, p, q);
      case Take(id) => p := TakenMoves(before, p, id);
  }

  /** The operation files an outcome under an id that is not on the ledger. */
  predicate FilesNew(outcomes: seq<Record>, op: Op) {
    op.File? && Find(outcomes, op.record.id).None?
  }

  predicate EachNew(outcomes: seq<Record>, log: Log) {
    match log
    case Nothing => true
    case Then(init, op) => EachNew(outcomes, init) && FilesNew(Play(outcomes, init), op)
  }

  lemma {:induction false} NewToRoomy(outcomes: seq<Record>, id: string)
    requires Find(outcomes, id).None?
    ensures Find(Roomy(outcomes), id).None?
  {
    var kept := Roomy(outcomes);
    assert forall i :: 0 <= i < |kept| ==> kept[i] == outcomes[if |outcomes| >= MAX_SETTLED_OUTCOMES then i + 1 else i];
  }

  lemma {:induction false} NewFilingsMove(outcomes: seq<Record>, r: Record, log: Log) returns (p: nat)
    requires Fine(outcomes) && outcomes != [] && outcomes[|outcomes| - 1] == r
    requires EachNew(outcomes, log) && Untouched(log, r.id) && Filings(log) < MAX_SETTLED_OUTCOMES
    ensures p < |Play(outcomes, log)| && Play(outcomes, log)[p] == r
    ensures |Play(outcomes, log)| - p == Filings(log) + 1
  {
    match log
    case Nothing => p := |outcomes| - 1;
    case Then(init, op) =>
      p := NewFilingsMove(outcomes, r, init);
      PlayFine(outcomes, init);
      var before := Play(outcomes, init);
      OldestOf256(before, p);
      NewToRoomy(before, op.record.id);
      p := FiledMoves(before, p, op.record);
  }

  /** When every outcome filed since is under an id of its own, a record is there exactly until the 256th. */
  lemma {:induction false} NewFilingsExactly(outcomes: seq<Record>, r: Record, log: Log)
    requires Fine(outcomes) && outcomes != [] && outcomes[|outcomes| - 1] == r
    requires EachNew(outcomes, log) && Untouched(log, r.id)
    ensures r in Play(outcomes, log) <==> Filings(log) < MAX_SETTLED_OUTCOMES
  {
    if Filings(log) < MAX_SETTLED_OUTCOMES {
      var p := NewFilingsMove(outcomes, r, log);
    } else {
      var before := Play(outcomes, log.init);
      PlayFine(outcomes, log.init);
      if Filings(log) == MAX_SETTLED_OUTCOMES {
        var p := NewFilingsMove(outcomes, r, log.init);
        FiledDrops(before, p, log.op.record);
      } else {
        NewFilingsExactly(outcomes, r, log.init);
        NothingNew(before, r, log.op);
      }
    }
  }

  /** Every operation files an outcome under the one id. */
  predicate Repeats(log: Log, id: string) {
    match log
    case Nothing => true
    case Then(init, op) => Repeats(init, id) && op.File? && op.record.id == id
  }

  lemma {:induction false} FiledTwice(r: Record, q: Record, again: Record)
    requires r.id != q.id && again.id == q.id
    ensures Remembered([r], q) == [r, q] && Remembered([r, q], again) == [r, again]
  {
    assert Find([r], q.id).None?;
    assert [r, q][1..] == [q];
    assert Find([r, q], q.id) == Some(1);
  }

  /** Filing one other id over and over never fills the ledger: then any number of filings leaves a record there. */
  lemma {:induction false} RepeatsDropNothing(r: Record, log: Log, id: string)
    requires id != r.id && Repeats(log, id)
    ensures Play([r], log) == if log.Nothing? then [r] else [r, log.op.record]
  {
    match log
    case Nothing =>
    case Then(init, op) =>
      RepeatsDropNothing(r, init, id);
      FiledTwice(r, if init.Then? then init.op.record else op.record, op.record);
  }

  // ---- The broker's steps, as the ledger sees them ----

  function SettleLog(log: Log, s: State, id: string, outcome: Outcome): Log {
    if id in s.entries then Then(log, File(Record(id, outcome, s.entries[id]))) else log
  }

  function SettleOneLog(log: Log, s: State, t: nat, actor: Actor, scope: Option<string>): Log {
    if InScope(s.requests, t, scope) then SettleLog(log, s, s.requests[t].id, AllOutcome(actor)) else log
  }

  function SettleFirstLog(log: Log, s: State, queue: seq<nat>, n: nat, actor: Actor, scope: Option<string>): Log
    requires n <= |queue|
  {
    if n == 0 then log
    else
      SettleOneLog(SettleFirstLog(log, s, queue, n - 1, actor, scope),
                   SettledFirst(s, queue, n - 1, actor, scope), queue[n - 1], actor, scope)
  }

  function SettleAllLog(log: Log, s: State, actor: Actor, scope: Option<string>): Log {
    var queue := Queued(s.requests, s.entries);
    SettleFirstLog(log, s, queue, |queue|, actor, scope)
  }

  function AskLog(log: Log, maxPending: nat, s: State, id: string, aborted: bool): Log {
    if aborted then Then(log, File(Record(id, Withdrawn, |s.requests|)))
    else if |s.entries| >= maxPending || id in s.entries then Then(log, File(Record(id, Unavailable, |s.requests|)))
    else log
  }

  /** The log with a step's operations at its end. */
  function StepLog(log: Log, maxPending: nat, s: State, step: Step): Log {
    match step
    case Ask(id, _, aborted) => AskLog(log, maxPending, s, id, aborted)
    case Decide(id, decision) => SettleLog(log, s, id, OutcomeOf(decision))
    case ClockRunsOut(id) => SettleLog(log, s, id, Expired)
    case TurnAborts(id) => SettleLog(log, s, id, Withdrawn)
    case SettleAll(actor, scope) => SettleAllLog(log, s, actor, scope)
    case TakeOutcome(id) => Then(log, Take(id))
    case _ => log
  }

  lemma {:induction false} SettledPlays(outcomes: seq<Record>, log: Log, s: State, id: string, outcome: Outcome,
        actor: Actor)
    requires s.outcomes == Play(outcomes, log)
    ensures Settled(s, id, outcome, actor).outcomes == Play(outcomes, SettleLog(log, s, id, outcome))
  {
  }

  lemma {:induction false} SettledFirstPlays(outcomes: seq<Record>, log: Log, s: State, queue: seq<nat>, n: nat,
        actor: Actor, scope: Option<string>)
    requires n <= |queue| && s.outcomes == Play(outcomes, log)
    ensures SettledFirst(s, queue, n, actor, scope).outcomes
            == Play(outcomes, SettleFirstLog(log, s, queue, n, actor, scope))
  {
    if n > 0 {
      SettledFirstPlays(outcomes, log, s, queue, n - 1, actor, scope);
      var u, h := SettledFirst(s, queue, n - 1, actor, scope), queue[n - 1];
      if InScope(u.requests, h, scope) {
        SettledPlays(outcomes, SettleFirstLog(log, s, queue, n - 1, actor, scope), u, u.requests[h].id,
            AllOutcome(actor), actor);
      }
    }
  }

  /** A step changes the ledger by its operations and by nothing else. */
  lemma {:induction false} StepPlays(outcomes: seq<Record>, log: Log, maxPending: nat, s: State, step: Step)
    requires s.outcomes == Play(outcomes, log)
    ensures Do(maxPending, s, step).outcomes == Play(outcomes, StepLog(log, maxPending, s, step))
  {
    if step.SettleAll? {
      var queue := Queued(s.requests, s.entries);
      SettledFirstPlays(outcomes, log, s, queue, |queue|, step.actor, step.scope);
    }
  }

  lemma {:induction false} SettleNeverFiles(log: Log, s: State, id: string, outcome: Outcome, r: Record)
    requires EntriesOk(s.requests, s.entries, s.postponed) && NeverFiles(log, r)
    requires r.request < |s.requests| && s.requests[r.request].answer.Some?
    ensures NeverFiles(SettleLog(log, s, id, outcome), r)
  {
    if id in s.entries { assert Waiting(s.requests, id, s.entries[id]); }
  }

  lemma {:induction false} FirstNeverFiles(log: Log, s: State, queue: seq<nat>, n: nat, actor: Actor,
        scope: Option<string>, r: Record)
      returns (u: State)
    requires EntriesOk(s.requests, s.entries, s.postponed) && NeverFiles(log, r) && n <= |queue|
    requires r.request < |s.requests| && s.requests[r.request].answer.Some?
    ensures u == SettledFirst(s, queue, n, actor, scope) && EntriesOk(u.requests, u.entries, u.postponed)
    ensures r.request < |u.requests| && u.requests[r.request].answer.Some?
    ensures NeverFiles(SettleFirstLog(log, s, queue, n, actor, scope), r)
  {
    if n == 0 {
      u := s;
    } else {
      var before := FirstNeverFiles(log, s, queue, n - 1, actor, scope, r);
      u := SettledFirst(s, queue, n, actor, scope);
      var h := queue[n - 1];
      if InScope(before.requests, h, scope) {
        var id, shorter := before.requests[h].id, SettleFirstLog(log, s, queue, n - 1, actor, scope);
        SettleNeverFiles(shorter, before, id, AllOutcome(actor), r);
        SettledEntries(before, id, AllOutcome(actor), actor, u);
        assert Later(before.requests[r.request], u.requests[r.request]);
      }
    }
  }

  lemma {:induction false} StepNeverFiles(log: Log, maxPending: nat, s: State, step: Step, r: Record)
    requires EntriesOk(s.requests, s.entries, s.postponed) && NeverFiles(log, r)
    requires r.request < |s.requests| && s.requests[r.request].answer.Some?
    ensures NeverFiles(StepLog(log, maxPending, s, step), r)
  {
    match step
    case Decide(id, decision) => SettleNeverFiles(log, s, id, OutcomeOf(decision), r);
    case ClockRunsOut(id) => SettleNeverFiles(log, s, id, Expired, r);
    case TurnAborts(id) => SettleNeverFiles(log, s, id, Withdrawn, r);
    case SettleAll(actor, scope) =>
      var queue := Queued(s.requests, s.entries);
      var u := FirstNeverFiles(log, s, queue, |queue|, actor, scope, r);
    case _ =>
  }

  // ---- Over a run ----

  /** The operations of the steps from `m` to `k`. */
  function LogBetween(maxPending: nat, trace: seq<State>, steps: seq<Step>, m: nat, k: nat): Log
    requires m <= k <= |steps| && |trace| == |steps| + 1
    decreases k
  {
    if m == k then Nothing
    else StepLog(LogBetween(maxPending, trace, steps, m, k - 1), maxPending, trace[k - 1], steps[k - 1])
  }

  lemma {:induction false} StepOfRunPlays(maxPending: nat, trace: seq<State>, steps: seq<Step>, outcomes: seq<Record>,
        log: Log, k: nat)
    requires Behaviour(maxPending, trace, steps) && k < |steps| && trace[k].outcomes == Play(outcomes, log)
    ensures trace[k + 1].outcomes == Play(outcomes, StepLog(log, maxPending, trace[k], steps[k]))
  {
    StepPlays(outcomes, log, maxPending, trace[k], steps[k]);
  }

  lemma {:induction false} RunPlays(maxPending: nat, trace: seq<State>, steps: seq<Step>, m: nat, k: nat)
    requires Behaviour(maxPending, trace, steps) && m <= k < |trace|
    ensures trace[k].outcomes == Play(trace[m].outcomes, LogBetween(maxPending, trace, steps, m, k))
    decreases k
  {
    if m < k {
      var j, start, log := k - 1, trace[m].outcomes, LogBetween(maxPending, trace, steps, m, k - 1);
      assert trace[j].outcomes == Play(start, log) by { RunPlays(maxPending, trace, steps, m, j); }
      assert trace[k].outcomes == Play(start, StepLog(log, maxPending, trace[j], steps[j])) by {
        StepOfRunPlays(maxPending, trace, steps, start, log, j);
      }
    }
  }

  lemma {:induction false} EntriesOfGood(maxPending: nat, s: State)
    requires Good(maxPending, s)
    ensures EntriesOk(s.requests, s.entries, s.postponed)
  {
  }

  lemma {:induction false} AnsweredGrown(before: seq<Request>, after: seq<Request>, t: nat)
    requires Grown(before, after) && t < |before| && before[t].answer.Some?
    ensures t < |after| && after[t].answer.Some?
  {
    assert Later(before[t], after[t]);
  }

  lemma {:induction false} AnsweredLater(maxPending: nat, trace: seq<State>, steps: seq<Step>, m: nat, k: nat, t: nat)
    requires Behaviour(maxPending, trace, steps) && m <= k < |trace|
    requires t < |trace[m].requests| && trace[m].requests[t].answer.Some?
    ensures t < |trace[k].requests| && trace[k].requests[t].answer.Some?
    ensures EntriesOk(trace[k].requests, trace[k].entries, trace[k].postponed)
  {
    Reachable(maxPending, trace, steps, k);
    EntriesOfGood(maxPending, trace[k]);
    AnswersStay(maxPending, trace, steps, m, k);
    AnsweredGrown(trace[m].requests, trace[k].requests, t);
  }

  /** A request is filed once: when it resolves. */
  lemma {:induction false} NeverFiledAgain(maxPending: nat, trace: seq<State>, steps: seq<Step>, m: nat, k: nat,
        r: Record)
    requires Behaviour(maxPending, trace, steps) && m <= k < |trace|
    requires r.request < |trace[m].requests| && trace[m].requests[r.request].answer.Some?
    ensures NeverFiles(LogBetween(maxPending, trace, steps, m, k), r)
    decreases k
  {
    if m < k {
      NeverFiledAgain(maxPending, trace, steps, m, k - 1, r);
      AnsweredLater(maxPending, trace, steps, m, k - 1, r.request);
      StepNeverFiles(LogBetween(maxPending, trace, steps, m, k - 1), maxPending, trace[k - 1], steps[k - 1], r);
    }
  }

  lemma {:induction false} OnLedger(maxPending: nat, s: State, r: Record)
    requires Good(maxPending, s) && r in s.outcomes
    ensures Fine(s.outcomes) && RecordOk(s.requests, r)
  {
    var i :| 0 <= i < |s.outcomes| && s.outcomes[i] == r;
    assert RecordOk(s.requests, s.outcomes[i]);
  }

  /**
   * Over every run, the record of a settled request is still on the ledger exactly when each
   * operation since kept it: its id was neither filed anew nor taken, and nothing was filed
   * while it was the oldest of 256.
   */
  lemma {:induction false} OnRecordExactly(maxPending: nat, trace: seq<State>, steps: seq<Step>, m: nat, k: nat,
        r: Record)
    requires Behaviour(maxPending, trace, steps) && m <= k < |trace| && r in trace[m].outcomes
    ensures r in trace[k].outcomes <==> KeptThrough(trace[m].outcomes, r, LogBetween(maxPending, trace, steps, m, k))
  {
    Reachable(maxPending, trace, steps, m);
    OnLedger(maxPending, trace[m], r);
    NeverFiledAgain(maxPending, trace, steps, m, k, r);
    RunPlays(maxPending, trace, steps, m, k);
    KeptExactly(trace[m].outcomes, r, LogBetween(maxPending, trace, steps, m, k));
  }

  /** A record just filed is there after any run that files fewer than 256 outcomes and leaves its id alone. */
  lemma {:induction false} OnRecordFor256(maxPending: nat, trace: seq<State>, steps: seq<Step>, m: nat, k: nat,
        r: Record)
    requires Behaviour(maxPending, trace, steps) && m <= k < |trace|
    requires trace[m].outcomes != [] && trace[m].outcomes[|trace[m].outcomes| - 1] == r
    requires Untouched(LogBetween(maxPending, trace, steps, m, k), r.id)
    requires Filings(LogBetween(maxPending, trace, steps, m, k)) < MAX_SETTLED_OUTCOMES
    ensures r in trace[k].outcomes
  {
    Reachable(maxPending, trace, steps, m);
    OnLedger(maxPending, trace[m], r);
    RunPlays(maxPending, trace, steps, m, k);
    var p := FewFilingsKeep(trace[m].outcomes, r, LogBetween(maxPending, trace, steps, m, k));
  }

  /**
   * ... and when each outcome filed since is under an id not then on the ledger, exactly until
   * the 256th of them.
   */
  lemma {:induction false} OnRecordUntilThe256th(maxPending: nat, trace: seq<State>, steps: seq<Step>, m: nat, k: nat,
        r: Record)
    requires Behaviour(maxPending, trace, steps) && m <= k < |trace|
    requires trace[m].outcomes != [] && trace[m].outcomes[|trace[m].outcomes| - 1] == r
    requires Untouched(LogBetween(maxPending, trace, steps, m, k), r.id)
    requires EachNew(trace[m].outcomes, LogBetween(maxPending, trace, steps, m, k))
    ensures r in trace[k].outcomes <==> Filings(LogBetween(maxPending, trace, steps, m, k)) < MAX_SETTLED_OUTCOMES
  {
    Reachable(maxPending, trace, steps, m);
    OnLedger(maxPending, trace[m], r);
    RunPlays(maxPending, trace, steps, m, k);
    NewFilingsExactly(trace[m].outcomes, r, LogBetween(maxPending, trace, steps, m, k));
  }
}
