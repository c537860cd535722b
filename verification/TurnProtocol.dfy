/**
 * Concurrent runTurn calls on one session, with other writers and a store that may
 * refuse, fail, or commit and then report failure (src/core/agent.ts:161-880).
 */
module TurnProtocol {
  import opened Messages
  import opened TurnJournal
  import opened TurnHistory

  /** How one journal append went. */
  datatype Append = Ok | Lost | Ambiguous  // Ambiguous: it committed, and then reported failure

  datatype Outcome =
    | Returned   // the turn result
    | Threw      // an ordinary error, terminal state settled
    | Aggregate  // the terminal state could not be settled

  /** Where the try block stands: each prelude record at most once and in this order. */
  datatype Stage = Selecting | Compacting | Noting | Stepping

  /** What the running loop itself remembers; it never looks at another run. */
  datatype Local = Local(
    seen: seq<Event>,       // the history read before admission
    reserved: set<string>,  // operation ids used so far
    pending: set<string>,   // declared calls without an outcome
    stage: Stage)

  datatype Run =
    | Started
    | Read(head: nat)                    // getSession answered
    | Vetted(head: nat, seen: seq<Event>)  // readEvents answered and the preflight passed
    | Refused                            // ended before it was admitted
    | Working(local: Local)              // admitted; inside the try block
    | Failing                            // catch path: about to look for a terminal
    | Writing                            // no terminal found: about to write one
    | Rechecking                         // writing it reported failure: about to look again
    | Ended(outcome: Outcome)

  /** Run `i` uses turn id `i`: a random UUID that nothing else uses. */
  datatype System = System(journal: seq<Event>, runs: seq<Run>)

  predicate Init(s: System) {
    && s.journal == []
    && forall i :: 0 <= i < |s.runs| ==> s.runs[i] == Started
  }

  /** The journal after an append of `batch` that went `how`. */
  function Committed(journal: seq<Event>, batch: seq<Event>, how: Append): seq<Event> {
    if how.Lost? then journal else journal + batch
  }

  predicate Moves(s: System, n: System, i: nat, journal: seq<Event>, to: Run) {
    && i < |s.runs|
    && n == System(journal, s.runs[i := to])
  }

  function Of(i: nat, body: Body): Event {
    Event(Some(i), body)
  }

  // ---- Before admission ----

  predicate ReadSession(s: System, n: System, i: nat) {
    && i < |s.runs| && s.runs[i].Started?
    && (Moves(s, n, i, s.journal, Read(|s.journal|)) || Moves(s, n, i, s.journal, Refused))
  }

  predicate ReadEvents(s: System, n: System, i: nat) {
    && i < |s.runs| && s.runs[i].Read?
    && (Moves(s, n, i, s.journal, Refused)
        || (Unfinished(s.journal, |s.journal|).None?
            && Moves(s, n, i, s.journal, Vetted(s.runs[i].head, s.journal))))
  }

  /** The operation ids an existing history already uses, as far as they name calls. */
  function OperationIds(events: seq<Event>, n: nat): set<string>
    requires n <= |events|
  {
    if n == 0 then {}
    else
      var own := match events[n - 1].body
        case ToolRequested(call) => {call.id}
        case ToolApproved(id) => {id}
        case ToolOutcome(id, _) => {id}
        case _ => {};
      OperationIds(events, n - 1) + own
  }

  /** The fenced append: committed only on the head that was read. */
  predicate Admit(s: System, n: System, i: nat, content: string, images: seq<Image>, environment: string, how: Append) {
    && i < |s.runs| && s.runs[i].Vetted?
    && (how.Lost? || |s.journal| == s.runs[i].head)
    && Moves(s, n, i, Committed(s.journal, [Of(i, TurnRequested(content, images, environment))], how),
             if how.Ok?
             then Working(Local(s.runs[i].seen, OperationIds(s.runs[i].seen, |s.runs[i].seen|), {}, Selecting))
             else Refused)
  }

  // ---- The admitted turn ----

  /** One append of the try block. */
  datatype Write =
    | Select(selection: string)
    | Summarize(covers: nat)
    | Restate(note: Option<string>)
    | Infer
    | Approve(approved: string)
    | Resolve(callId: string, result: string)
    | Declare(text: string, calls: seq<Call>)

  /** The records of one append: an assistant step comes with one tool.requested per call. */
  function Records(i: nat, w: Write): seq<Event> {
    match w
    case Select(selection) => [Of(i, ContextSelected(selection))]
    case Summarize(covers) => [Of(i, SummaryUpdated(covers))]
    case Restate(note) => [Of(i, PlanRestated(note))]
    case Infer => [Of(i, InferenceNoted)]
    case Approve(id) => [Of(i, ToolApproved(id))]
    case Resolve(id, result) => [Of(i, ToolOutcome(id, result))]
    case Declare(text, calls) => [Of(i, AssistantCompleted(text, calls))] + Requests(i, calls)
  }

  function Requests(i: nat, calls: seq<Call>): seq<Event> {
    if calls == [] then [] else [Of(i, ToolRequested(calls[0]))] + Requests(i, calls[1..])
  }

  /** A summary ends at a completed turn of the history read, past the summary before it. */
  predicate Coverable(seen: seq<Event>, covers: nat) {
    0 < covers <= |seen| && seen[covers - 1].body.TurnCompleted? && LatestCovered(seen, |seen|) < covers
  }

  /** Whether the loop makes this append now, and what it remembers afterwards. */
  function After(l: Local, w: Write): Option<Local> {
    match w
    case Select(_) => if l.stage.Selecting? then Some(l.(stage := Compacting)) else None
    case Summarize(covers) =>
      if (l.stage.Selecting? || l.stage.Compacting?) && Coverable(l.seen, covers)
      then Some(l.(stage := Noting)) else None
    case Restate(_) => if l.stage.Noting? then Some(l.(stage := Stepping)) else None
    case Infer => if l.pending == {} then Some(l.(stage := Stepping)) else None
    case Approve(id) => if id in l.pending then Some(l) else None
    case Resolve(id, _) => if id in l.pending then Some(l.(pending := l.pending - {id})) else None
    case Declare(_, calls) =>
      // reserveToolCallBatch: ids distinct and unused (src/core/agent.ts:1196-1216)
      if l.stage.Stepping? && l.pending == {} && calls != [] && DistinctIds(calls) && CallIds(calls) !! l.reserved
      then Some(l.(reserved := l.reserved + CallIds(calls), pending := CallIds(calls))) else None
  }

  predicate Work(s: System, n: System, i: nat, w: Write, how: Append) {
    && i < |s.runs| && s.runs[i].Working?
    && After(s.runs[i].local, w).Some?
    && Moves(s, n, i, Committed(s.journal, Records(i, w), how),
             if how.Ok? then Working(After(s.runs[i].local, w).value) else Failing)
  }

  /** The final answer and turn.completed, in one append. */
  predicate Finish(s: System, n: System, i: nat, text: string, how: Append) {
    && i < |s.runs| && s.runs[i].Working? && s.runs[i].local.stage.Stepping? && s.runs[i].local.pending == {}
    && Moves(s, n, i, Committed(s.journal, [Of(i, AssistantCompleted(text, [])), Of(i, TurnCompleted)], how),
             if how.Ok? then Ended(Returned) else Failing)
  }

  /** Anything thrown inside the try block: provider, tool, guardrail, abort. */
  predicate Throw(s: System, n: System, i: nat) {
    && i < |s.runs| && s.runs[i].Working?
    && Moves(s, n, i, s.journal, Failing)
  }

  // ---- The catch path ----

  /** reconcileTerminal: what a durable read says (src/core/agent.ts:256-272). */
  predicate Reconcile(s: System, n: System, i: nat, readable: bool) {
    && i < |s.runs| && s.runs[i].Failing?
    && var found := TerminalCount(s.journal, |s.journal|, i);
       Moves(s, n, i, s.journal,
             if !readable || found > 1 then Ended(Aggregate)
             else if found == 1 then Ended(Threw) else Writing)
  }

  predicate WriteTerminal(s: System, n: System, i: nat, cancelled: bool, reason: string, how: Append) {
    && i < |s.runs| && s.runs[i].Writing?
    && var body := if cancelled then TurnCancelled(reason) else TurnFailed(reason);
       Moves(s, n, i, Committed(s.journal, [Of(i, body)], how), if how.Ok? then Ended(Threw) else Rechecking)
  }

  predicate Recheck(s: System, n: System, i: nat, readable: bool) {
    && i < |s.runs| && s.runs[i].Rechecking?
    && Moves(s, n, i, s.journal,
             if readable && TerminalCount(s.journal, |s.journal|, i) == 1 then Ended(Threw) else Ended(Aggregate))
  }

  /** Another writer: a rename, a model change, bookkeeping; or a new runTurn call. */
  predicate Elsewhere(s: System, n: System, turn: Option<TurnId>) {
    || n == s.(journal := s.journal + [Event(turn, SessionRecord)])
    || n == s.(runs := s.runs + [Started])
  }

  datatype Step =
    | SReadSession(i: nat)
    | SReadEvents(i: nat)
    | SAdmit(i: nat, content: string, images: seq<Image>, environment: string, how: Append)
    | SWork(i: nat, w: Write, how: Append)
    | SFinish(i: nat, text: string, how: Append)
    | SThrow(i: nat)
    | SReconcile(i: nat, readable: bool)
    | SWriteTerminal(i: nat, cancelled: bool, reason: string, how: Append)
    | SRecheck(i: nat, readable: bool)
    | SElsewhere(turn: Option<TurnId>)

  predicate Next(s: System, n: System, step: Step) {
    match step
    case SReadSession(i) => ReadSession(s, n, i)
    case SReadEvents(i) => ReadEvents(s, n, i)
    case SAdmit(i, content, images, environment, how) => Admit(s, n, i, content, images, environment, how)
    case SWork(i, w, how) => Work(s, n, i, w, how)
    case SFinish(i, text, how) => Finish(s, n, i, text, how)
    case SThrow(i) => Throw(s, n, i)
    case SReconcile(i, readable) => Reconcile(s, n, i, readable)
    case SWriteTerminal(i, cancelled, reason, how) => WriteTerminal(s, n, i, cancelled, reason, how)
    case SRecheck(i, readable) => Recheck(s, n, i, readable)
    case SElsewhere(turn) => Elsewhere(s, n, turn)
  }

  // ---- The invariant ----

  predicate IsOpen(tr: Tracker, i: nat) {
    tr.phase.Open? && tr.phase.turn == i
  }

  /** Where turn `i` stands in the journal, given where its run stands. */
  predicate RunFits(journal: seq<Event>, i: nat, run: Run)
    requires Tracked(journal)
  {
    var tr := Track(journal);
    match run
    case Started => i !in tr.turns
    case Read(head) => i !in tr.turns && head <= |journal|
    case Vetted(head, seen) =>
      i !in tr.turns && head <= |seen| && seen <= journal && Unfinished(seen, |seen|).None?
    case Refused => i in tr.turns ==> IsOpen(tr, i)
    case Working(l) =>
      && IsOpen(tr, i) && tr.phase.pending == l.pending
      && l.seen <= journal && tr.calls <= l.reserved
      && (!l.stage.Stepping? ==> l.pending == {})
      && (l.stage.Selecting? || l.stage.Compacting? ==> tr.covered == LatestCovered(l.seen, |l.seen|))
    case Failing => i in tr.turns
    case Writing => IsOpen(tr, i)
    case Rechecking => i in tr.turns
    case Ended(outcome) => i in tr.turns && (outcome.Aggregate? || !IsOpen(tr, i))
  }

  predicate Inv(s: System) {
    && Tracked(s.journal)
    && Track(s.journal).calls <= OperationIds(s.journal, |s.journal|)
    && (forall i :: i in Track(s.journal).turns ==> i < |s.runs|)
    && (forall i :: 0 <= i < |s.runs| ==> RunFits(s.journal, i, s.runs[i]))
  }

  /** Folding a batch into the tracker. */
  function AdvanceAll(tr: Tracker, batch: seq<Event>, at: nat): Option<Tracker>
    decreases |batch|
  {
    if batch == [] then Some(tr)
    else match Advance(tr, batch[0], at + 1)
      case None => None
      case Some(next) => AdvanceAll(next, batch[1..], at + 1)
  }

  lemma {:induction false} TrackBatch(journal: seq<Event>, batch: seq<Event>)
    requires Tracked(journal)
    ensures TrackTo(journal + batch, |journal + batch|) == AdvanceAll(Track(journal), batch, |journal|)
    decreases |batch|
  {
    if batch == [] {
      assert journal + batch == journal;
    } else {
      TrackAppend(journal, batch[0]);
      var one := journal + [batch[0]];
      assert journal + batch == one + batch[1..];
      if Tracked(one) {
        TrackBatch(one, batch[1..]);
      } else {
        TrackPrefix(journal + batch, |one|, |journal + batch|);
        TrackIgnoresSuffix(one, batch[1..], |one|);
      }
    }
  }

  /** tool.requested records leave the tracker of an open turn alone. */
  lemma {:induction false} RequestsKeep(tr: Tracker, i: nat, calls: seq<Call>, at: nat)
    requires IsOpen(tr, i)
    ensures AdvanceAll(tr, Requests(i, calls), at) == Some(tr)
  {
    if calls != [] {
      RequestsKeep(tr, i, calls[1..], at + 1);
      assert Requests(i, calls)[1..] == Requests(i, calls[1..]);
    }
  }

  /** Completed records are exactly the tracker's cut points. */
  lemma {:induction false} CompletedAt(events: seq<Event>, n: nat, c: nat)
    requires 0 < c <= n <= |events| && Tracked(events)
    requires events[c - 1].body.TurnCompleted?
    ensures c in TrackerAt(events, n).completed
  {
    StepAt(events, n - 1);
    if c < n { CompletedAt(events, n - 1, c); }
  }

  /** What the loop remembers is enough: the append it makes is one the journal admits. */
  predicate Admitted(journal: seq<Event>, i: nat, l: Local, w: Write)
    requires Tracked(journal) && After(l, w).Some?
  {
    && Tracked(journal + Records(i, w))
    && RunFits(journal + Records(i, w), i, Working(After(l, w).value))
    && Track(journal + Records(i, w)).turns == Track(journal).turns
  }

  lemma {:induction false} DeclareAdmitted(journal: seq<Event>, i: nat, l: Local, w: Write)
    requires Tracked(journal) && RunFits(journal, i, Working(l)) && After(l, w).Some? && w.Declare?
    ensures Admitted(journal, i, l, w)
  {
    var tr, at, batch := Track(journal), |journal|, Records(i, w);
    TrackBatch(journal, batch);
    var next := tr.(calls := tr.calls + CallIds(w.calls), phase := Open(i, CallIds(w.calls)));
    assert Advance(tr, batch[0], at + 1) == Some(next);
    RequestsKeep(next, i, w.calls, at + 1);
    assert batch[1..] == Requests(i, w.calls);
  }

  lemma {:induction false} SummarizeAdmitted(journal: seq<Event>, i: nat, l: Local, w: Write)
    requires Tracked(journal) && RunFits(journal, i, Working(l)) && After(l, w).Some? && w.Summarize?
    ensures Admitted(journal, i, l, w)
  {
    assert l.seen[w.covers - 1] == journal[w.covers - 1];
    CompletedAt(journal, |journal|, w.covers);
    TrackAppend(journal, Records(i, w)[0]);
  }

  lemma {:induction false} WriteAdmitted(journal: seq<Event>, i: nat, l: Local, w: Write)
    requires Tracked(journal) && RunFits(journal, i, Working(l)) && After(l, w).Some?
    ensures Admitted(journal, i, l, w)
  {
    if w.Declare? { DeclareAdmitted(journal, i, l, w); }
    else if w.Summarize? { SummarizeAdmitted(journal, i, l, w); }
    else { TrackAppend(journal, Records(i, w)[0]); }
  }

  // ---- Every step keeps the invariant ----

  /** An append of turn `i`'s records: `i` was not overtaken and nothing else of the tracker moved. */
  predicate OnlyTurn(journal: seq<Event>, more: seq<Event>, i: nat) {
    && Tracked(journal) && Tracked(journal + more)
    && var tr, next := Track(journal), Track(journal + more);
       && tr.turns <= next.turns <= tr.turns + {i}
       && (tr.phase.Open? ==> tr.phase.turn == i)
       && (next.phase.Open? ==> next.phase.turn == i)
  }

  lemma {:induction false} OthersKeep(journal: seq<Event>, more: seq<Event>, i: nat, j: nat, run: Run)
    requires OnlyTurn(journal, more, i) && j != i && RunFits(journal, j, run)
    ensures RunFits(journal + more, j, run)
  {
  }

  lemma {:induction false} OperationIdsConcat(a: seq<Event>, b: seq<Event>, n: nat)
    requires n <= |a|
    ensures OperationIds(a + b, n) == OperationIds(a, n)
  {
    if n > 0 { OperationIdsConcat(a, b, n - 1); }
  }

  lemma {:induction false} OperationIdsGrow(events: seq<Event>, n: nat, m: nat)
    requires n <= m <= |events|
    ensures OperationIds(events, n) <= OperationIds(events, m)
    decreases m
  {
    if n < m { OperationIdsGrow(events, n, m - 1); }
  }

  lemma {:induction false} RequestsName(journal: seq<Event>, i: nat, calls: seq<Call>)
    ensures CallIds(calls) <= OperationIds(journal + Requests(i, calls), |journal + Requests(i, calls)|)
    decreases |calls|
  {
    if calls != [] {
      var one := journal + [Of(i, ToolRequested(calls[0]))];
      RequestsName(one, i, calls[1..]);
      var all := journal + Requests(i, calls);
      assert all == one + Requests(i, calls[1..]);
      OperationIdsConcat(one, Requests(i, calls[1..]), |one|);
      OperationIdsGrow(all, |one|, |all|);
      assert CallIds(calls) == {calls[0].id} + CallIds(calls[1..]);
    }
  }

  /** Declared ids are always named by the operation ids of the journal. */
  lemma {:induction false} IdsStayNamed(journal: seq<Event>, more: seq<Event>)
    requires Tracked(journal) && Tracked(journal + more)
    requires Track(journal).calls <= OperationIds(journal, |journal|)
    requires Track(journal + more).calls <= Track(journal).calls + OperationIds(journal + more, |journal + more|)
    ensures Track(journal + more).calls <= OperationIds(journal + more, |journal + more|)
  {
    OperationIdsConcat(journal, more, |journal|);
    OperationIdsGrow(journal + more, |journal|, |journal + more|);
  }

  lemma {:induction false} DeclareNames(journal: seq<Event>, i: nat, text: string, calls: seq<Call>)
    ensures CallIds(calls) <= OperationIds(journal + Records(i, Declare(text, calls)),
                                           |journal + Records(i, Declare(text, calls))|)
  {
    var one := journal + [Of(i, AssistantCompleted(text, calls))];
    assert journal + Records(i, Declare(text, calls)) == one + Requests(i, calls);
    RequestsName(one, i, calls);
  }

  lemma {:induction false} DeclareCalls(journal: seq<Event>, i: nat, l: Local, w: Write)
    requires Tracked(journal) && RunFits(journal, i, Working(l)) && After(l, w).Some? && w.Declare?
    requires Tracked(journal + Records(i, w))
    ensures Track(journal + Records(i, w)).calls == Track(journal).calls + CallIds(w.calls)
  {
    var tr, at, batch := Track(journal), |journal|, Records(i, w);
    var next := tr.(calls := tr.calls + CallIds(w.calls), phase := Open(i, CallIds(w.calls)));
    TrackBatch(journal, batch);
    assert Advance(tr, batch[0], at + 1) == Some(next);
    assert batch[1..] == Requests(i, w.calls);
    RequestsKeep(next, i, w.calls, at + 1);
  }

  lemma {:induction false} WriteNames(journal: seq<Event>, i: nat, l: Local, w: Write)
    requires Tracked(journal) && RunFits(journal, i, Working(l)) && After(l, w).Some?
    requires Tracked(journal + Records(i, w))
    ensures Track(journal + Records(i, w)).calls
         <= Track(journal).calls + OperationIds(journal + Records(i, w), |journal + Records(i, w)|)
  {
    if w.Declare? {
      DeclareCalls(journal, i, l, w);
      DeclareNames(journal, i, w.text, w.calls);
    } else {
      TrackAppend(journal, Records(i, w)[0]);
    }
  }

  /** A step that appends `more` for run `i` and moves it to a phase that fits keeps the invariant. */
  lemma {:induction false} Stepped(s: System, n: System, i: nat, more: seq<Event>, to: Run)
    requires Inv(s) && i < |s.runs|
    requires n == System(s.journal + more, s.runs[i := to])
    requires OnlyTurn(s.journal, more, i) && RunFits(s.journal + more, i, to)
    requires Track(n.journal).calls <= Track(s.journal).calls + OperationIds(n.journal, |n.journal|)
    ensures Inv(n)
  {
    IdsStayNamed(s.journal, more);
    forall j | 0 <= j < |n.runs| ensures RunFits(n.journal, j, n.runs[j]) {
      if j != i { OthersKeep(s.journal, more, i, j, s.runs[j]); }
    }
  }

  /** A step that writes nothing. */
  lemma {:induction false} Moved(s: System, n: System, i: nat, to: Run)
    requires Inv(s) && i < |s.runs| && Moves(s, n, i, s.journal, to)
    requires RunFits(s.journal, i, to)
    ensures Inv(n)
  {
  }

  lemma {:induction false} AdmitKeeps(s: System, n: System, i: nat, content: string, images: seq<Image>,
        environment: string, how: Append)
    requires Inv(s) && Admit(s, n, i, content, images, environment, how)
    ensures Inv(n)
  {
    var seen, head := s.runs[i].seen, s.runs[i].head;
    if how.Lost? {
      Moved(s, n, i, Refused);
    } else {
      // The head did not move, so the history that passed the preflight is the journal.
      assert seen == s.journal;
      UnfinishedIsOpenTurn(s.journal, |s.journal|);
      CutsBetweenTurns(s.journal, |s.journal|);
      var more := [Of(i, TurnRequested(content, images, environment))];
      TrackAppend(s.journal, more[0]);
      Stepped(s, n, i, more, n.runs[i]);
    }
  }

  lemma {:induction false} WorkKeeps(s: System, n: System, i: nat, w: Write, how: Append)
    requires Inv(s) && Work(s, n, i, w, how)
    ensures Inv(n)
  {
    if how.Lost? {
      OpenIsRequested(s.journal, |s.journal|);
      Moved(s, n, i, Failing);
    } else {
      var l := s.runs[i].local;
      WriteAdmitted(s.journal, i, l, w);
      WriteNames(s.journal, i, l, w);
      OpenIsRequested(s.journal, |s.journal|);
      Stepped(s, n, i, Records(i, w), n.runs[i]);
    }
  }

  lemma {:induction false} FinishKeeps(s: System, n: System, i: nat, text: string, how: Append)
    requires Inv(s) && Finish(s, n, i, text, how)
    ensures Inv(n)
  {
    OpenIsRequested(s.journal, |s.journal|);
    if how.Lost? {
      Moved(s, n, i, Failing);
    } else {
      var more := [Of(i, AssistantCompleted(text, [])), Of(i, TurnCompleted)];
      var answered := s.journal + [more[0]];
      TrackAppend(s.journal, more[0]);
      assert CallIds([]) == {};
      TrackAppend(answered, more[1]);
      assert s.journal + more == answered + [more[1]];
      Stepped(s, n, i, more, n.runs[i]);
    }
  }

  lemma {:induction false} WriteTerminalKeeps(s: System, n: System, i: nat, cancelled: bool, reason: string,
        how: Append)
    requires Inv(s) && WriteTerminal(s, n, i, cancelled, reason, how)
    ensures Inv(n)
  {
    OpenIsRequested(s.journal, |s.journal|);
    if how.Lost? {
      Moved(s, n, i, Rechecking);
    } else {
      var more := [Of(i, if cancelled then TurnCancelled(reason) else TurnFailed(reason))];
      TrackAppend(s.journal, more[0]);
      Stepped(s, n, i, more, n.runs[i]);
    }
  }

  lemma {:induction false} ElsewhereKeeps(s: System, n: System, turn: Option<TurnId>)
    requires Inv(s) && Elsewhere(s, n, turn)
    ensures Inv(n)
  {
    if n.runs == s.runs {
      var more := [Event(turn, SessionRecord)];
      TrackAppend(s.journal, more[0]);
      IdsStayNamed(s.journal, more);
    }
  }

  lemma {:induction false} NextKeeps(s: System, n: System, step: Step)
    requires Inv(s) && Next(s, n, step)
    ensures Inv(n)
  {
    match step
    case SAdmit(i, content, images, environment, how) => AdmitKeeps(s, n, i, content, images, environment, how);
    case SWork(i, w, how) => WorkKeeps(s, n, i, w, how);
    case SFinish(i, text, how) => FinishKeeps(s, n, i, text, how);
    case SWriteTerminal(i, cancelled, reason, how) => WriteTerminalKeeps(s, n, i, cancelled, reason, how);
    case SElsewhere(turn) => ElsewhereKeeps(s, n, turn);
    case SThrow(i) =>
      OpenIsRequested(s.journal, |s.journal|);
      Moved(s, n, i, Failing);
    case SReconcile(i, _) =>
      TerminalsOf(s.journal, |s.journal|, i);
      Moved(s, n, i, n.runs[i]);
    case SRecheck(i, _) =>
      TerminalsOf(s.journal, |s.journal|, i);
      Moved(s, n, i, n.runs[i]);
    case SReadSession(i) => Moved(s, n, i, n.runs[i]);
    case SReadEvents(i) => Moved(s, n, i, n.runs[i]);
  }

  // ---- Runs ----

  predicate Behaviour(trace: seq<System>, steps: seq<Step>) {
    && |trace| == |steps| + 1
    && Init(trace[0])
    && forall k :: 0 <= k < |steps| ==> StepTaken(trace, steps, k)
  }

  predicate StepTaken(trace: seq<System>, steps: seq<Step>, k: nat)
    requires k < |steps| && |trace| == |steps| + 1
  {
    Next(trace[k], trace[k + 1], steps[k])
  }

  lemma {:induction false} Reachable(trace: seq<System>, steps: seq<Step>, k: nat)
    requires Behaviour(trace, steps) && k < |trace|
    ensures Inv(trace[k])
  {
    if k > 0 {
      Reachable(trace, steps, k - 1);
      assert StepTaken(trace, steps, k - 1);
      NextKeeps(trace[k - 1], trace[k], steps[k - 1]);
    }
  }

  /** Requested, and no terminal record yet. */
  predicate OpenTurn(journal: seq<Event>, t: TurnId) {
    && (exists k :: 0 <= k < |journal| && journal[k].Of(t) && journal[k].body.TurnRequested?)
    && TerminalCount(journal, |journal|, t) == 0
  }

  lemma {:induction false} RequestedTurns(events: seq<Event>, n: nat, k: nat, t: TurnId)
    requires k < n <= |events| && Tracked(events) && events[k].Of(t)
    ensures t in TrackerAt(events, n).turns
  {
    OpenWhenWritten(events, k, t);
    if k < n - 1 {
      RequestedTurns(events, n - 1, k, t);
      StepAt(events, n - 1);
    }
  }

  /**
   * Whatever the interleaving and whichever appends get lost or report failure after
   * committing: at most one turn is open, no turn has two terminal records, a run that
   * was admitted and ended without an aggregate error left exactly one, and a run that
   * was refused left none.
   */
  lemma {:induction false} TurnSafety(trace: seq<System>, steps: seq<Step>, k: nat)
    requires Behaviour(trace, steps) && k < |trace|
    ensures forall t, u :: OpenTurn(trace[k].journal, t) && OpenTurn(trace[k].journal, u) ==> t == u
    ensures forall t :: TerminalCount(trace[k].journal, |trace[k].journal|, t) <= 1
    ensures forall i :: 0 <= i < |trace[k].runs| && trace[k].runs[i].Ended? && !trace[k].runs[i].outcome.Aggregate? ==>
              TerminalCount(trace[k].journal, |trace[k].journal|, i) == 1
    ensures forall i :: 0 <= i < |trace[k].runs| && trace[k].runs[i].Refused? ==>
              TerminalCount(trace[k].journal, |trace[k].journal|, i) == 0
  {
    Reachable(trace, steps, k);
    var journal := trace[k].journal;
    forall t ensures TerminalCount(journal, |journal|, t)
                  == if t in Track(journal).turns && !IsOpen(Track(journal), t) then 1 else 0
    {
      TerminalsOf(journal, |journal|, t);
    }
    forall t | OpenTurn(journal, t) ensures IsOpen(Track(journal), t) {
      var m :| 0 <= m < |journal| && journal[m].Of(t) && journal[m].body.TurnRequested?;
      RequestedTurns(journal, |journal|, m, t);
    }
  }

  /** The loop reads the journal only between steps: nothing is then unanswered. */
  predicate LoopReads(s: System, i: nat) {
    i < |s.runs| && s.runs[i].Working? && s.runs[i].local.pending == {}
  }

  /**
   * Every history a running turn sends to its provider is well paired, over every run of
   * the protocol: the journal it reads may hold any mix of completed, failed, cancelled
   * and compacted turns of any earlier runs.
   */
  lemma {:induction false} ProviderHistoryIsPaired(trace: seq<System>, steps: seq<Step>, k: nat, i: nat, v: View)
    requires Behaviour(trace, steps) && k < |trace| && LoopReads(trace[k], i)
    requires v.events == trace[k].journal && v.covered == LatestCovered(v.events, |v.events|) && Paired(v.base)
    ensures v.Valid()
    ensures forall m :: 0 <= m < |Materialized(v)| && Materialized(v)[m].Assistant? ==>
              EachCallAnsweredOnce(Materialized(v), m)
    ensures forall m :: 0 <= m < |Materialized(v)| && Materialized(v)[m].Tool? ==>
              AnswersNearestStep(Materialized(v), m)
  {
    Reachable(trace, steps, k);
    assert RunFits(trace[k].journal, i, trace[k].runs[i]);
    MaterializedHistoryIsPaired(v);
  }

  /** A durable read in the catch path always settles the turn or finds no terminal at all. */
  lemma {:induction false} ReconcileSettles(trace: seq<System>, steps: seq<Step>, k: nat, i: nat, next: System)
    requires Behaviour(trace, steps) && k < |trace| && Reconcile(trace[k], next, i, true)
    ensures next.runs[i] == Ended(Threw) || next.runs[i] == Writing
    ensures next.runs[i] == Ended(Threw) <==> TerminalCount(trace[k].journal, |trace[k].journal|, i) == 1
  {
    Reachable(trace, steps, k);
    TerminalsOf(trace[k].journal, |trace[k].journal|, i);
  }
}
