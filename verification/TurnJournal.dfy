/**
 * The turn records of a session journal, decoded, and the order in which the turn
 * loop may write them (src/core/agent.ts:274-880).
 */
module TurnJournal {
  import opened Messages

  type TurnId = nat

  datatype Body =
    | TurnRequested(content: string, images: seq<Image>, environment: string)
    | ContextSelected(selection: string)
    | SummaryUpdated(covers: nat)
    | PlanRestated(note: Option<string>)
    | InferenceNoted  // inference.started, inference.usage, turn.reasoning
    | AssistantCompleted(text: string, calls: seq<Call>)
    | ToolRequested(call: Call)
    | ToolApproved(approved: string)
    | ToolOutcome(callId: string, result: string)  // tool.resulted, tool.failed, tool.denied
    | TurnCompleted
    | TurnFailed(error: string)
    | TurnCancelled(reason: string)
    | SessionRecord  // rename, model change, bookkeeping: nothing of a turn

  /** `turn` is the event's turnId; sequence numbers are positions, counted from 1. */
  datatype Event = Event(turn: Option<TurnId>, body: Body) {
    predicate Of(t: TurnId) {
      turn == Some(t) && !body.SessionRecord?
    }

    predicate Terminal() {
      body.TurnCompleted? || body.TurnFailed? || body.TurnCancelled?
    }
  }

  /** Which turn is open, and which of its declared calls have no outcome yet. */
  datatype Phase = Closed | Open(turn: TurnId, pending: set<string>)

  datatype Tracker = Tracker(
    turns: set<TurnId>,     // every turn ever requested
    calls: set<string>,     // every tool-call id ever declared
    completed: set<nat>,    // sequence numbers of turn.completed records
    covered: nat,           // what the newest summary covers
    phase: Phase)

  const FRESH := Tracker({}, {}, {}, 0, Closed)

  /** The tracker after `e` is recorded at sequence `at`, or None when it may not be. */
  function Advance(tr: Tracker, e: Event, at: nat): Option<Tracker> {
    if e.body.SessionRecord? then Some(tr)
    else if e.turn.None? then None
    else
      var t := e.turn.value;
      if e.body.TurnRequested? then
        if tr.phase.Closed? && t !in tr.turns
        then Some(tr.(turns := tr.turns + {t}, phase := Open(t, {}))) else None
      else if tr.phase.Closed? || tr.phase.turn != t then None
      else match e.body
        case TurnFailed(_) => Some(tr.(phase := Closed))
        case TurnCancelled(_) => Some(tr.(phase := Closed))
        case TurnCompleted =>
          if tr.phase.pending == {}
          then Some(tr.(phase := Closed, completed := tr.completed + {at})) else None
        case AssistantCompleted(_, calls) =>
          if tr.phase.pending == {} && DistinctIds(calls) && CallIds(calls) !! tr.calls
          then Some(tr.(calls := tr.calls + CallIds(calls), phase := Open(t, CallIds(calls)))) else None
        case ToolOutcome(id, _) =>
          if id in tr.phase.pending then Some(tr.(phase := Open(t, tr.phase.pending - {id}))) else None
        case SummaryUpdated(c) =>
          if tr.phase.pending == {} && c in tr.completed && tr.covered < c
          then Some(tr.(covered := c)) else None
        case ContextSelected(_) => if tr.phase.pending == {} then Some(tr) else None
        case PlanRestated(_) => if tr.phase.pending == {} then Some(tr) else None
        case _ => Some(tr)
  }

  /** The tracker after the first `n` events. */
  function TrackTo(events: seq<Event>, n: nat): Option<Tracker>
    requires n <= |events|
  {
    if n == 0 then Some(FRESH)
    else match TrackTo(events, n - 1)
      case None => None
      case Some(tr) => Advance(tr, events[n - 1], n)
  }

  predicate Tracked(events: seq<Event>) {
    TrackTo(events, |events|).Some?
  }

  function Track(events: seq<Event>): Tracker
    requires Tracked(events)
  {
    TrackTo(events, |events|).value
  }

  /** No turn is open, or the open one has no unanswered call. */
  predicate AtStepBoundary(events: seq<Event>)
    requires Tracked(events)
  {
    Track(events).phase.Closed? || Track(events).phase.pending == {}
  }

  lemma {:induction false} TrackPrefix(events: seq<Event>, n: nat, m: nat)
    requires n <= m <= |events|
    ensures TrackTo(events, m).Some? ==> TrackTo(events, n).Some?
    decreases m - n
  {
    if n < m { TrackPrefix(events, n, m - 1); }
  }

  lemma {:induction false} TrackIgnoresSuffix(events: seq<Event>, more: seq<Event>, n: nat)
    requires n <= |events|
    ensures TrackTo(events + more, n) == TrackTo(events, n)
  {
    if n > 0 { TrackIgnoresSuffix(events, more, n - 1); }
  }

  lemma {:induction false} TrackAppend(events: seq<Event>, e: Event)
    ensures TrackTo(events + [e], |events| + 1) ==
            match TrackTo(events, |events|) case None => None case Some(tr) => Advance(tr, e, |events| + 1)
  {
    TrackIgnoresSuffix(events, [e], |events|);
  }

  function TrackerAt(events: seq<Event>, n: nat): Tracker
    requires n <= |events| && Tracked(events)
  {
    TrackPrefix(events, n, |events|);
    TrackTo(events, n).value
  }

  predicate OpenAt(events: seq<Event>, n: nat, t: TurnId)
    requires n <= |events| && Tracked(events)
  {
    TrackerAt(events, n).phase.Open? && TrackerAt(events, n).phase.turn == t
  }

  lemma {:induction false} StepAt(events: seq<Event>, n: nat)
    requires n < |events| && Tracked(events)
    ensures Advance(TrackerAt(events, n), events[n], n + 1) == Some(TrackerAt(events, n + 1))
  {
    TrackPrefix(events, n + 1, |events|);
  }

  /** A turn that has been requested and is not open never opens again. */
  lemma {:induction false} StaysClosed(events: seq<Event>, n: nat, m: nat, t: TurnId)
    requires n <= m <= |events| && Tracked(events)
    requires t in TrackerAt(events, n).turns && !OpenAt(events, n, t)
    ensures t in TrackerAt(events, m).turns && !OpenAt(events, m, t)
    decreases m - n
  {
    if n < m {
      StaysClosed(events, n, m - 1, t);
      StepAt(events, m - 1);
    }
  }

  lemma {:induction false} OpenIsRequested(events: seq<Event>, n: nat)
    requires n <= |events| && Tracked(events)
    ensures TrackerAt(events, n).phase.Open? ==> TrackerAt(events, n).phase.turn in TrackerAt(events, n).turns
  {
    if n > 0 {
      OpenIsRequested(events, n - 1);
      StepAt(events, n - 1);
    }
  }

  /** Every record of a turn but its request is written while the turn is open. */
  lemma {:induction false} OpenWhenWritten(events: seq<Event>, n: nat, t: TurnId)
    requires n < |events| && Tracked(events)
    requires events[n].Of(t)
    ensures !events[n].body.TurnRequested? ==> OpenAt(events, n, t)
    ensures events[n].body.TurnRequested? ==> TrackerAt(events, n).phase.Closed? && t !in TrackerAt(events, n).turns
    ensures t in TrackerAt(events, n + 1).turns
    ensures events[n].Terminal() ==> !OpenAt(events, n + 1, t)
  {
    StepAt(events, n);
    OpenIsRequested(events, n);
  }

  /** After its terminal record a turn writes nothing more. */
  lemma {:induction false} NothingAfterTerminal(events: seq<Event>, n: nat, m: nat, t: TurnId)
    requires n < m < |events| && Tracked(events)
    requires events[n].Of(t) && events[n].Terminal()
    ensures !events[m].Of(t)
  {
    OpenWhenWritten(events, n, t);
    StaysClosed(events, n + 1, m, t);
    if events[m].Of(t) { OpenWhenWritten(events, m, t); }
  }

  function TerminalCount(events: seq<Event>, n: nat, t: TurnId): nat
    requires n <= |events|
  {
    if n == 0 then 0
    else TerminalCount(events, n - 1, t) + if events[n - 1].Of(t) && events[n - 1].Terminal() then 1 else 0
  }

  /** A turn has no terminal record until it closes, and exactly one from then on. */
  lemma {:induction false} TerminalsOf(events: seq<Event>, n: nat, t: TurnId)
    requires n <= |events| && Tracked(events)
    ensures TerminalCount(events, n, t)
         == if t in TrackerAt(events, n).turns && !OpenAt(events, n, t) then 1 else 0
  {
    if n > 0 {
      TerminalsOf(events, n - 1, t);
      StepAt(events, n - 1);
      OpenIsRequested(events, n - 1);
    }
  }

  /** The turn a fresh runTurn would find unfinished (src/core/agent.ts:1094-1101). */
  method FindUnfinishedProviderTurn(events: seq<Event>) returns (active: Option<TurnId>)
    ensures active == Unfinished(events, |events|)
  {
    active := None;
    for n := 0 to |events|
      invariant active == Unfinished(events, n)
    {
      var event := events[n];
      if event.body.TurnRequested? && event.turn.Some? { active := event.turn; }
      if active.Some? && event.turn == active && event.Terminal() { active := None; }
    }
  }

  function Unfinished(events: seq<Event>, n: nat): Option<TurnId>
    requires n <= |events|
  {
    if n == 0 then None
    else
      var event := events[n - 1];
      var before := Unfinished(events, n - 1);
      var active := if event.body.TurnRequested? && event.turn.Some? then event.turn else before;
      if active.Some? && event.turn == active && event.Terminal() then None else active
  }

  /** On a tracked journal the scan finds exactly the open turn. */
  lemma {:induction false} UnfinishedIsOpenTurn(events: seq<Event>, n: nat)
    requires n <= |events| && Tracked(events)
    ensures Unfinished(events, n)
         == match TrackerAt(events, n).phase case Closed => None case Open(t, _) => Some(t)
  {
    if n > 0 {
      UnfinishedIsOpenTurn(events, n - 1);
      StepAt(events, n - 1);
    }
  }
}
