/** The loops of src/core/agent.ts:1276-1492, proved against the history they specify. */
module Materialize {
  import opened Messages
  import opened TurnJournal
  import opened TurnHistory
  import ImageBounds

  function Lookup<V>(m: map<TurnId, set<V>>, t: TurnId): set<V> {
    if t in m then m[t] else {}
  }

  /** One pass over the visible events, collecting what each turn did. */
  method ReadTurns(v: View)
    returns (reasons: map<TurnId, string>, assistantTurns: set<TurnId>, workedTurns: set<TurnId>,
             declared: map<TurnId, set<string>>, resolved: map<TurnId, set<string>>)
    requires v.Valid()
    ensures forall t ::
              LastReason(v.events, v.covered, |v.events|, t) == if t in reasons then Some(reasons[t]) else None
    ensures forall t :: t in assistantTurns <==> HasAssistant(v.events, v.covered, |v.events|, t)
    ensures forall t :: t in workedTurns <==> HasWorked(v.events, v.covered, |v.events|, t)
    ensures forall t :: Declared(v.events, v.covered, |v.events|, t) == Lookup(declared, t)
    ensures forall t :: Resolved(v.events, v.covered, |v.events|, t) == Lookup(resolved, t)
  {
    reasons, assistantTurns, workedTurns, declared, resolved := map[], {}, {}, map[], map[];
    for n := v.covered to |v.events|
      invariant forall t :: LastReason(v.events, v.covered, n, t) == if t in reasons then Some(reasons[t]) else None
      invariant forall t :: t in assistantTurns <==> HasAssistant(v.events, v.covered, n, t)
      invariant forall t :: t in workedTurns <==> HasWorked(v.events, v.covered, n, t)
      invariant forall t :: Declared(v.events, v.covered, n, t) == Lookup(declared, t)
      invariant forall t :: Resolved(v.events, v.covered, n, t) == Lookup(resolved, t)
    {
      var event := v.events[n];
      if event.turn.Some? {
        var t := event.turn.value;
        match event.body
        case TurnCancelled(reason) =>
          reasons := reasons[t := reason];
        case AssistantCompleted(text, calls) =>
          assistantTurns := assistantTurns + {t};
          if text != "" { workedTurns := workedTurns + {t}; }
          declared := declared[t := Lookup(declared, t) + CallIds(calls)];
        case ToolOutcome(id, _) =>
          workedTurns := workedTurns + {t};
          resolved := resolved[t := Lookup(resolved, t) + {id}];
        case _ =>
      }
    }
  }

  /** Cancelled turns with work to keep (src/core/agent.ts:1450-1492). */
  method CancelledTurnSalvage(v: View) returns (salvaged: map<TurnId, Salvage>)
    requires v.Valid()
    ensures forall t :: t in salvaged <==> FateOf(v, t).Salvaged?
    ensures forall t :: t in salvaged ==> salvaged[t] == FateOf(v, t).kept
  {
    var reasons, assistantTurns, workedTurns, declared, resolved := ReadTurns(v);
    salvaged := map t | t in reasons && t in assistantTurns && t in workedTurns ::
      Salvage(reasons[t], Lookup(resolved, t), |Lookup(declared, t) - Lookup(resolved, t)|);
    assert forall t :: t in reasons <==> LastReason(v.events, v.covered, |v.events|, t).Some?;
  }

  lemma {:induction false} DroppedExactly(v: View, t: TurnId)
    requires v.Valid()
    ensures FateOf(v, t).Dropped? <==> Stopped(v.events, |v.events|, t) && !FateOf(v, t).Salvaged?
  {
  }

  /** The turns stopped by one of the first `n` events, but for those with work to keep. */
  ghost predicate StoppedAre(events: seq<Event>, n: nat, salvaged: set<TurnId>, turns: set<TurnId>)
    requires n <= |events|
  {
    forall t :: t in turns <==> Stopped(events, n, t) && t !in salvaged
  }

  lemma {:induction false} StoppedNext(events: seq<Event>, n: nat, salvaged: set<TurnId>, turns: set<TurnId>,
        more: set<TurnId>)
    requires n < |events| && StoppedAre(events, n, salvaged, turns)
    requires var e := events[n];
             more == if (e.body.TurnCancelled? || e.body.TurnFailed?) && e.turn.Some? && e.turn.value !in salvaged
                     then {e.turn.value} else {}
    ensures StoppedAre(events, n + 1, salvaged, turns + more)
  {
    forall t ensures t in turns + more <==> Stopped(events, n + 1, t) && t !in salvaged {
      assert t in turns <==> Stopped(events, n, t) && t !in salvaged;
    }
  }

  lemma {:induction false} StoppedAreDropped(v: View, salvaged: set<TurnId>, turns: set<TurnId>, t: TurnId)
    requires v.Valid() && StoppedAre(v.events, |v.events|, salvaged, turns)
    requires t in salvaged <==> FateOf(v, t).Salvaged?
    ensures t in turns <==> FateOf(v, t).Dropped?
  {
    assert t in turns <==> Stopped(v.events, |v.events|, t) && t !in salvaged;
    DroppedExactly(v, t);
  }

  /** The loop over the events that stop turns. */
  method StoppedTurns(events: seq<Event>, salvaged: set<TurnId>) returns (turns: set<TurnId>)
    ensures StoppedAre(events, |events|, salvaged, turns)
  {
    turns := {};
    for n := 0 to |events|
      invariant StoppedAre(events, n, salvaged, turns)
    {
      var event := events[n];
      var more := {};
      if (event.body.TurnCancelled? || event.body.TurnFailed?) && event.turn.Some? && event.turn.value !in salvaged {
        more := {event.turn.value};
      }
      StoppedNext(events, n, salvaged, turns, more);
      turns := turns + more;
    }
  }

  /** Turns that failed, or were cancelled and not salvaged. */
  method NonActionableTurns(v: View, salvaged: map<TurnId, Salvage>) returns (turns: set<TurnId>)
    requires v.Valid()
    requires forall t :: t in salvaged <==> FateOf(v, t).Salvaged?
    ensures forall t :: t in turns <==> FateOf(v, t).Dropped?
  {
    turns := StoppedTurns(v.events, salvaged.Keys);
    forall t ensures t in turns <==> FateOf(v, t).Dropped? {
      assert t in salvaged <==> FateOf(v, t).Salvaged?;
      StoppedAreDropped(v, salvaged.Keys, turns, t);
    }
  }

  /** The sets the scans have built say what becomes of each turn. */
  ghost predicate Sorted(v: View, dropped: set<TurnId>, salvaged: map<TurnId, Salvage>)
    requires v.Valid()
  {
    forall t :: (t in dropped <==> FateOf(v, t).Dropped?) && (t in salvaged <==> FateOf(v, t).Salvaged?)
  }

  lemma {:induction false} LatestNext(v: View, n: nat, dropped: set<TurnId>, salvaged: map<TurnId, Salvage>)
    requires v.Valid() && v.covered < n <= |v.events| && Sorted(v, dropped, salvaged)
    ensures var e := v.events[n - 1];
            LatestRequest(v, n) ==
            if e.body.TurnRequested? && e.turn.Some? && e.turn.value !in dropped && e.turn.value !in salvaged
            then Some(n - 1) else LatestRequest(v, n - 1)
  {
    var e := v.events[n - 1];
    if e.turn.Some? { assert e.turn.value in dropped <==> FateOf(v, e.turn.value).Dropped?; }
  }

  method FindLatestRequest(v: View, dropped: set<TurnId>, salvaged: map<TurnId, Salvage>) returns (latest: Option<nat>)
    requires v.Valid() && Sorted(v, dropped, salvaged)
    ensures latest == LatestRequest(v, |v.events|)
  {
    var n := |v.events|;
    while n > v.covered
      invariant v.covered <= n <= |v.events|
      invariant LatestRequest(v, |v.events|) == LatestRequest(v, n)
    {
      var event := v.events[n - 1];
      LatestNext(v, n, dropped, salvaged);
      if event.body.TurnRequested? && event.turn.Some?
         && event.turn.value !in dropped && event.turn.value !in salvaged {
        return Some(n - 1);
      }
      n := n - 1;
    }
    latest := None;
  }

  // ---- Where the request of a turn stands, and what a selection does to it ----

  /** The newest usable request of turn `t` among the visible events before `n`. */
  function RequestOf(v: View, n: nat, t: TurnId): (r: Option<nat>)
    requires v.Valid() && v.covered <= n <= |v.events|
    ensures r.Some? ==> v.covered <= r.value < n
    ensures r.Some? ==> v.events[r.value].turn == Some(t) && v.Usable(v.events[r.value])
  {
    if n == v.covered then None
    else if v.events[n - 1].turn == Some(t) && v.Usable(v.events[n - 1]) then Some(n - 1)
    else RequestOf(v, n - 1, t)
  }

  lemma {:induction false} RequestOfIsNewest(v: View, n: nat, t: TurnId)
    requires v.Valid() && v.covered <= n <= |v.events|
    ensures forall k :: v.covered <= k < n && v.events[k].turn == Some(t) && v.Usable(v.events[k]) ==>
              RequestOf(v, n, t).Some? && k <= RequestOf(v, n, t).value
  {
    if n > v.covered { RequestOfIsNewest(v, n - 1, t); }
  }

  /** Reading one more event changes a message's text at most, never how many there are. */
  lemma {:induction false} LengthIgnoresSeen(v: View, upto: nat, seen: nat, more: nat)
    requires v.Valid() && v.covered <= upto <= seen <= |v.events|
    requires upto <= more <= |v.events|
    ensures |Rendered(v, upto, seen)| == |Rendered(v, upto, more)|
    decreases upto
  {
    if upto > v.covered { LengthIgnoresSeen(v, upto - 1, seen, more); }
  }

  /** Event `n` leaves the message of event `i` alone unless it patches it. */
  lemma {:induction false} RenderUnpatched(v: View, i: nat, n: nat)
    requires v.Valid() && v.covered <= i < n < |v.events|
    requires v.events[i].body.TurnRequested? ==> !Patches(v, i, n)
    ensures Render(v, i, n + 1) == Render(v, i, n)
  {
  }

  lemma {:induction false} RenderedUnpatched(v: View, upto: nat, n: nat)
    requires v.Valid() && v.covered <= upto <= n < |v.events|
    requires forall i :: v.covered <= i < upto && v.events[i].body.TurnRequested? ==> !Patches(v, i, n)
    ensures Rendered(v, upto, n + 1) == Rendered(v, upto, n)
    decreases upto
  {
    if upto > v.covered {
      RenderedUnpatched(v, upto - 1, n);
      RenderUnpatched(v, upto - 1, n);
    }
  }

  /** Event `n` patches the request at `i` and nothing else: one message changes in place. */
  lemma {:induction false} RenderedPatched(v: View, i: nat, upto: nat, n: nat)
    requires v.Valid() && v.covered <= i < upto <= n < |v.events|
    requires v.events[i].body.TurnRequested?
    requires Render(v, i, n) == [User(RequestText(v, i, n), v.events[i].body.images)]
    requires Render(v, i, n + 1) == [User(RequestText(v, i, n + 1), v.events[i].body.images)]
    requires forall k :: v.covered <= k < upto && k != i && v.events[k].body.TurnRequested? ==> !Patches(v, k, n)
    ensures |Rendered(v, i, n)| < |Rendered(v, upto, n)|
    ensures Rendered(v, upto, n)[|Rendered(v, i, n)|] == User(RequestText(v, i, n), v.events[i].body.images)
    ensures Rendered(v, upto, n + 1)
         == Rendered(v, upto, n)[|Rendered(v, i, n)| := User(RequestText(v, i, n + 1), v.events[i].body.images)]
    decreases upto
  {
    if upto == i + 1 {
      RenderedUnpatched(v, i, n);
    } else {
      var m, at, now := upto - 1, |Rendered(v, i, n)|, User(RequestText(v, i, n + 1), v.events[i].body.images);
      RenderedPatched(v, i, m, n);
      assert Render(v, m, n + 1) == Render(v, m, n) by { RenderUnpatched(v, m, n); }
      RenderedNext(v, m, n);
      RenderedNext(v, m, n + 1);
      UpdateBefore(Rendered(v, m, n), Render(v, m, n), at, now);
    }
  }

  lemma {:induction false} UpdateBefore(a: seq<Message>, b: seq<Message>, at: nat, now: Message)
    requires at < |a|
    ensures a[at := now] + b == (a + b)[at := now] && (a + b)[at] == a[at]
  {
  }

  /** Only the newest request of a turn is patched, and only for the latest request's turn. */
  lemma {:induction false} WhoIsPatched(v: View, n: nat, i: nat)
    requires v.Valid() && v.covered <= i < n < |v.events|
    requires v.events[i].body.TurnRequested? && Patches(v, i, n)
    ensures v.events[n].turn.Some? && RequestOf(v, n, v.events[n].turn.value) == Some(i)
    ensures FateOf(v, v.events[n].turn.value).Whole?
  {
    RequestOfIsNewest(v, n, v.events[n].turn.value);
    LatestIsWhole(v, |v.events|);
  }

  lemma {:induction false} LatestIsWhole(v: View, n: nat)
    requires v.Valid() && v.covered <= n <= |v.events|
    ensures LatestRequest(v, n).Some? ==>
              v.events[LatestRequest(v, n).value].turn.Some?
              && FateOf(v, v.events[LatestRequest(v, n).value].turn.value).Whole?
  {
    if n > v.covered { LatestIsWhole(v, n - 1); }
  }

  lemma {:induction false} RequestRenders(v: View, i: nat, t: TurnId, seen: nat)
    requires v.Valid() && v.covered <= i < seen <= |v.events|
    requires v.events[i].turn == Some(t) && v.Usable(v.events[i]) && FateOf(v, t).Whole?
    ensures Render(v, i, seen) == [User(RequestText(v, i, seen), v.events[i].body.images)]
  {
  }

  /** Messages before the one that event `i` renders to. */
  function Before(v: View, i: nat, seen: nat): nat
    requires v.Valid() && v.covered <= i <= seen <= |v.events|
  {
    |v.base| + |Rendered(v, i, seen)|
  }

  /** Where the loop remembers the request of each turn that may still be patched. */
  ghost predicate IndexesFit(v: View, n: nat, stopped: set<TurnId>, indexes: map<TurnId, nat>)
    requires v.Valid() && v.covered <= n <= |v.events|
  {
    && (forall t :: t in indexes <==> RequestOf(v, n, t).Some? && t !in stopped)
    && (forall t :: t in indexes ==> indexes[t] == Before(v, RequestOf(v, n, t).value, n))
  }

  lemma {:induction false} IndexesKeep(v: View, n: nat, stopped: set<TurnId>, indexes: map<TurnId, nat>)
    requires v.Valid() && v.covered <= n < |v.events| && IndexesFit(v, n, stopped, indexes)
    requires v.Usable(v.events[n]) && v.events[n].turn.Some? ==> v.events[n].turn.value in stopped
    ensures IndexesFit(v, n + 1, stopped, indexes)
  {
    forall t | t in indexes ensures indexes[t] == Before(v, RequestOf(v, n + 1, t).value, n + 1) {
      LengthIgnoresSeen(v, RequestOf(v, n, t).value, n, n + 1);
    }
  }

  lemma {:induction false} IndexesAdd(v: View, n: nat, stopped: set<TurnId>, indexes: map<TurnId, nat>, t: TurnId)
    requires v.Valid() && v.covered <= n < |v.events| && IndexesFit(v, n, stopped, indexes)
    requires v.Usable(v.events[n]) && v.events[n].turn == Some(t) && t !in stopped
    ensures IndexesFit(v, n + 1, stopped, indexes[t := Before(v, n, n)])
  {
    var next := indexes[t := Before(v, n, n)];
    LengthIgnoresSeen(v, n, n, n + 1);
    forall u | u in next ensures next[u] == Before(v, RequestOf(v, n + 1, u).value, n + 1) {
      if u != t { LengthIgnoresSeen(v, RequestOf(v, n, u).value, n, n + 1); }
    }
  }

  /** The latest request's turn may still take the selection at `n` in. */
  predicate TakesSelection(v: View, t: TurnId, n: nat)
    requires v.Valid() && n < |v.events|
  {
    && v.readable(v.events[n].body) && v.allowSelected && v.injectLatest
    && match LatestRequest(v, |v.events|) case Some(k) => v.events[k].turn == Some(t) case None => false
  }

  lemma {:induction false} AfterSelectionElsewhere(v: View, n: nat, t: TurnId)
    requires v.Valid() && v.covered <= n < |v.events|
    requires v.events[n].body.ContextSelected? && v.events[n].turn == Some(t)
    requires !TakesSelection(v, t, n) || RequestOf(v, n, t).None?
    ensures Rendered(v, n + 1, n + 1) == Rendered(v, n, n)
  {
    RequestOfIsNewest(v, n, t);
    RenderedUnpatched(v, n, n);
  }

  lemma {:induction false} AfterSelection(v: View, n: nat, t: TurnId, i: nat)
    requires v.Valid() && v.covered <= i < n < |v.events|
    requires v.events[n].body.ContextSelected? && v.events[n].turn == Some(t)
    requires TakesSelection(v, t, n) && RequestOf(v, n, t) == Some(i) && FateOf(v, t).Whole?
    ensures |Rendered(v, i, n)| < |Rendered(v, n, n)|
    ensures Rendered(v, n, n)[|Rendered(v, i, n)|] == User(RequestText(v, i, n), v.events[i].body.images)
    ensures Rendered(v, n + 1, n + 1)
         == Rendered(v, n, n)[|Rendered(v, i, n)| := User(
              if SlashLocal(RequestText(v, i, n)) then RequestText(v, i, n)
              else v.wording.inject(RequestText(v, i, n), v.events[n].body.selection),
              v.events[i].body.images)]
  {
    RequestOfIsNewest(v, n, t);
    assert Patches(v, i, n);
    forall k | v.covered <= k < n && k != i && v.events[k].body.TurnRequested? ensures !Patches(v, k, n) {
      if Patches(v, k, n) { WhoIsPatched(v, n, k); }
    }
    RequestRenders(v, i, t, n);
    RequestRenders(v, i, t, n + 1);
    RenderedPatched(v, i, n, n);
  }

  lemma {:induction false} SelectionSoFar(v: View, n: nat, t: TurnId, i: nat, at: nat, before: seq<Message>)
    requires v.Valid() && v.covered <= i < n < |v.events|
    requires v.events[n].body.ContextSelected? && v.events[n].turn == Some(t)
    requires TakesSelection(v, t, n) && RequestOf(v, n, t) == Some(i) && FateOf(v, t).Whole?
    requires SoFar(v, n, before) && at == Before(v, i, n)
    ensures at < |before| && before[at].User?
    ensures SoFar(v, n + 1,
              if SlashLocal(before[at].content) then before
              else before[at := User(v.wording.inject(before[at].content, v.events[n].body.selection),
                  before[at].images)])
  {
    AfterSelection(v, n, t, i);
    var was, k := Rendered(v, n, n), at - |v.base|;
    assert before[at] == was[k];
    var m := User(v.wording.inject(before[at].content, v.events[n].body.selection), before[at].images);
    assert before[at := m] == v.base + was[k := m];
    assert before[at := before[at]] == before;
  }

  lemma {:induction false} AfterOther(v: View, n: nat)
    requires v.Valid() && v.covered <= n < |v.events| && !v.events[n].body.ContextSelected?
    ensures Rendered(v, n + 1, n + 1) == Rendered(v, n, n) + Render(v, n, n + 1)
  {
    RenderedUnpatched(v, n, n);
  }

  /** `messages` is the conversation so far, given the events before `n`. */
  ghost predicate SoFar(v: View, n: nat, messages: seq<Message>)
    requires v.Valid() && v.covered <= n <= |v.events|
  {
    messages == v.base + Rendered(v, n, n)
  }

  lemma {:induction false} Pushed(v: View, n: nat, messages: seq<Message>)
    requires v.Valid() && v.covered <= n < |v.events| && !v.events[n].body.ContextSelected?
    requires SoFar(v, n, messages)
    ensures SoFar(v, n + 1, messages + Render(v, n, n + 1))
  {
    AfterOther(v, n);
    Associates(v.base, Rendered(v, n, n), Render(v, n, n + 1));
  }

  lemma {:induction false} Associates(a: seq<Message>, b: seq<Message>, c: seq<Message>)
    ensures a + b + c == a + (b + c)
  {
  }

  /** What an event of a turn with that fate pushes (all but selections, which patch instead). */
  method PushAs(v: View, n: nat, fate: Fate, latest: Option<nat>) returns (pushed: seq<Message>)
    requires v.Valid() && v.covered <= n < |v.events|
    requires latest == LatestRequest(v, |v.events|)
    ensures pushed == RenderAs(v, n, n + 1, fate)
  {
    pushed := [];
    if fate.Dropped? { return; }
    var event := v.events[n];
    match event.body
    case TurnRequested(content, images, environment) =>
      if fate.Salvaged? {
        pushed := [User(v.wording.checkpoint(fate.kept.reason, fate.kept.unresolvedCalls), [])];
      } else if v.readable(event.body) {
        var live := v.injectLatest && !SlashLocal(content) && latest == Some(n);
        pushed := [User(if live then v.wording.live(content, environment) else content, images)];
      }
    case PlanRestated(note) =>
      if note.Some? { pushed := [User(note.value, [])]; }
    case AssistantCompleted(text, calls) =>
      if fate.Salvaged? {
        var toolCalls := KeptCalls(calls, fate.kept.resolved);
        if text != "" || toolCalls != [] { pushed := [Assistant(text, toolCalls)]; }
      } else {
        pushed := [Assistant(text, calls)];
      }
    case ToolOutcome(id, result) =>
      pushed := [Tool(id, result)];
    case _ =>
  }

  method PushEvent(v: View, n: nat, dropped: set<TurnId>, salvaged: map<TurnId, Salvage>, latest: Option<nat>)
    returns (pushed: seq<Message>)
    requires v.Valid() && v.covered <= n < |v.events| && Sorted(v, dropped, salvaged)
    requires forall t :: t in salvaged ==> salvaged[t] == FateOf(v, t).kept
    requires latest == LatestRequest(v, |v.events|)
    ensures pushed == Render(v, n, n + 1)
  {
    var turn := v.events[n].turn;
    var fate := Whole;
    if turn.Some? {
      var t := turn.value;
      fate := if t in dropped then Dropped else if t in salvaged then Salvaged(salvaged[t]) else Whole;
      assert fate == FateOf(v, t) by {
        assert t in dropped <==> FateOf(v, t).Dropped?;
        assert t in salvaged <==> FateOf(v, t).Salvaged?;
      }
    }
    pushed := PushAs(v, n, fate, latest);
  }

  method MaterializeMessages(v: View) returns (bounded: array<Message>)
    requires v.Valid()
    ensures fresh(bounded) && bounded[..] == Materialized(v)
  {
    var salvaged := CancelledTurnSalvage(v);
    var dropped := NonActionableTurns(v, salvaged);
    var latest := FindLatestRequest(v, dropped, salvaged);
    var messages := v.base;
    var indexes: map<TurnId, nat> := map[];
    ghost var stopped := dropped + salvaged.Keys;
    assert v.base + [] == v.base;
    for n := v.covered to |v.events|
      invariant SoFar(v, n, messages)
      invariant IndexesFit(v, n, stopped, indexes)
    {
      var event := v.events[n];
      if event.body.ContextSelected? {
        messages := PatchSelection(v, n, latest, messages, indexes, stopped);
        IndexesKeep(v, n, stopped, indexes);
      } else {
        var pushed := PushEvent(v, n, dropped, salvaged, latest);
        Pushed(v, n, messages);
        if v.Usable(event) && event.turn.Some?
           && event.turn.value !in dropped && event.turn.value !in salvaged {
          IndexesAdd(v, n, stopped, indexes, event.turn.value);
          indexes := indexes[event.turn.value := |messages|];
        } else {
          IndexesKeep(v, n, stopped, indexes);
        }
        messages := messages + pushed;
      }
    }
    bounded := ImageBounds.BoundInferenceHistoryImages(messages);
  }

  method PatchSelection(v: View, n: nat, latest: Option<nat>, before: seq<Message>,
                        indexes: map<TurnId, nat>, ghost stopped: set<TurnId>)
    returns (messages: seq<Message>)
    requires v.Valid() && v.covered <= n < |v.events| && v.events[n].body.ContextSelected?
    requires latest == LatestRequest(v, |v.events|)
    requires SoFar(v, n, before) && IndexesFit(v, n, stopped, indexes)
    requires forall t :: t in stopped <==> !FateOf(v, t).Whole?
    ensures SoFar(v, n + 1, messages)
  {
    var event := v.events[n];
    messages := before;
    if event.turn.None? {
      RenderedUnpatched(v, n, n);
      return;
    }
    var t := event.turn.value;
    if v.allowSelected && t in indexes {
      if v.injectLatest && v.readable(event.body) && latest.Some? && v.events[latest.value].turn == event.turn {
        SelectionSoFar(v, n, t, RequestOf(v, n, t).value, indexes[t], messages);
        var message := messages[indexes[t]];
        if message.User? && !SlashLocal(message.content) {
          messages := messages[indexes[t] := User(v.wording.inject(message.content, event.body.selection),
              message.images)];
        }
        return;
      }
    }
    if TakesSelection(v, t, n) && RequestOf(v, n, t).Some? { LatestIsWhole(v, |v.events|); }
    AfterSelectionElsewhere(v, n, t);
  }
}
