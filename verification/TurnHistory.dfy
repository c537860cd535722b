/** Turning a journal into provider conversation history (src/core/agent.ts:1276-1492). */
module TurnHistory {
  import opened Messages
  import opened TurnJournal
  import ImageBounds

  /** Prompt wording: opaque text functions this model says nothing about. */
  datatype Wording = Wording(
    checkpoint: (string, nat) -> string,
    live: (string, string) -> string,
    inject: (string, string) -> string)

  /**
   * What materialization reads: the journal, how much of it the summary covers, the
   * messages that stand in for that part, the two injection switches, and which
   * payloads of requests and selections can be read at all.
   */
  datatype View = View(
    events: seq<Event>,
    covered: nat,
    base: seq<Message>,
    injectLatest: bool,
    allowSelected: bool,
    readable: Body -> bool,
    wording: Wording)
  {
    predicate Valid() {
      covered <= |events|
    }

    /** A request that becomes a message: its images, environment and selection can be read. */
    predicate Usable(e: Event) {
      e.body.TurnRequested? && readable(e.body)
    }
  }

  datatype Salvage = Salvage(reason: string, resolved: set<string>, unresolvedCalls: nat)

  // ---- What the visible events say about one turn, in events[from..n] ----

  function LastReason(events: seq<Event>, from: nat, n: nat, t: TurnId): Option<string>
    requires from <= n <= |events|
  {
    if n == from then None
    else if events[n - 1].turn == Some(t) && events[n - 1].body.TurnCancelled?
    then Some(events[n - 1].body.reason)
    else LastReason(events, from, n - 1, t)
  }

  function Resolved(events: seq<Event>, from: nat, n: nat, t: TurnId): set<string>
    requires from <= n <= |events|
  {
    if n == from then {}
    else
      var own := if events[n - 1].turn == Some(t) && events[n - 1].body.ToolOutcome?
                 then {events[n - 1].body.callId} else {};
      Resolved(events, from, n - 1, t) + own
  }

  function Declared(events: seq<Event>, from: nat, n: nat, t: TurnId): set<string>
    requires from <= n <= |events|
  {
    if n == from then {}
    else
      var own := if events[n - 1].turn == Some(t) && events[n - 1].body.AssistantCompleted?
                 then CallIds(events[n - 1].body.calls) else {};
      Declared(events, from, n - 1, t) + own
  }

  predicate HasAssistant(events: seq<Event>, from: nat, n: nat, t: TurnId)
    requires from <= n <= |events|
  {
    n > from && ((events[n - 1].turn == Some(t) && events[n - 1].body.AssistantCompleted?)
                 || HasAssistant(events, from, n - 1, t))
  }

  predicate HasWorked(events: seq<Event>, from: nat, n: nat, t: TurnId)
    requires from <= n <= |events|
  {
    n > from && ((events[n - 1].turn == Some(t)
                    && ((events[n - 1].body.AssistantCompleted? && events[n - 1].body.text != "")
                        || events[n - 1].body.ToolOutcome?))
                 || HasWorked(events, from, n - 1, t))
  }

  predicate Stopped(events: seq<Event>, n: nat, t: TurnId)
    requires n <= |events|
  {
    n > 0 && ((events[n - 1].turn == Some(t) && (events[n - 1].body.TurnCancelled? || events[n - 1].body.TurnFailed?))
              || Stopped(events, n - 1, t))
  }

  /** What becomes of a turn in later history. */
  datatype Fate =
    | Whole              // not stopped: everything it wrote is conversation
    | Dropped            // failed, or cancelled with nothing to salvage
    | Salvaged(kept: Salvage)

  /** Which cancelled turns keep their finished work, and what of it. */
  function SalvageOf(v: View, t: TurnId): Option<Salvage>
    requires v.Valid()
  {
    var n := |v.events|;
    match LastReason(v.events, v.covered, n, t)
    case Some(reason) =>
      if HasAssistant(v.events, v.covered, n, t) && HasWorked(v.events, v.covered, n, t) then
        var resolved := Resolved(v.events, v.covered, n, t);
        Some(Salvage(reason, resolved, |Declared(v.events, v.covered, n, t) - resolved|))
      else None
    case None => None
  }

  function FateOf(v: View, t: TurnId): Fate
    requires v.Valid()
  {
    match SalvageOf(v, t)
    case Some(kept) => Salvaged(kept)
    case None => if Stopped(v.events, |v.events|, t) then Dropped else Whole
  }

  /** The newest visible request that may still be acted on. */
  function LatestRequest(v: View, n: nat): (r: Option<nat>)
    requires v.Valid() && v.covered <= n <= |v.events|
    ensures r.Some? ==> v.covered <= r.value < n && v.events[r.value].body.TurnRequested?
  {
    if n == v.covered then None
    else
      var e := v.events[n - 1];
      if e.body.TurnRequested? && e.turn.Some? && FateOf(v, e.turn.value).Whole? then Some(n - 1)
      else LatestRequest(v, n - 1)
  }

  /** White space and line terminators, as trimStart takes them. */
  predicate IsBlank(c: char) {
    var u := c as int;
    || 9 <= u <= 13 || u == 32 || u == 0xA0 || u == 0x1680 || 0x2000 <= u <= 0x200A
    || u == 0x2028 || u == 0x2029 || u == 0x202F || u == 0x205F || u == 0x3000 || u == 0xFEFF
  }

  function TrimStart(s: string): string {
    if s != "" && IsBlank(s[0]) then TrimStart(s[1..]) else s
  }

  /** A slash-shaped prompt is transport-local and arrives verbatim. */
  predicate SlashLocal(content: string) {
    var text := TrimStart(content);
    text != "" && text[0] == '/'
  }

  // ---- What one event contributes ----

  /** Whether event `j` patches the request at `i`: a selection for the latest request's turn. */
  predicate Patches(v: View, i: nat, j: nat)
    requires v.Valid() && v.covered <= i < j < |v.events|
  {
    var e := v.events[j];
    && e.body.ContextSelected? && v.readable(e.body) && e.turn.Some? && e.turn == v.events[i].turn
    && v.Usable(v.events[i]) && v.allowSelected && v.injectLatest
    && (match LatestRequest(v, |v.events|) case Some(k) => v.events[k].turn == e.turn case None => false)
    && (forall k :: i < k < j ==> !(v.Usable(v.events[k]) && v.events[k].turn == e.turn))
  }

  /** Text of the request at `i` once the events before `seen` have been read. */
  function RequestText(v: View, i: nat, seen: nat): string
    requires v.Valid() && v.covered <= i < seen <= |v.events|
    requires v.events[i].body.TurnRequested?
    decreases seen
  {
    if seen == i + 1 then
      var body := v.events[i].body;
      if v.injectLatest && !SlashLocal(body.content) && LatestRequest(v, |v.events|) == Some(i)
      then v.wording.live(body.content, body.environment)
      else body.content
    else
      var before := RequestText(v, i, seen - 1);
      if Patches(v, i, seen - 1) && !SlashLocal(before)
      then v.wording.inject(before, v.events[seen - 1].body.selection)
      else before
  }

  function KeptCalls(calls: seq<Call>, resolved: set<string>): (r: seq<Call>)
    ensures CallIds(r) == CallIds(calls) * resolved
    ensures forall c :: c in r ==> c in calls
  {
    if calls == [] then []
    else
      var rest := KeptCalls(calls[1..], resolved);
      assert CallIds(calls) == {calls[0].id} + CallIds(calls[1..]);
      if calls[0].id in resolved then
        assert CallIds([calls[0]] + rest) == {calls[0].id} + CallIds(rest);
        [calls[0]] + rest
      else rest
  }

  /** The messages of event `i` of a turn with that fate, once `seen` events are read. */
  function RenderAs(v: View, i: nat, seen: nat, fate: Fate): seq<Message>
    requires v.Valid() && v.covered <= i < seen <= |v.events|
  {
    if fate.Dropped? then []
    else match v.events[i].body
      case TurnRequested(_, images, _) =>
        if fate.Salvaged? then [User(v.wording.checkpoint(fate.kept.reason, fate.kept.unresolvedCalls), [])]
        else if v.Usable(v.events[i]) then [User(RequestText(v, i, seen), images)] else []
      case PlanRestated(Some(note)) => [User(note, [])]
      case AssistantCompleted(text, calls) =>
        if fate.Whole? then [Assistant(text, calls)]
        else
          var kept := KeptCalls(calls, fate.kept.resolved);
          if text != "" || kept != [] then [Assistant(text, kept)] else []
      case ToolOutcome(id, result) => [Tool(id, result)]
      case _ => []
  }

  function Render(v: View, i: nat, seen: nat): seq<Message>
    requires v.Valid() && v.covered <= i < seen <= |v.events|
  {
    RenderAs(v, i, seen, if v.events[i].turn.Some? then FateOf(v, v.events[i].turn.value) else Whole)
  }

  /** The messages of events[covered..upto], as they stand once `seen` events are read. */
  function Rendered(v: View, upto: nat, seen: nat): seq<Message>
    requires v.Valid() && v.covered <= upto <= seen <= |v.events|
    decreases upto
  {
    if upto == v.covered then [] else Rendered(v, upto - 1, seen) + Render(v, upto - 1, seen)
  }

  /** The conversation before its images are bounded. */
  function Conversation(v: View): seq<Message>
    requires v.Valid()
  {
    v.base + Rendered(v, |v.events|, |v.events|)
  }

  function Materialized(v: View): seq<Message>
    requires v.Valid()
  {
    ImageBounds.Bounded(Conversation(v), ImageBounds.MAX_INFERENCE_HISTORY_IMAGES)
  }

  // ---- Pairing ----

  lemma {:induction false} ResolvedWitness(events: seq<Event>, from: nat, n: nat, t: TurnId, id: string)
      returns (m: nat)
    requires from <= n <= |events|
    requires id in Resolved(events, from, n, t)
    ensures from <= m < n && events[m].Of(t) && events[m].body.ToolOutcome? && events[m].body.callId == id
  {
    m := n - 1;
    if !(events[m].turn == Some(t) && events[m].body.ToolOutcome? && events[m].body.callId == id) {
      m := ResolvedWitness(events, from, n - 1, t, id);
    }
  }

  lemma {:induction false} ResolvedHas(events: seq<Event>, from: nat, n: nat, m: nat, t: TurnId)
    requires from <= m < n <= |events|
    requires events[m].turn == Some(t) && events[m].body.ToolOutcome?
    ensures events[m].body.callId in Resolved(events, from, n, t)
    decreases n
  {
    if m < n - 1 { ResolvedHas(events, from, n - 1, m, t); }
  }

  lemma {:induction false} ReasonWitness(events: seq<Event>, from: nat, n: nat, t: TurnId) returns (m: nat)
    requires from <= n <= |events|
    requires LastReason(events, from, n, t).Some?
    ensures from <= m < n && events[m].Of(t) && events[m].body.TurnCancelled?
  {
    m := n - 1;
    if !(events[m].turn == Some(t) && events[m].body.TurnCancelled?) {
      m := ReasonWitness(events, from, n - 1, t);
    }
  }

  lemma {:induction false} StoppedHas(events: seq<Event>, n: nat, m: nat, t: TurnId)
    requires m < n <= |events|
    requires events[m].turn == Some(t) && (events[m].body.TurnCancelled? || events[m].body.TurnFailed?)
    ensures Stopped(events, n, t)
  {
    if m < n - 1 { StoppedHas(events, n - 1, m, t); }
  }

  lemma {:induction false} PendingIsDeclared(events: seq<Event>, n: nat)
    requires n <= |events| && Tracked(events)
    ensures TrackerAt(events, n).phase.Open? ==> TrackerAt(events, n).phase.pending <= TrackerAt(events, n).calls
  {
    if n > 0 {
      PendingIsDeclared(events, n - 1);
      StepAt(events, n - 1);
    }
  }

  /** An answered call is never pending again. */
  lemma {:induction false} AnsweredIsNotPending(events: seq<Event>, m: nat, n: nat)
    requires m < n <= |events| && Tracked(events)
    requires events[m].turn.Some? && events[m].body.ToolOutcome?
    ensures events[m].body.callId in TrackerAt(events, n).calls
    ensures TrackerAt(events, n).phase.Open? ==> events[m].body.callId !in TrackerAt(events, n).phase.pending
    decreases n
  {
    StepAt(events, n - 1);
    if m < n - 1 {
      AnsweredIsNotPending(events, m, n - 1);
    } else {
      PendingIsDeclared(events, m);
    }
  }

  /** A failed turn has nothing to salvage. */
  lemma {:induction false} FailedIsDropped(v: View, m: nat, t: TurnId)
    requires v.Valid() && Tracked(v.events)
    requires m < |v.events| && v.events[m].Of(t) && v.events[m].body.TurnFailed?
    ensures FateOf(v, t).Dropped?
  {
    StoppedHas(v.events, |v.events|, m, t);
    if LastReason(v.events, v.covered, |v.events|, t).Some? {
      var k := ReasonWitness(v.events, v.covered, |v.events|, t);
      if k < m { NothingAfterTerminal(v.events, k, m, t); } else { NothingAfterTerminal(v.events, m, k, t); }
    }
  }

  /** When a turn is cancelled, none of its still pending calls ever gets an outcome. */
  lemma {:induction false} CancelledLeavesNothingOpen(v: View, m: nat, t: TurnId)
    requires v.Valid() && Tracked(v.events)
    requires v.covered <= m < |v.events| && v.events[m].Of(t) && v.events[m].body.TurnCancelled?
    requires OpenAt(v.events, m, t)
    ensures !FateOf(v, t).Whole?
    ensures FateOf(v, t).Salvaged? ==> TrackerAt(v.events, m).phase.pending !! FateOf(v, t).kept.resolved
  {
    var resolved := Resolved(v.events, v.covered, |v.events|, t);
    StoppedHas(v.events, |v.events|, m, t);
    forall id | id in resolved ensures id !in TrackerAt(v.events, m).phase.pending {
      var k := ResolvedWitness(v.events, v.covered, |v.events|, t, id);
      if k < m { AnsweredIsNotPending(v.events, k, m); } else { NothingAfterTerminal(v.events, m, k, t); }
    }
  }

  /** Which of a turn's pending calls its rendered messages leave open. */
  function OpenAs(pending: set<string>, fate: Fate): (r: set<string>)
    ensures pending == {} ==> r == {}
  {
    match fate
    case Whole => pending
    case Dropped => {}
    case Salvaged(kept) => pending * kept.resolved
  }

  function OpenIn(phase: Phase, fate: Fate): set<string> {
    if phase.Closed? then {} else OpenAs(phase.pending, fate)
  }

  /** Which rendered calls are still unanswered after the first `n` events. */
  function StillOpen(v: View, n: nat): set<string>
    requires v.Valid() && n <= |v.events| && Tracked(v.events)
  {
    var phase := TrackerAt(v.events, n).phase;
    if phase.Closed? then {} else OpenIn(phase, FateOf(v, phase.turn))
  }

  lemma {:induction false} KeptStayDistinct(calls: seq<Call>, resolved: set<string>)
    requires DistinctIds(calls)
    ensures DistinctIds(KeptCalls(calls, resolved))
  {
    if calls != [] {
      KeptStayDistinct(calls[1..], resolved);
      var rest := KeptCalls(calls[1..], resolved);
      forall c | c in rest ensures c.id != calls[0].id {
        var k :| 0 <= k < |calls[1..]| && calls[1..][k] == c;
        assert calls[k + 1] == c;
      }
    }
  }

  /**
   * One event of a turn with a given fate: its messages take the scan from what the
   * phase before left open to what the phase after leaves open.
   */
  lemma {:induction false} RenderFits(v: View, i: nat, fate: Fate, before: Tracker, after: Tracker, t: TurnId)
    requires v.Valid() && v.covered <= i < |v.events|
    requires v.events[i].Of(t) && Advance(before, v.events[i], i + 1) == Some(after)
    requires v.events[i].body.TurnFailed? ==> fate.Dropped?
    requires v.events[i].body.TurnCancelled? ==>
               !fate.Whole? && (fate.Salvaged? ==> before.phase.pending !! fate.kept.resolved)
    requires v.events[i].body.ToolOutcome? && fate.Salvaged? ==> v.events[i].body.callId in fate.kept.resolved
    ensures Unanswered(RenderAs(v, i, |v.events|, fate), OpenIn(before.phase, fate))
         == Some(OpenIn(after.phase, fate))
  {
    match v.events[i].body
    case AssistantCompleted(_, calls) =>
      if fate.Salvaged? {
        var kept := KeptCalls(calls, fate.kept.resolved);
        KeptStayDistinct(calls, fate.kept.resolved);
        assert CallIds(kept) == CallIds(calls) * fate.kept.resolved;
        assert kept == [] ==> CallIds(kept) == {};
      }
    case ToolOutcome(id, _) =>
      if fate.Salvaged? {
        assert (before.phase.pending - {id}) * fate.kept.resolved
            == before.phase.pending * fate.kept.resolved - {id};
      }
    case TurnCancelled(_) =>
      assert fate.Salvaged? ==> before.phase.pending * fate.kept.resolved == {};
    case _ =>
  }

  /** What a terminal record or an outcome in the visible journal says about its turn's fate. */
  lemma {:induction false} FateFits(v: View, i: nat, t: TurnId)
    requires v.Valid() && v.covered <= i < |v.events| && Tracked(v.events) && v.events[i].Of(t)
    ensures v.events[i].body.TurnFailed? ==> FateOf(v, t).Dropped?
    ensures v.events[i].body.TurnCancelled? ==> !FateOf(v, t).Whole? && OpenAt(v.events, i, t)
    ensures v.events[i].body.TurnCancelled? && FateOf(v, t).Salvaged? ==>
              TrackerAt(v.events, i).phase.pending !! FateOf(v, t).kept.resolved
    ensures v.events[i].body.ToolOutcome? && FateOf(v, t).Salvaged? ==>
              v.events[i].body.callId in FateOf(v, t).kept.resolved
  {
    OpenWhenWritten(v.events, i, t);
    if v.events[i].body.TurnFailed? { FailedIsDropped(v, i, t); }
    if v.events[i].body.TurnCancelled? { CancelledLeavesNothingOpen(v, i, t); }
    if v.events[i].body.ToolOutcome? { ResolvedHas(v.events, v.covered, |v.events|, i, t); }
  }

  /** Around an event of a turn no other turn is open. */
  lemma {:induction false} OpenOnlyBy(events: seq<Event>, i: nat, t: TurnId)
    requires i < |events| && Tracked(events) && events[i].Of(t)
    ensures TrackerAt(events, i).phase.Open? ==> TrackerAt(events, i).phase.turn == t
    ensures TrackerAt(events, i + 1).phase.Open? ==> TrackerAt(events, i + 1).phase.turn == t
  {
    StepAt(events, i);
    OpenWhenWritten(events, i, t);
  }

  /** The fate that matters for what is open is that of the turn that is open. */
  lemma {:induction false} PhaseOf(v: View, n: nat, t: TurnId)
    requires v.Valid() && n <= |v.events| && Tracked(v.events)
    requires TrackerAt(v.events, n).phase.Open? ==> TrackerAt(v.events, n).phase.turn == t
    ensures StillOpen(v, n) == OpenIn(TrackerAt(v.events, n).phase, FateOf(v, t))
  {
  }

  lemma {:induction false} RenderStep(v: View, i: nat)
    requires v.Valid() && v.covered <= i < |v.events| && Tracked(v.events)
    ensures Unanswered(Render(v, i, |v.events|), StillOpen(v, i)) == Some(StillOpen(v, i + 1))
  {
    var e := v.events[i];
    StepAt(v.events, i);
    if e.turn.Some? && !e.body.SessionRecord? {
      FateFits(v, i, e.turn.value);
      OpenOnlyBy(v.events, i, e.turn.value);
      PhaseOf(v, i, e.turn.value);
      PhaseOf(v, i + 1, e.turn.value);
      RenderFits(v, i, FateOf(v, e.turn.value), TrackerAt(v.events, i), TrackerAt(v.events, i + 1), e.turn.value);
    }
  }

  lemma {:induction false} Glue(a: seq<Message>, b: seq<Message>, c: seq<Message>, open: set<string>, next: set<string>)
    requires Unanswered(a + b, {}) == Some(open)
    requires Unanswered(c, open) == Some(next)
    ensures Unanswered(a + (b + c), {}) == Some(next)
  {
    UnansweredConcat(a + b, c, {});
    assert a + (b + c) == (a + b) + c;
  }

  /** The messages of event `i` take the scan from `open` to `next`. */
  predicate Takes(v: View, i: nat, open: set<string>, next: set<string>)
    requires v.Valid() && v.covered <= i < |v.events|
  {
    Unanswered(Render(v, i, |v.events|), open) == Some(next)
  }

  /** The scan of the messages up to event `n` has come to `open`. */
  predicate ScannedTo(v: View, n: nat, open: set<string>)
    requires v.Valid() && v.covered <= n <= |v.events|
  {
    Unanswered(v.base + Rendered(v, n, |v.events|), {}) == Some(open)
  }

  lemma {:induction false} ScanNone(v: View)
    requires v.Valid() && Paired(v.base)
    ensures ScannedTo(v, v.covered, {})
  {
    assert v.base + [] == v.base;
  }

  lemma {:induction false} ScanOne(v: View, m: nat, open: set<string>, next: set<string>)
    requires v.Valid() && v.covered <= m < |v.events| && ScannedTo(v, m, open) && Takes(v, m, open, next)
    ensures ScannedTo(v, m + 1, next)
  {
    var s := |v.events|;
    RenderedNext(v, m, s);
    Glue(v.base, Rendered(v, m, s), Render(v, m, s), open, next);
  }

  /** Chains the steps: `open[i]` is what is open before event `i` is rendered. */
  lemma {:induction false} ScanTo(v: View, n: nat, open: seq<set<string>>)
    requires v.Valid() && v.covered <= n <= |v.events| < |open| && Paired(v.base) && open[v.covered] == {}
    requires forall i :: v.covered <= i < n ==> Takes(v, i, open[i], open[i + 1])
    ensures ScannedTo(v, n, open[n])
  {
    if n == v.covered {
      ScanNone(v);
    } else {
      ScanTo(v, n - 1, open);
      ScanOne(v, n - 1, open[n - 1], open[n]);
    }
  }

  /** What is open before each of the first events, and after them. */
  function OpenBefore(v: View, n: nat): (r: seq<set<string>>)
    requires v.Valid() && n <= |v.events| && Tracked(v.events)
    ensures |r| == n + 1
  {
    (if n == 0 then [] else OpenBefore(v, n - 1)) + [StillOpen(v, n)]
  }

  lemma {:induction false} OpenBeforeAt(v: View, n: nat, i: nat)
    requires v.Valid() && i <= n <= |v.events| && Tracked(v.events)
    ensures OpenBefore(v, n)[i] == StillOpen(v, i)
  {
    if i < n { OpenBeforeAt(v, n - 1, i); }
  }

  lemma {:induction false} TakesNext(v: View, i: nat)
    requires v.Valid() && v.covered <= i < |v.events| && Tracked(v.events)
    ensures Takes(v, i, OpenBefore(v, |v.events|)[i], OpenBefore(v, |v.events|)[i + 1])
  {
    RenderStep(v, i);
    OpenBeforeAt(v, |v.events|, i);
    OpenBeforeAt(v, |v.events|, i + 1);
  }

  /** What the newest summary record covers. */
  function LatestCovered(events: seq<Event>, n: nat): nat
    requires n <= |events|
  {
    if n == 0 then 0
    else if events[n - 1].body.SummaryUpdated? then events[n - 1].body.covers
    else LatestCovered(events, n - 1)
  }

  /** A summary always ends where a completed turn ended, so no turn is cut in two. */
  lemma {:induction false} CutsBetweenTurns(events: seq<Event>, n: nat)
    requires n <= |events| && Tracked(events)
    ensures LatestCovered(events, n) == TrackerAt(events, n).covered <= n
    ensures TrackerAt(events, n).covered in TrackerAt(events, n).completed + {0}
    ensures forall c :: c in TrackerAt(events, n).completed + {0} ==> c <= n && TrackerAt(events, c).phase.Closed?
  {
    if n > 0 {
      CutsBetweenTurns(events, n - 1);
      StepAt(events, n - 1);
    }
  }

  /** The view a turn loop materializes: the journal behind the newest summary. */
  predicate CurrentView(v: View) {
    && Tracked(v.events)
    && v.covered == LatestCovered(v.events, |v.events|)
    && Paired(v.base)
  }

  lemma {:induction false} ConversationPaired(v: View)
    requires CurrentView(v) && AtStepBoundary(v.events)
    ensures v.Valid() && Unanswered(Conversation(v), {}) == Some({})
  {
    var n := |v.events|;
    assert v.covered <= n && StillOpen(v, v.covered) == {} by { CutsBetweenTurns(v.events, n); }
    assert StillOpen(v, n) == {} by { BoundaryLeavesNothing(v); }
    OpenBeforeAt(v, n, v.covered);
    OpenBeforeAt(v, n, n);
    AllTaken(v);
  }

  lemma {:induction false} AllTaken(v: View)
    requires v.Valid() && Tracked(v.events) && Paired(v.base) && OpenBefore(v, |v.events|)[v.covered] == {}
    ensures Unanswered(Conversation(v), {}) == Some(OpenBefore(v, |v.events|)[|v.events|])
  {
    var open := OpenBefore(v, |v.events|);
    forall i | v.covered <= i < |v.events| ensures Takes(v, i, open[i], open[i + 1]) { TakesNext(v, i); }
    ScanTo(v, |v.events|, open);
  }

  lemma {:induction false} BoundaryLeavesNothing(v: View)
    requires v.Valid() && Tracked(v.events) && AtStepBoundary(v.events)
    ensures StillOpen(v, |v.events|) == {}
  {
  }

  /**
   * At every step boundary of a journal the turn loop may write, whatever mix of
   * completed, failed and cancelled turns it holds, every declared call has exactly one
   * answer before the next step and every answer belongs to the nearest earlier step.
   */
  lemma {:induction false} MaterializedHistoryIsPaired(v: View)
    requires CurrentView(v) && AtStepBoundary(v.events)
    ensures v.Valid() && Paired(Materialized(v))
    ensures forall i :: 0 <= i < |Materialized(v)| && Materialized(v)[i].Assistant? ==>
              EachCallAnsweredOnce(Materialized(v), i)
    ensures forall j :: 0 <= j < |Materialized(v)| && Materialized(v)[j].Tool? ==>
              AnswersNearestStep(Materialized(v), j)
  {
    assert Unanswered(Conversation(v), {}) == Some({}) by { ConversationPaired(v); }
    ImageBounds.BoundedHistory(Conversation(v));
    PairedMeaning(Materialized(v));
  }

  // ---- What stopped turns can not do ----

  /** The two journals differ only in records of turn `t`. */
  ghost predicate AgreeOutside(v: View, w: View, t: TurnId) {
    && v.Valid() && w == v.(events := w.events) && |v.events| == |w.events|
    && forall i :: 0 <= i < |v.events| ==>
         v.events[i] == w.events[i] || (v.events[i].turn == w.events[i].turn == Some(t))
  }

  lemma {:induction false} SameFacts(v: View, w: View, t: TurnId, u: TurnId, n: nat)
    requires AgreeOutside(v, w, t) && u != t && v.covered <= n <= |v.events|
    ensures LastReason(v.events, v.covered, n, u) == LastReason(w.events, v.covered, n, u)
    ensures Resolved(v.events, v.covered, n, u) == Resolved(w.events, v.covered, n, u)
    ensures Declared(v.events, v.covered, n, u) == Declared(w.events, v.covered, n, u)
    ensures HasAssistant(v.events, v.covered, n, u) == HasAssistant(w.events, v.covered, n, u)
    ensures HasWorked(v.events, v.covered, n, u) == HasWorked(w.events, v.covered, n, u)
    decreases n
  {
    if n > v.covered { SameFacts(v, w, t, u, n - 1); }
  }

  lemma {:induction false} SameStops(v: View, w: View, t: TurnId, u: TurnId, n: nat)
    requires AgreeOutside(v, w, t) && u != t && n <= |v.events|
    ensures Stopped(v.events, n, u) == Stopped(w.events, n, u)
  {
    if n > 0 { SameStops(v, w, t, u, n - 1); }
  }

  lemma {:induction false} SameFates(v: View, w: View, t: TurnId)
    requires AgreeOutside(v, w, t)
    ensures forall u :: u != t ==> FateOf(v, u) == FateOf(w, u)
  {
    forall u | u != t ensures FateOf(v, u) == FateOf(w, u) {
      SameFacts(v, w, t, u, |v.events|);
      SameStops(v, w, t, u, |v.events|);
    }
  }

  /** Records of a turn that is not whole may differ when it is dropped or only its request does. */
  ghost predicate Alike(v: View, w: View, t: TurnId) {
    && AgreeOutside(v, w, t)
    && FateOf(v, t) == FateOf(w, t) && !FateOf(v, t).Whole?
    && (FateOf(v, t).Dropped? || RequestsOnly(v.events, w.events))
  }

  ghost predicate RequestsOnly(a: seq<Event>, b: seq<Event>) {
    |a| == |b| && forall i :: 0 <= i < |a| ==> a[i] == b[i] || SwappedRequest(a[i], b[i])
  }

  predicate SwappedRequest(a: Event, b: Event) {
    a.turn == b.turn && a.body.TurnRequested? && b.body.TurnRequested?
  }

  lemma {:induction false} SameLatest(v: View, w: View, t: TurnId, n: nat)
    requires Alike(v, w, t)
    requires v.covered <= n <= |v.events|
    ensures LatestRequest(v, n) == LatestRequest(w, n)
    ensures LatestRequest(v, n).Some? ==> v.events[LatestRequest(v, n).value] == w.events[LatestRequest(v, n).value]
  {
    if n > v.covered {
      SameLatest(v, w, t, n - 1);
      SameFates(v, w, t);
    }
  }

  lemma {:induction false} SameText(v: View, w: View, t: TurnId, i: nat, seen: nat)
    requires Alike(v, w, t)
    requires v.covered <= i < seen <= |v.events|
    requires v.events[i] == w.events[i] && v.events[i].body.TurnRequested? && v.events[i].turn != Some(t)
    ensures RequestText(v, i, seen) == RequestText(w, i, seen)
    decreases seen
  {
    SameLatest(v, w, t, |v.events|);
    if seen > i + 1 { SameText(v, w, t, i, seen - 1); }
  }

  lemma {:induction false} SameRenderAs(v: View, w: View, i: nat, fate: Fate)
    requires v.Valid() && w == v.(events := w.events) && |v.events| == |w.events| && v.covered <= i < |v.events|
    requires if fate.Whole? then v.events[i] == w.events[i]
             else fate.Dropped? || v.events[i] == w.events[i] || SwappedRequest(v.events[i], w.events[i])
    requires fate.Whole? && v.events[i].body.TurnRequested? ==>
               RequestText(v, i, |v.events|) == RequestText(w, i, |w.events|)
    ensures RenderAs(v, i, |v.events|, fate) == RenderAs(w, i, |w.events|, fate)
  {
  }

  lemma {:induction false} SameRender(v: View, w: View, t: TurnId, i: nat)
    requires Alike(v, w, t) && v.covered <= i < |v.events|
    ensures Render(v, i, |v.events|) == Render(w, i, |w.events|)
  {
    SameFates(v, w, t);
    var turn := v.events[i].turn;
    var fate := if turn.Some? then FateOf(v, turn.value) else Whole;
    if turn != Some(t) && v.events[i].body.TurnRequested? { SameText(v, w, t, i, |v.events|); }
    SameRenderAs(v, w, i, fate);
  }

  lemma {:induction false} RenderedNext(v: View, m: nat, seen: nat)
    requires v.Valid() && v.covered <= m < seen <= |v.events|
    ensures Rendered(v, m + 1, seen) == Rendered(v, m, seen) + Render(v, m, seen)
  {
  }

  lemma {:induction false} SameRendered(v: View, w: View, t: TurnId, n: nat)
    requires Alike(v, w, t) && v.covered <= n <= |v.events|
    ensures Rendered(v, n, |v.events|) == Rendered(w, n, |w.events|)
    decreases n
  {
    if n > v.covered {
      var m, s := n - 1, |v.events|;
      assert Rendered(v, m, s) == Rendered(w, m, s) by { SameRendered(v, w, t, m); }
      assert Render(v, m, s) == Render(w, m, s) by { SameRender(v, w, t, m); }
      RenderedNext(v, m, s);
      RenderedNext(w, m, s);
    }
  }

  /**
   * A turn that failed, or was cancelled with nothing to salvage, contributes nothing:
   * replacing everything it wrote by anything that leaves it dropped changes no message.
   */
  lemma {:induction false} DroppedTurnContributesNothing(v: View, w: View, t: TurnId)
    requires AgreeOutside(v, w, t) && FateOf(v, t).Dropped? && FateOf(w, t).Dropped?
    ensures Materialized(v) == Materialized(w)
  {
    SameRendered(v, w, t, |v.events|);
  }

  lemma {:induction false} RequestsChangeNoFact(a: seq<Event>, b: seq<Event>, from: nat, n: nat, u: TurnId)
    requires RequestsOnly(a, b) && from <= n <= |a|
    ensures LastReason(a, from, n, u) == LastReason(b, from, n, u)
    ensures Resolved(a, from, n, u) == Resolved(b, from, n, u)
    ensures Declared(a, from, n, u) == Declared(b, from, n, u)
    ensures HasAssistant(a, from, n, u) == HasAssistant(b, from, n, u)
    ensures HasWorked(a, from, n, u) == HasWorked(b, from, n, u)
    decreases n
  {
    if n > from { RequestsChangeNoFact(a, b, from, n - 1, u); }
  }

  lemma {:induction false} RequestsStopNothing(a: seq<Event>, b: seq<Event>, n: nat, u: TurnId)
    requires RequestsOnly(a, b) && n <= |a|
    ensures Stopped(a, n, u) == Stopped(b, n, u)
  {
    if n > 0 { RequestsStopNothing(a, b, n - 1, u); }
  }

  /**
   * The request of a failed or cancelled turn never appears: whatever the person had
   * asked instead, with whatever images, the history sent to the provider is the same.
   */
  lemma {:induction false} StoppedRequestNeverAppears(v: View, w: View, t: TurnId)
    requires AgreeOutside(v, w, t) && RequestsOnly(v.events, w.events)
    requires Stopped(v.events, |v.events|, t)
    ensures Materialized(v) == Materialized(w)
  {
    RequestsChangeNoFact(v.events, w.events, v.covered, |v.events|, t);
    RequestsStopNothing(v.events, w.events, |v.events|, t);
    SameRendered(v, w, t, |v.events|);
  }
}
