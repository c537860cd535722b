/**
 * What materialized history says, read off the events themselves: which turns count, and the
 * words of every message (src/core/agent.ts:1276-1492).
 */
module HistoryContents {
  import opened Messages
  import opened TurnJournal
  import opened TurnHistory
  import ImageBounds

  // ---- What becomes of a turn ----

  /** Some record says the turn failed or was cancelled. */
  ghost predicate Marked(v: View, t: TurnId) {
    exists k :: MarksAt(v, k, t)
  }

  ghost predicate MarksAt(v: View, k: int, t: TurnId) {
    0 <= k < |v.events| && v.events[k].turn == Some(t)
    && (v.events[k].body.TurnFailed? || v.events[k].body.TurnCancelled?)
  }

  /** Event `k` is a visible record of the turn. */
  ghost predicate Visible(v: View, k: int, t: TurnId) {
    v.covered <= k < |v.events| && v.events[k].turn == Some(t)
  }

  ghost predicate Cancelled(v: View, t: TurnId) {
    exists k :: Visible(v, k, t) && v.events[k].body.TurnCancelled?
  }

  ghost predicate Stepped(v: View, t: TurnId) {
    exists k :: Visible(v, k, t) && v.events[k].body.AssistantCompleted?
  }

  /** It said something, or a tool came back. */
  ghost predicate Worked(v: View, t: TurnId) {
    exists k :: Visible(v, k, t)
                && (v.events[k].body.ToolOutcome?
                    || (v.events[k].body.AssistantCompleted? && v.events[k].body.text != ""))
  }

  ghost predicate Salvageable(v: View, t: TurnId) {
    Cancelled(v, t) && Stepped(v, t) && Worked(v, t)
  }

  ghost predicate Answered(v: View, t: TurnId, id: string) {
    exists k :: Visible(v, k, t) && v.events[k].body.ToolOutcome? && v.events[k].body.callId == id
  }

  ghost predicate DeclaredBy(v: View, t: TurnId, id: string) {
    exists k :: Visible(v, k, t) && v.events[k].body.AssistantCompleted? && id in CallIds(v.events[k].body.calls)
  }

  /** The reason of the last visible cancellation. */
  ghost predicate LastReasonIs(v: View, t: TurnId, reason: string) {
    exists k :: Visible(v, k, t) && v.events[k].body.TurnCancelled? && v.events[k].body.reason == reason
                && forall m :: k < m && Visible(v, m, t) ==> !v.events[m].body.TurnCancelled?
  }

  lemma {:induction false} MarkedUpTo(v: View, n: nat, t: TurnId)
    requires n <= |v.events|
    ensures Stopped(v.events, n, t) <==> exists k :: k < n && MarksAt(v, k, t)
  {
    if n > 0 {
      MarkedUpTo(v, n - 1, t);
      assert MarksAt(v, n - 1, t) ==> Stopped(v.events, n, t);
    }
  }

  lemma {:induction false} ReasonUpTo(v: View, n: nat, t: TurnId)
    requires v.covered <= n <= |v.events|
    ensures match LastReason(v.events, v.covered, n, t)
            case None => forall k :: k < n && Visible(v, k, t) ==> !v.events[k].body.TurnCancelled?
            case Some(reason) =>
              exists k :: k < n && Visible(v, k, t) && v.events[k].body.TurnCancelled?
                          && v.events[k].body.reason == reason
                          && forall m :: k < m < n && Visible(v, m, t) ==> !v.events[m].body.TurnCancelled?
  {
    if n > v.covered {
      ReasonUpTo(v, n - 1, t);
      if Visible(v, n - 1, t) && v.events[n - 1].body.TurnCancelled? {
        assert LastReason(v.events, v.covered, n, t) == Some(v.events[n - 1].body.reason);
      }
    }
  }

  lemma {:induction false} WorkUpTo(v: View, n: nat, t: TurnId)
    requires v.covered <= n <= |v.events|
    ensures HasAssistant(v.events, v.covered, n, t) <==>
            exists k :: k < n && Visible(v, k, t) && v.events[k].body.AssistantCompleted?
    ensures HasWorked(v.events, v.covered, n, t) <==>
            exists k :: k < n && Visible(v, k, t)
                        && (v.events[k].body.ToolOutcome?
                            || (v.events[k].body.AssistantCompleted? && v.events[k].body.text != ""))
  {
    if n > v.covered {
      WorkUpTo(v, n - 1, t);
      assert Visible(v, n - 1, t) <==> v.events[n - 1].turn == Some(t);
    }
  }

  lemma {:induction false} IdsUpTo(v: View, n: nat, t: TurnId, id: string)
    requires v.covered <= n <= |v.events|
    ensures id in Resolved(v.events, v.covered, n, t) <==>
            exists k :: k < n && Visible(v, k, t) && v.events[k].body.ToolOutcome? && v.events[k].body.callId == id
    ensures id in Declared(v.events, v.covered, n, t) <==>
            exists k :: k < n && Visible(v, k, t) && v.events[k].body.AssistantCompleted?
                        && id in CallIds(v.events[k].body.calls)
  {
    if n > v.covered {
      IdsUpTo(v, n - 1, t, id);
      assert Visible(v, n - 1, t) <==> v.events[n - 1].turn == Some(t);
    }
  }

  lemma {:induction false} MarkedMeans(v: View, t: TurnId)
    ensures Stopped(v.events, |v.events|, t) <==> Marked(v, t)
  {
    MarkedUpTo(v, |v.events|, t);
    if k :| MarksAt(v, k, t) { assert k < |v.events|; }
  }

  lemma {:induction false} CancelledMeans(v: View, t: TurnId)
    requires v.Valid()
    ensures LastReason(v.events, v.covered, |v.events|, t).Some? <==> Cancelled(v, t)
    ensures LastReason(v.events, v.covered, |v.events|, t).Some? ==>
              LastReasonIs(v, t, LastReason(v.events, v.covered, |v.events|, t).value)
    ensures Cancelled(v, t) ==> Marked(v, t)
  {
    ReasonUpTo(v, |v.events|, t);
    if Cancelled(v, t) {
      var k :| Visible(v, k, t) && v.events[k].body.TurnCancelled?;
      assert MarksAt(v, k, t);
    }
  }

  lemma {:induction false} WorkMeans(v: View, t: TurnId)
    requires v.Valid()
    ensures HasAssistant(v.events, v.covered, |v.events|, t) <==> Stepped(v, t)
    ensures HasWorked(v.events, v.covered, |v.events|, t) <==> Worked(v, t)
  {
    WorkUpTo(v, |v.events|, t);
  }

  lemma {:induction false} IdsMean(v: View, t: TurnId, id: string)
    requires v.Valid()
    ensures id in Resolved(v.events, v.covered, |v.events|, t) <==> Answered(v, t, id)
    ensures id in Declared(v.events, v.covered, |v.events|, t) <==> DeclaredBy(v, t, id)
  {
    IdsUpTo(v, |v.events|, t, id);
  }

  /**
   * A turn is whole exactly when no record of it says failed or cancelled, and salvaged exactly
   * when it was cancelled with a step and something done.
   */
  lemma {:induction false} FateMeans(v: View, t: TurnId)
    requires v.Valid()
    ensures FateOf(v, t).Whole? <==> !Marked(v, t)
    ensures FateOf(v, t).Salvaged? <==> Salvageable(v, t)
  {
    MarkedMeans(v, t);
    CancelledMeans(v, t);
    WorkMeans(v, t);
  }

  /** What is kept: the last reason, the answered calls, and how many were declared and not answered. */
  lemma {:induction false} SalvageMeans(v: View, t: TurnId) returns (unanswered: set<string>)
    requires v.Valid() && FateOf(v, t).Salvaged?
    ensures LastReasonIs(v, t, FateOf(v, t).kept.reason)
    ensures forall id :: id in FateOf(v, t).kept.resolved <==> Answered(v, t, id)
    ensures forall id :: id in unanswered <==> DeclaredBy(v, t, id) && !Answered(v, t, id)
    ensures FateOf(v, t).kept.unresolvedCalls == |unanswered|
  {
    var n := |v.events|;
    CancelledMeans(v, t);
    unanswered := Declared(v.events, v.covered, n, t) - Resolved(v.events, v.covered, n, t);
    forall id
      ensures id in Resolved(v.events, v.covered, n, t) <==> Answered(v, t, id)
      ensures id in unanswered <==> DeclaredBy(v, t, id) && !Answered(v, t, id)
    {
      IdsMean(v, t, id);
    }
  }

  // ---- The words ----

  /** The event counts: it is of no turn, of one that was not stopped, or of one with work to keep. */
  ghost predicate Counts(v: View, e: Event)
    requires v.Valid()
  {
    e.turn.None? || !FateOf(v, e.turn.value).Dropped?
  }

  ghost predicate Unstopped(v: View, e: Event)
    requires v.Valid()
  {
    e.turn.None? || FateOf(v, e.turn.value).Whole?
  }

  lemma {:induction false} CountsMeans(v: View, e: Event)
    requires v.Valid()
    ensures Unstopped(v, e) <==> e.turn.None? || !Marked(v, e.turn.value)
    ensures Counts(v, e) <==> e.turn.None? || !Marked(v, e.turn.value) || Salvageable(v, e.turn.value)
  {
    if e.turn.Some? { FateMeans(v, e.turn.value); }
  }

  /** The calls with one of these ids, in order. */
  ghost function CallsIn(calls: seq<Call>, ids: set<string>): seq<Call> {
    if calls == [] then []
    else (if calls[0].id in ids then [calls[0]] else []) + CallsIn(calls[1..], ids)
  }

  /** What a tool's outcome says. */
  ghost function ToolSays(v: View, e: Event): seq<Message>
    requires v.Valid()
  {
    if e.body.ToolOutcome? && Counts(v, e) then [Tool(e.body.callId, e.body.result)] else []
  }

  /** What a step says: whole, or of a stopped turn its text and the calls that were answered. */
  ghost function StepSays(v: View, e: Event): seq<Message>
    requires v.Valid()
  {
    if !e.body.AssistantCompleted? || !Counts(v, e) then []
    else if Unstopped(v, e) then [Assistant(e.body.text, e.body.calls)]
    else
      var kept := CallsIn(e.body.calls, FateOf(v, e.turn.value).kept.resolved);
      if e.body.text == "" && kept == [] then [] else [Assistant(e.body.text, kept)]
  }

  /** The newest request of a turn that was not stopped. */
  ghost predicate Newest(v: View, k: int) {
    && v.covered <= k && Actionable(v, k)
    && forall m :: k < m ==> !Actionable(v, m)
  }

  ghost predicate Actionable(v: View, k: int) {
    && 0 <= k < |v.events|
    && v.events[k].body.TurnRequested? && v.events[k].turn.Some? && !Marked(v, v.events[k].turn.value)
  }

  /** The turn whose request may be wrapped. */
  ghost predicate LatestTurn(v: View, t: TurnId)
    requires v.Valid()
  {
    v.injectLatest
    && match LatestRequest(v, |v.events|) case Some(k) => v.events[k].turn == Some(t) case None => false
  }

  /** Another usable request of the turn stands before `n`. */
  ghost predicate AskedAgain(v: View, i: nat, n: nat)
    requires i < n <= |v.events|
  {
    exists k :: i < k < n && v.Usable(v.events[k]) && v.events[k].turn == v.events[i].turn
  }

  /** A readable selection of the request's turn, before the next usable request of it. */
  ghost predicate SelectsFor(v: View, i: nat, j: nat)
    requires i < j < |v.events|
  {
    var e := v.events[j];
    && e.body.ContextSelected? && v.readable(e.body) && e.turn.Some? && e.turn == v.events[i].turn
    && !AskedAgain(v, i, j)
  }

  /** The selections for a request, in order. */
  ghost function Selections(v: View, i: nat, n: nat): seq<string>
    requires i < n <= |v.events|
  {
    if n == i + 1 then []
    else Selections(v, i, n - 1) + if SelectsFor(v, i, n - 1) then [v.events[n - 1].body.selection] else []
  }

  /** Each selection around what there was, unless that is for the transport itself. */
  ghost function Injected(v: View, text: string, selections: seq<string>): string {
    if selections == [] then text
    else
      var before := Injected(v, text, selections[..|selections| - 1]);
      if SlashLocal(before) then before else v.wording.inject(before, selections[|selections| - 1])
  }

  /** The text of a request when it is pushed. */
  ghost function Live(v: View, i: nat): string
    requires v.Valid() && i < |v.events| && v.Usable(v.events[i])
  {
    var body := v.events[i].body;
    if v.injectLatest && LatestRequest(v, |v.events|) == Some(i) && !SlashLocal(body.content)
    then v.wording.live(body.content, body.environment) else body.content
  }

  /** Selections go into the requests of the latest request's turn. */
  ghost predicate TakesSelections(v: View, i: nat)
    requires v.Valid() && i < |v.events|
  {
    v.allowSelected && v.events[i].turn.Some? && LatestTurn(v, v.events[i].turn.value)
  }

  /** The text of a usable request of a turn that was not stopped, once the events before `n` are read. */
  ghost function AskedBefore(v: View, i: nat, n: nat): string
    requires v.Valid() && i < n <= |v.events| && v.Usable(v.events[i])
  {
    if TakesSelections(v, i) then Injected(v, Live(v, i), Selections(v, i, n)) else Live(v, i)
  }

  ghost function Asked(v: View, i: nat): string
    requires v.Valid() && i < |v.events| && v.Usable(v.events[i])
  {
    AskedBefore(v, i, |v.events|)
  }

  /** What stands in the user's role: a request, the checkpoint of a stopped turn, a restated plan. */
  ghost function UserSays(v: View, i: nat): seq<Message>
    requires v.Valid() && i < |v.events|
  {
    var e := v.events[i];
    if !Counts(v, e) then []
    else if e.body.PlanRestated? && e.body.note.Some? then [User(e.body.note.value, [])]
    else if !e.body.TurnRequested? then []
    else if !Unstopped(v, e) then
      var fate := FateOf(v, e.turn.value);
      if fate.Salvaged? then [User(v.wording.checkpoint(fate.kept.reason, fate.kept.unresolvedCalls), [])] else []
    else if v.readable(e.body) then [User(Asked(v, i), e.body.images)] else []
  }

  /** Only the latest request's turn is wrapped: any other request stands verbatim, and so does a slash prompt. */
  lemma {:induction false} AskedVerbatim(v: View, i: nat)
    requires v.Valid() && v.covered <= i < |v.events| && v.Usable(v.events[i])
    requires SlashLocal(v.events[i].body.content) || v.events[i].turn.None? || !LatestTurn(v, v.events[i].turn.value)
    ensures Asked(v, i) == v.events[i].body.content
  {
    if SlashLocal(v.events[i].body.content) {
      SlashStays(v, v.events[i].body.content, Selections(v, i, |v.events|));
    } else if v.events[i].turn.None? {
      NewestUpTo(v, |v.events|);
    }
  }

  /** A prompt for the transport itself begins, after any white space, with a slash. */
  lemma {:induction false} SlashMeans(content: string)
    ensures SlashLocal(content) <==> exists k :: BeginsAt(content, k) && content[k] == '/'
  {
    if content != "" && IsBlank(content[0]) {
      SlashMeans(content[1..]);
      if k :| BeginsAt(content, k) && content[k] == '/' { assert BeginsAt(content[1..], k - 1); }
      if k :| BeginsAt(content[1..], k) && content[1..][k] == '/' {
        assert BeginsAt(content, k + 1) && content[k + 1] == '/';
      }
    } else if SlashLocal(content) {
      assert BeginsAt(content, 0);
    }
  }

  predicate BeginsAt(content: string, k: int) {
    0 <= k < |content| && !IsBlank(content[k]) && forall j :: 0 <= j < k ==> IsBlank(content[j])
  }

  lemma {:induction false} SlashStays(v: View, text: string, selections: seq<string>)
    requires SlashLocal(text)
    ensures Injected(v, text, selections) == text
  {
    if selections != [] { SlashStays(v, text, selections[..|selections| - 1]); }
  }

  // ---- The text of a request ----

  lemma {:induction false} NewestUpTo(v: View, n: nat)
    requires v.Valid() && v.covered <= n <= |v.events|
    ensures match LatestRequest(v, n)
            case None => forall m :: v.covered <= m < n ==> !Actionable(v, m)
            case Some(k) => Actionable(v, k) && forall m :: k < m < n ==> !Actionable(v, m)
  {
    if n > v.covered {
      NewestUpTo(v, n - 1);
      if v.events[n - 1].turn.Some? { FateMeans(v, v.events[n - 1].turn.value); }
    }
  }

  lemma {:induction false} LatestIsNewest(v: View, k: nat)
    requires v.Valid()
    ensures LatestRequest(v, |v.events|) == Some(k) <==> Newest(v, k)
  {
    NewestUpTo(v, |v.events|);
  }

  /** The turn that may be wrapped is that of the newest request of a turn that was not stopped. */
  lemma {:induction false} LatestTurnMeans(v: View, t: TurnId)
    requires v.Valid() && v.injectLatest
    ensures LatestTurn(v, t) <==> exists k :: Newest(v, k) && v.events[k].turn == Some(t)
  {
    match LatestRequest(v, |v.events|)
    case Some(k) =>
      LatestIsNewest(v, k);
      if j :| Newest(v, j) && v.events[j].turn == Some(t) { LatestIsNewest(v, j); }
    case None => NewestUpTo(v, |v.events|);
  }

  lemma {:induction false} PatchesMeans(v: View, i: nat, j: nat)
    requires v.Valid() && v.covered <= i < j < |v.events| && v.Usable(v.events[i])
    ensures Patches(v, i, j) <==> SelectsFor(v, i, j) && TakesSelections(v, i)
  {
  }

  lemma {:induction false} SelectionsNext(v: View, i: nat, n: nat)
    requires i < n < |v.events|
    ensures Selections(v, i, n + 1)
            == if SelectsFor(v, i, n) then Selections(v, i, n) + [v.events[n].body.selection] else Selections(v, i, n)
  {
  }

  lemma {:induction false} AskedOne(v: View, i: nat, n: nat)
    requires v.Valid() && v.covered <= i < n < |v.events| && v.Usable(v.events[i])
    requires RequestText(v, i, n) == AskedBefore(v, i, n)
    ensures RequestText(v, i, n + 1) == AskedBefore(v, i, n + 1)
  {
    PatchesMeans(v, i, n);
    SelectionsNext(v, i, n);
    if SelectsFor(v, i, n) { InjectedOne(v, Live(v, i), Selections(v, i, n), v.events[n].body.selection); }
  }

  lemma {:induction false} InjectedOne(v: View, text: string, selections: seq<string>, selection: string)
    ensures Injected(v, text, selections + [selection])
            == if SlashLocal(Injected(v, text, selections)) then Injected(v, text, selections)
               else v.wording.inject(Injected(v, text, selections), selection)
  {
    assert (selections + [selection])[..|selections|] == selections;
  }

  lemma {:induction false} AskedUpTo(v: View, i: nat, n: nat)
    requires v.Valid() && v.covered <= i < n <= |v.events| && v.Usable(v.events[i])
    ensures RequestText(v, i, n) == AskedBefore(v, i, n)
    decreases n
  {
    if n > i + 1 {
      AskedUpTo(v, i, n - 1);
      AskedOne(v, i, n - 1);
    }
  }

  // ---- What is rendered ----

  datatype Kind = OfTool | OfStep | OfUser

  ghost predicate IsOf(m: Message, kind: Kind) {
    match kind
    case OfTool => m.Tool?
    case OfStep => m.Assistant?
    case OfUser => m.User?
  }

  /** The messages of a kind, in order. */
  ghost function Only(kind: Kind, messages: seq<Message>): seq<Message> {
    if messages == [] then []
    else
      var last := messages[|messages| - 1];
      Only(kind, messages[..|messages| - 1]) + if IsOf(last, kind) then [last] else []
  }

  lemma {:induction false} OnlyConcat(kind: Kind, a: seq<Message>, b: seq<Message>)
    ensures Only(kind, a + b) == Only(kind, a) + Only(kind, b)
  {
    if b == [] {
      assert a + b == a;
    } else {
      OnlyConcat(kind, a, b[..|b| - 1]);
      assert (a + b)[..|a + b| - 1] == a + b[..|b| - 1];
    }
  }

  /** What event `i` says in the voice of a kind. */
  ghost function SaysAs(v: View, kind: Kind, i: nat): seq<Message>
    requires v.Valid() && i < |v.events|
  {
    match kind
    case OfTool => ToolSays(v, v.events[i])
    case OfStep => StepSays(v, v.events[i])
    case OfUser => UserSays(v, i)
  }

  lemma {:induction false} KeptAreCallsIn(calls: seq<Call>, ids: set<string>)
    ensures KeptCalls(calls, ids) == CallsIn(calls, ids)
  {
    if calls != [] { KeptAreCallsIn(calls[1..], ids); }
  }

  /** All that an event says: one message, or none. */
  ghost function Says(v: View, i: nat): seq<Message>
    requires v.Valid() && i < |v.events|
  {
    ToolSays(v, v.events[i]) + StepSays(v, v.events[i]) + UserSays(v, i)
  }

  ghost function FateAt(v: View, i: nat): Fate
    requires v.Valid() && i < |v.events|
  {
    if v.events[i].turn.Some? then FateOf(v, v.events[i].turn.value) else Whole
  }

  lemma {:induction false} ToolRenders(v: View, i: nat)
    requires v.Valid() && v.covered <= i < |v.events| && v.events[i].body.ToolOutcome?
    ensures RenderAs(v, i, |v.events|, FateAt(v, i)) == ToolSays(v, v.events[i])
  {
  }

  lemma {:induction false} StepRenders(v: View, i: nat)
    requires v.Valid() && v.covered <= i < |v.events| && v.events[i].body.AssistantCompleted?
    ensures RenderAs(v, i, |v.events|, FateAt(v, i)) == StepSays(v, v.events[i])
  {
    if FateAt(v, i).Salvaged? { KeptAreCallsIn(v.events[i].body.calls, FateAt(v, i).kept.resolved); }
  }

  lemma {:induction false} UserRenders(v: View, i: nat)
    requires v.Valid() && v.covered <= i < |v.events|
    requires !v.events[i].body.ToolOutcome? && !v.events[i].body.AssistantCompleted?
    ensures RenderAs(v, i, |v.events|, FateAt(v, i)) == UserSays(v, i)
  {
    if v.Usable(v.events[i]) { AskedUpTo(v, i, |v.events|); }
  }

  lemma {:induction false} RenderSays(v: View, i: nat)
    requires v.Valid() && v.covered <= i < |v.events|
    ensures RendersAs(v, i, Says(v, i))
  {
    var tool, step, user := ToolSays(v, v.events[i]), StepSays(v, v.events[i]), UserSays(v, i);
    if v.events[i].body.ToolOutcome? {
      ToolRenders(v, i);
      assert step == [] && user == [] && tool + [] + [] == tool;
    } else if v.events[i].body.AssistantCompleted? {
      StepRenders(v, i);
      assert tool == [] && user == [] && [] + step + [] == step;
    } else {
      UserRenders(v, i);
      assert tool == [] && step == [] && [] + [] + user == user;
    }
  }

  ghost predicate RendersAs(v: View, i: nat, said: seq<Message>)
    requires v.Valid() && v.covered <= i < |v.events|
  {
    Render(v, i, |v.events|) == said
  }

  ghost predicate RenderedTo(v: View, n: nat, said: seq<Message>)
    requires v.Valid() && v.covered <= n <= |v.events|
  {
    Rendered(v, n, |v.events|) == said
  }

  lemma {:induction false} RenderedNone(v: View)
    requires v.Valid()
    ensures RenderedTo(v, v.covered, [])
  {
  }

  lemma {:induction false} RenderedOne(v: View, n: nat, before: seq<Message>, said: seq<Message>)
    requires v.Valid() && v.covered <= n < |v.events| && RenderedTo(v, n, before) && RendersAs(v, n, said)
    ensures RenderedTo(v, n + 1, before + said)
  {
    RenderedNext(v, n, |v.events|);
  }

  /** What each event from `start` up to `n` says, one after another. */
  ghost function Collect(saying: nat -> seq<Message>, start: nat, n: nat): seq<Message>
    requires start <= n
  {
    if n == start then [] else Collect(saying, start, n - 1) + saying(n - 1)
  }

  lemma {:induction false} OnlyCollect(kind: Kind, saying: nat -> seq<Message>, voices: nat -> seq<Message>,
        start: nat, n: nat)
    requires start <= n && forall i :: start <= i < n ==> Only(kind, saying(i)) == voices(i)
    ensures Only(kind, Collect(saying, start, n)) == Collect(voices, start, n)
  {
    if n > start {
      OnlyCollect(kind, saying, voices, start, n - 1);
      OnlyConcat(kind, Collect(saying, start, n - 1), saying(n - 1));
    }
  }

  lemma {:induction false} RenderedCollect(v: View, n: nat, saying: nat -> seq<Message>)
    requires v.Valid() && v.covered <= n <= |v.events|
    requires forall i :: v.covered <= i < n ==> RendersAs(v, i, saying(i))
    ensures RenderedTo(v, n, Collect(saying, v.covered, n))
  {
    if n == v.covered {
      RenderedNone(v);
    } else {
      RenderedCollect(v, n - 1, saying);
      RenderedOne(v, n - 1, Collect(saying, v.covered, n - 1), saying(n - 1));
    }
  }

  ghost function Saying(v: View): nat -> seq<Message>
    requires v.Valid()
  {
    (i: nat) => if i < |v.events| then Says(v, i) else []
  }

  ghost function SayingAs(v: View, kind: Kind): nat -> seq<Message>
    requires v.Valid()
  {
    (i: nat) => if i < |v.events| then SaysAs(v, kind, i) else []
  }

  /** All that the visible events say, in order. */
  ghost function Sayings(v: View): seq<Message>
    requires v.Valid()
  {
    Collect(Saying(v), v.covered, |v.events|)
  }

  /** All their words of a kind, in order. */
  ghost function Words(v: View, kind: Kind): seq<Message>
    requires v.Valid()
  {
    Collect(SayingAs(v, kind), v.covered, |v.events|)
  }

  lemma {:induction false} SayingRenders(v: View, saying: nat -> seq<Message>, i: nat)
    requires v.Valid() && v.covered <= i < |v.events| && saying(i) == Says(v, i)
    ensures RendersAs(v, i, saying(i))
  {
    RenderSays(v, i);
  }

  lemma {:induction false} RenderedIsSaid(v: View, saying: nat -> seq<Message>)
    requires v.Valid() && saying == Saying(v)
    ensures RenderedTo(v, |v.events|, Collect(saying, v.covered, |v.events|))
  {
    forall i | v.covered <= i < |v.events| ensures RendersAs(v, i, saying(i)) { SayingRenders(v, saying, i); }
    RenderedCollect(v, |v.events|, saying);
  }

  lemma {:induction false} OneVoice(v: View, kind: Kind, i: nat)
    requires v.Valid() && i < |v.events|
    ensures Only(kind, Says(v, i)) == SaysAs(v, kind, i)
  {
    var tool, step, user := ToolSays(v, v.events[i]), StepSays(v, v.events[i]), UserSays(v, i);
    assert |tool| <= 1 && forall m :: m in tool ==> m.Tool?;
    assert |step| <= 1 && forall m :: m in step ==> m.Assistant?;
    assert |user| <= 1 && forall m :: m in user ==> m.User?;
    ThreeVoices(kind, tool, step, user);
  }

  lemma {:induction false} ThreeVoices(kind: Kind, tool: seq<Message>, step: seq<Message>, user: seq<Message>)
    requires |tool| <= 1 && forall m :: m in tool ==> m.Tool?
    requires |step| <= 1 && forall m :: m in step ==> m.Assistant?
    requires |user| <= 1 && forall m :: m in user ==> m.User?
    ensures Only(kind, tool + step + user)
            == match kind case OfTool => tool case OfStep => step case OfUser => user
  {
    OnlyKind(kind, OfTool, tool);
    OnlyKind(kind, OfStep, step);
    OnlyKind(kind, OfUser, user);
    OnlyConcat(kind, tool, step);
    OnlyConcat(kind, tool + step, user);
  }

  lemma {:induction false} OnlyKind(kind: Kind, of: Kind, said: seq<Message>)
    requires |said| <= 1 && forall m :: m in said ==> IsOf(m, of)
    ensures Only(kind, said) == if kind == of then said else []
  {
    if said != [] { assert said[0] in said && said[..0] == []; }
  }

  lemma {:induction false} SayingsAre(v: View, kind: Kind, saying: nat -> seq<Message>, voices: nat -> seq<Message>)
    requires v.Valid() && saying == Saying(v) && voices == SayingAs(v, kind)
    ensures Only(kind, Collect(saying, v.covered, |v.events|)) == Collect(voices, v.covered, |v.events|)
  {
    forall i | v.covered <= i < |v.events| ensures Only(kind, saying(i)) == voices(i) { OneVoice(v, kind, i); }
    OnlyCollect(kind, saying, voices, v.covered, |v.events|);
  }

  // ---- What is sent ----

  ghost function Unpictured(messages: seq<Message>): (r: seq<Message>)
    ensures |r| == |messages| && forall i :: 0 <= i < |r| ==> r[i] == messages[i].WithImages([])
  {
    seq(|messages|, i requires 0 <= i < |messages| => messages[i].WithImages([]))
  }

  lemma {:induction false} OnlyIgnoresImages(kind: Kind, a: seq<Message>, b: seq<Message>)
    requires Unpictured(a) == Unpictured(b)
    ensures Unpictured(Only(kind, a)) == Unpictured(Only(kind, b))
  {
    assert |a| == |Unpictured(a)| == |b|;
    if a != [] {
      var m, n := a[|a| - 1], b[|b| - 1];
      assert Unpictured(a[..|a| - 1]) == Unpictured(a)[..|a| - 1] == Unpictured(b[..|b| - 1]);
      OnlyIgnoresImages(kind, a[..|a| - 1], b[..|b| - 1]);
      assert m.WithImages([]) == Unpictured(a)[|a| - 1] == n.WithImages([]);
      assert IsOf(m, kind) <==> IsOf(n, kind);
    }
  }

  lemma {:induction false} ImagesAfter(a: seq<Message>, b: seq<Message>, k: nat)
    requires k <= |b|
    ensures ImageBounds.ImagesFrom(a + b, |a| + k) == ImageBounds.ImagesFrom(b, k)
    decreases |b| - k
  {
    if k < |b| {
      ImagesAfter(a, b, k + 1);
      assert (a + b)[|a| + k] == b[k];
    }
  }

  lemma {:induction false} ImagesConcat(a: seq<Message>, b: seq<Message>, k: nat)
    requires k <= |a|
    ensures ImageBounds.ImagesFrom(a + b, k) == ImageBounds.ImagesFrom(a, k) + ImageBounds.ImagesFrom(b, 0)
    decreases |a| - k
  {
    if k == |a| {
      ImagesAfter(a, b, 0);
    } else {
      ImagesConcat(a, b, k + 1);
      assert (a + b)[k] == a[k];
      ImagesNext(a + b, k);
      ImagesNext(a, k);
    }
  }

  lemma {:induction false} ImagesNext(a: seq<Message>, k: nat)
    requires k < |a|
    ensures ImageBounds.ImagesFrom(a, k) == a[k].Images() + ImageBounds.ImagesFrom(a, k + 1)
  {
  }

  lemma {:induction false} ImagesOfOne(m: Message)
    ensures ImageBounds.ImagesFrom([m], 0) == m.Images() == ImageBounds.ImagesFrom(if m.User? then [m] else [], 0)
  {
    assert ImageBounds.ImagesFrom([m], 1) == [];
  }

  /** Only what stands in the user's role has images. */
  lemma {:induction false} ImagesAreUsers(messages: seq<Message>)
    ensures ImageBounds.ImagesFrom(messages, 0) == ImageBounds.ImagesFrom(Only(OfUser, messages), 0)
  {
    if messages != [] {
      var init, last := messages[..|messages| - 1], messages[|messages| - 1];
      ImagesAreUsers(init);
      assert messages == init + [last];
      ImagesConcat(init, [last], 0);
      ImagesConcat(Only(OfUser, init), if last.User? then [last] else [], 0);
      ImagesOfOne(last);
    }
  }

  lemma {:induction false} ConversationIs(v: View)
    requires v.Valid()
    ensures Conversation(v) == v.base + Sayings(v)
  {
    RenderedIsSaid(v, Saying(v));
  }

  lemma {:induction false} SentFrom(base: seq<Message>, said: seq<Message>, sent: seq<Message>)
    requires sent == ImageBounds.Bounded(base + said, ImageBounds.MAX_INFERENCE_HISTORY_IMAGES)
    ensures |sent| == |base| + |said|
    ensures Unpictured(sent[..|base|]) == Unpictured(base) && Unpictured(sent[|base|..]) == Unpictured(said)
    ensures ImageBounds.ImagesFrom(sent, 0) == ImageBounds.LastN(ImageBounds.ImagesFrom(base + said, 0), 2)
  {
    ImageBounds.BoundedHistory(base + said);
    forall i | 0 <= i < |sent| ensures sent[i].WithImages([]) == (base + said)[i].WithImages([]) {}
  }

  /**
   * After its base, the history that is sent is what the visible events say, each in its place,
   * and its images are the last two of all.
   */
  lemma {:induction false} HistoryInOrder(v: View)
    requires v.Valid()
    ensures |v.base| <= |Materialized(v)|
    ensures Unpictured(Materialized(v)[..|v.base|]) == Unpictured(v.base)
    ensures Unpictured(Materialized(v)[|v.base|..]) == Unpictured(Sayings(v))
    ensures ImageBounds.ImagesFrom(Materialized(v), 0)
            == ImageBounds.LastN(ImageBounds.ImagesFrom(v.base, 0)
                                 + ImageBounds.ImagesFrom(Words(v, OfUser), 0), 2)
  {
    var said := Sayings(v);
    ConversationIs(v);
    SentFrom(v.base, said, Materialized(v));
    ImagesConcat(v.base, said, 0);
    ImagesAreUsers(said);
    SayingsAre(v, OfUser, Saying(v), SayingAs(v, OfUser));
  }

  /**
   * Of the history after its base, the tool messages are the outcomes of the turns that count,
   * with their ids and results; the steps are those of these turns, of a stopped turn its text and
   * its answered calls; and in the user's role stand the requests, the checkpoints and the
   * restated plans: each kind complete, in the order of the journal, and word for word.
   */
  lemma {:induction false} HistorySays(v: View, kind: Kind)
    requires v.Valid()
    ensures |v.base| <= |Materialized(v)|
    ensures Unpictured(Only(kind, Materialized(v)[|v.base|..])) == Unpictured(Words(v, kind))
  {
    HistoryInOrder(v);
    OnlyIgnoresImages(kind, Materialized(v)[|v.base|..], Sayings(v));
    SayingsAre(v, kind, Saying(v), SayingAs(v, kind));
  }
}
