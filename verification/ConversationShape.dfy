/** The shape of a conversation of completed turns (src/core/fork-context.ts:295-323). */
module ConversationShape {
  import opened Messages

  datatype Phase = Start | AwaitAssistant | AwaitTools | AfterTools | AfterAssistant

  /** Where the check stands: the call ids seen, those not answered yet, and the phase. */
  datatype Scan = Scan(ids: set<string>, unresolved: set<string>, phase: Phase) | Broken

  const BEGIN: Scan := Scan({}, {}, Start)

  /** Call ids that are new to the conversation and distinct. */
  predicate FreshCalls(ids: set<string>, calls: seq<Call>) {
    DistinctIds(calls) && CallIds(calls) !! ids
  }

  function Step(s: Scan, m: Message): Scan {
    match s
    case Broken => Broken
    case Scan(ids, unresolved, phase) =>
      match m
      case User(_, _) =>
        if phase.Start? || phase.AfterAssistant? then Scan(ids, unresolved, AwaitAssistant) else Broken
      case Assistant(_, calls) =>
        var summaryPrelude := phase.Start? && calls == [];
        if !summaryPrelude && !phase.AwaitAssistant? && !phase.AfterTools? then Broken
        else if !FreshCalls(ids, calls) then Broken
        else Scan(ids + CallIds(calls), CallIds(calls), if calls == [] then AfterAssistant else AwaitTools)
      case Tool(id, _) =>
        if !phase.AwaitTools? || id == "" || id !in unresolved then Broken
        else Scan(ids, unresolved - {id}, if unresolved - {id} == {} then AfterTools else AwaitTools)
  }

  function Run(s: Scan, messages: seq<Message>): Scan {
    if messages == [] then s else Step(Run(s, messages[..|messages| - 1]), messages[|messages| - 1])
  }

  predicate Complete(s: Scan) {
    s.Scan? && s.unresolved == {} && (s.phase.Start? || s.phase.AfterAssistant?)
  }

  predicate Shape(messages: seq<Message>) {
    Complete(Run(BEGIN, messages))
  }

  lemma {:induction false} RunOne(s: Scan, messages: seq<Message>, m: Message)
    ensures Run(s, messages + [m]) == Step(Run(s, messages), m)
  {
    assert (messages + [m])[..|messages|] == messages;
  }

  lemma {:induction false} RunConcat(s: Scan, a: seq<Message>, b: seq<Message>)
    ensures Run(s, a + b) == Run(Run(s, a), b)
  {
    if b == [] {
      assert a + b == a;
    } else {
      var init, last := b[..|b| - 1], b[|b| - 1];
      RunConcat(s, a, init);
      assert a + b == (a + init) + [last];
      RunOne(s, a + init, last);
    }
  }

  lemma {:induction false} BrokenStays(messages: seq<Message>)
    ensures Run(Broken, messages).Broken?
  {
    if messages != [] { BrokenStays(messages[..|messages| - 1]); }
  }

  /** validConversationShape */
  method ValidConversationShape(messages: seq<Message>) returns (ok: bool)
    ensures ok == Shape(messages)
  {
    var allCallIds: set<string>, unresolved: set<string>, phase := {}, {}, Start;
    for index := 0 to |messages|
      invariant Run(BEGIN, messages[..index]) == Scan(allCallIds, unresolved, phase)
      invariant phase.Start? ==> index == 0
    {
      var message := messages[index];
      ghost var before := Scan(allCallIds, unresolved, phase);
      assert messages[..index + 1] == messages[..index] + [message];
      RunOne(BEGIN, messages[..index], message);
      assert messages == messages[..index + 1] + messages[index + 1..];
      RunConcat(BEGIN, messages[..index + 1], messages[index + 1..]);
      BrokenStays(messages[index + 1..]);
      match message
      case User(_, _) =>
        if !phase.Start? && !phase.AfterAssistant? { return false; }
        phase := AwaitAssistant;
      case Assistant(_, calls) =>
        var summaryPrelude := index == 0 && phase.Start? && |calls| == 0;
        if !summaryPrelude && !phase.AwaitAssistant? && !phase.AfterTools? { return false; }
        var allNew: bool;
        allNew, allCallIds, unresolved := AdmitCalls(allCallIds, calls);
        if !allNew { return false; }
        phase := if |calls| > 0 then AwaitTools else AfterAssistant;
      case Tool(callId, _) =>
        if !phase.AwaitTools? || callId == "" || callId !in unresolved { return false; }
        unresolved := unresolved - {callId};
        if unresolved == {} { phase := AfterTools; }
    }
    assert messages[..|messages|] == messages;
    ok := unresolved == {} && (phase.Start? || phase.AfterAssistant?);
  }

  /** The loop over a message's calls. */
  method AdmitCalls(ids: set<string>, calls: seq<Call>)
      returns (allNew: bool, all: set<string>, unresolved: set<string>)
    ensures allNew == FreshCalls(ids, calls)
    ensures allNew ==> all == ids + CallIds(calls) && unresolved == CallIds(calls)
  {
    all, unresolved := ids, {};
    for j := 0 to |calls|
      invariant all == ids + unresolved && unresolved == CallIds(calls[..j])
      invariant FreshCalls(ids, calls[..j])
    {
      var id := calls[j].id;
      assert calls[j] in calls;
      if id in all || id in unresolved {
        if id !in ids {
          assert id in CallIds(calls[..j]);
          var k :| 0 <= k < j && calls[..j][k].id == id;
          assert calls[k].id == calls[j].id;
        } else {
          assert id in CallIds(calls);
        }
        allNew := false;
        return;
      }
      assert calls[..j + 1] == calls[..j] + [calls[j]];
      all, unresolved := all + {id}, unresolved + {id};
      forall i | 0 <= i < j ensures calls[i].id != id {
        assert calls[..j][i] == calls[i];
        assert calls[i].id in CallIds(calls[..j]);
      }
    }
    assert calls[..|calls|] == calls;
    allNew := true;
  }

  // ---- What the check means ----

  function AllCallIds(messages: seq<Message>): set<string> {
    if messages == [] then {}
    else
      var rest, last := AllCallIds(messages[..|messages| - 1]), messages[|messages| - 1];
      if last.Assistant? then rest + CallIds(last.calls) else rest
  }

  /** No call id is declared twice in the whole conversation. */
  predicate NewCallIds(messages: seq<Message>) {
    messages == [] ||
    var init, last := messages[..|messages| - 1], messages[|messages| - 1];
    NewCallIds(init) && (last.Assistant? ==> CallIds(last.calls) !! AllCallIds(init))
  }

  /** A message that ends a turn: a step with no calls. */
  predicate EndsTurn(m: Message) {
    m.Assistant? && m.calls == []
  }

  /** What may come directly before message `i`. */
  predicate InOrder(messages: seq<Message>, i: nat)
    requires i < |messages|
  {
    match messages[i]
    case User(_, _) => i == 0 || EndsTurn(messages[i - 1])
    case Assistant(_, calls) => if i == 0 then calls == [] else messages[i - 1].User? || messages[i - 1].Tool?
    case Tool(id, _) => id != ""
  }

  /** Users speak first in a turn, steps follow users or answers, and a step with no calls ends a turn. */
  predicate Orderly(messages: seq<Message>) {
    && (forall i :: 0 <= i < |messages| ==> InOrder(messages, i))
    && (messages == [] || EndsTurn(messages[|messages| - 1]))
  }

  /** The phase is a matter of the last message and of what is unanswered. */
  function PhaseAfter(messages: seq<Message>, open: set<string>): Phase {
    if messages == [] then Start
    else
      match messages[|messages| - 1]
      case User(_, _) => AwaitAssistant
      case Assistant(_, calls) => if calls == [] then AfterAssistant else AwaitTools
      case Tool(_, _) => if open == {} then AfterTools else AwaitTools
  }

  ghost predicate Good(messages: seq<Message>) {
    && (forall i :: 0 <= i < |messages| ==> InOrder(messages, i))
    && Unanswered(messages, {}).Some? && NewCallIds(messages)
  }

  lemma {:induction false} UnansweredOne(messages: seq<Message>, m: Message)
    ensures Unanswered(messages + [m], {}) ==
            match Unanswered(messages, {}) case Some(open) => Unanswered([m], open) case None => None
  {
    UnansweredConcat(messages, [m], {});
  }

  lemma {:induction false} UnansweredLast(m: Message, open: set<string>)
    ensures Unanswered([m], open) ==
            match m
            case User(_, _) => if open == {} then Some({}) else None
            case Assistant(_, calls) => if open == {} && DistinctIds(calls) then Some(CallIds(calls)) else None
            case Tool(id, _) => if id in open then Some(open - {id}) else None
  {
    assert [m][1..] == [];
  }

  lemma {:induction false} GoodOne(messages: seq<Message>, m: Message)
    ensures Good(messages + [m]) <==>
            && Good(messages) && InOrder(messages + [m], |messages|)
            && Unanswered([m], Unanswered(messages, {}).value).Some?
            && (m.Assistant? ==> CallIds(m.calls) !! AllCallIds(messages))
  {
    var all := messages + [m];
    UnansweredOne(messages, m);
    assert all[..|all| - 1] == messages;
    assert forall i :: 0 <= i < |messages| ==> InOrder(all, i) == InOrder(messages, i);
  }

  /** The scan of a good conversation, and of no other. */
  lemma {:induction false} RunExactly(messages: seq<Message>)
    ensures Run(BEGIN, messages).Scan? <==> Good(messages)
    ensures Good(messages) ==>
              Run(BEGIN, messages) ==
              Scan(AllCallIds(messages), Unanswered(messages, {}).value,
                  PhaseAfter(messages, Unanswered(messages, {}).value))
  {
    if messages != [] {
      var init, last := messages[..|messages| - 1], messages[|messages| - 1];
      assert messages == init + [last];
      RunExactly(init);
      GoodOne(init, last);
      UnansweredOne(init, last);
      if Good(init) {
        var open := Unanswered(init, {}).value;
        UnansweredLast(last, open);
        OpenIsAwaited(init);
        StepExactly(init, last, open);
      }
    }
  }

  /** Calls are only ever unanswered right after the step that made them, or an answer to it. */
  lemma {:induction false} OpenIsAwaited(messages: seq<Message>)
    requires Good(messages)
    ensures Unanswered(messages, {}).value != {} <==> PhaseAfter(messages, Unanswered(messages, {}).value).AwaitTools?
  {
    if messages != [] {
      var init, last := messages[..|messages| - 1], messages[|messages| - 1];
      assert messages == init + [last];
      GoodOne(init, last);
      UnansweredOne(init, last);
      UnansweredLast(last, Unanswered(init, {}).value);
      match last
      case Assistant(_, calls) => if calls != [] { assert calls[0].id in CallIds(calls); }
      case _ =>
    }
  }

  lemma {:induction false} StepExactly(init: seq<Message>, last: Message, open: set<string>)
    requires Unanswered(init, {}) == Some(open) && (open != {} <==> PhaseAfter(init, open).AwaitTools?)
    ensures Step(Scan(AllCallIds(init), open, PhaseAfter(init, open)), last).Scan? <==>
            && InOrder(init + [last], |init|) && Unanswered([last], open).Some?
            && (last.Assistant? ==> CallIds(last.calls) !! AllCallIds(init))
    ensures Step(Scan(AllCallIds(init), open, PhaseAfter(init, open)), last).Scan? ==>
              && Unanswered([last], open).Some?
              && Step(Scan(AllCallIds(init), open, PhaseAfter(init, open)), last)
              == Scan(AllCallIds(init + [last]), Unanswered([last], open).value,
                  PhaseAfter(init + [last], Unanswered([last], open).value))
  {
    var all := init + [last];
    UnansweredLast(last, open);
    assert all[..|all| - 1] == init && all[|all| - 1] == last;
    if init != [] { assert all[|init| - 1] == init[|init| - 1]; }
  }

  /**
   * A conversation has the shape exactly when every call has its one answer before the next
   * step, no call id is used twice, and its turns are in order and whole.
   */
  lemma {:induction false} ShapeExactly(messages: seq<Message>)
    ensures Shape(messages) <==> Paired(messages) && NewCallIds(messages) && Orderly(messages)
  {
    RunExactly(messages);
    if Good(messages) { OpenIsAwaited(messages); }
  }
}
