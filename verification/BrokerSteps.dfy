/** What each step of the broker does to every request, told by the requests alone (src/approvals/broker.ts:214-384). */
module BrokerSteps {
  import opened Messages
  import opened Broker

  /** A request with this id is waiting for an answer. */
  predicate Asked(requests: seq<Request>, id: string) {
    exists t :: 0 <= t < |requests| && Waiting(requests, id, t)
  }

  lemma {:induction false} AskedIsListed(maxPending: nat, s: State, id: string)
    requires Good(maxPending, s)
    ensures Asked(s.requests, id) <==> id in s.entries
  {
    if id in s.entries { assert Waiting(s.requests, id, s.entries[id]); }
    if Asked(s.requests, id) {
      var t :| 0 <= t < |s.requests| && Waiting(s.requests, id, t);
      assert Lists(s.entries, s.requests[t].id, t);
    }
  }

  /** A waiting request is answered by its id, or in a settlement of its session, by whoever takes the step. */
  lemma {:induction false} AnsweredBy(maxPending: nat, s: State, step: Step, t: nat)
    requires Good(maxPending, s) && StepOk(step) && t < |s.requests| && s.requests[t].answer.None?
    ensures t < |Do(maxPending, s, step).requests|
    ensures Do(maxPending, s, step).requests[t].answer ==
            match step
            case Decide(id, Allow) => if id == s.requests[t].id then Some(Answer(Allowed, Person)) else None
            case Decide(id, Deny) => if id == s.requests[t].id then Some(Answer(Denied, Person)) else None
            case ClockRunsOut(id) => if id == s.requests[t].id then Some(Answer(Expired, Clock)) else None
            case TurnAborts(id) => if id == s.requests[t].id then Some(Answer(Withdrawn, Turn)) else None
            case SettleAll(actor, scope) =>
              if scope.Some? && scope.value != s.requests[t].session then None
              else if actor.Person? then Some(Answer(Denied, Person))
              else Some(Answer(Withdrawn, Page))
            case _ => None
  {
    match step
    case Decide(id, decision) => SettledAllows(s, id, OutcomeOf(decision), Person, t);
    case ClockRunsOut(id) => SettledAllows(s, id, Expired, Clock, t);
    case TurnAborts(id) => SettledAllows(s, id, Withdrawn, Turn, t);
    case SettleAll(actor, scope) => SettledAllAnswers(maxPending, s, actor, scope, t);
    case _ =>
  }

  /** A new request waits, unless its turn is gone, the queue is full, or one of its id is waiting. */
  lemma {:induction false} AskedAs(maxPending: nat, s: State, id: string, session: string, aborted: bool)
    requires Good(maxPending, s)
    ensures Do(maxPending, s, Ask(id, session, aborted)).requests == s.requests + [Request(id, session,
            if aborted then Some(Answer(Withdrawn, Turn))
            else if |s.entries| >= maxPending || Asked(s.requests, id) then Some(Answer(Unavailable, Queue))
            else None)]
  {
    AskedIsListed(maxPending, s, id);
  }

  // ---- Put down for later ----

  lemma {:induction false} SettledFirstPutDown(s: State, queue: seq<nat>, n: nat, actor: Actor, scope: Option<string>)
    requires s.postponed <= s.entries.Keys && n <= |queue|
    ensures SettledFirst(s, queue, n, actor, scope).entries.Keys <= s.entries.Keys
    ensures SettledFirst(s, queue, n, actor, scope).postponed
            == s.postponed * SettledFirst(s, queue, n, actor, scope).entries.Keys
  {
    if n > 0 {
      SettledFirstPutDown(s, queue, n - 1, actor, scope);
      var before, after := SettledFirst(s, queue, n - 1, actor, scope), SettledFirst(s, queue, n, actor, scope);
      if after != before {
        var id := before.requests[queue[n - 1]].id;
        assert after.entries.Keys == before.entries.Keys - {id};
      }
    }
  }

  /**
   * A waiting request is put down by deferring it, or as it is asked while another conversation
   * is on screen. Resuming it or answering it ends that, and nothing else does.
   */
  lemma {:induction false} PutDownExactly(maxPending: nat, s: State, step: Step, id: string)
    requires Good(maxPending, s) && StepOk(step)
    ensures id in Do(maxPending, s, step).postponed <==>
            && Asked(Do(maxPending, s, step).requests, id)
            && match step
               case Ask(other, session, _) =>
                 if id == other && !Asked(s.requests, id) then s.focused.Some? && s.focused.value != session
                 else id in s.postponed
               case Defer(other) => id == other || id in s.postponed
               case Resume(other) => id != other && id in s.postponed
               case _ => id in s.postponed
  {
    AskedIsListed(maxPending, s, id);
    StepKeeps(maxPending, s, step);
    AskedIsListed(maxPending, Do(maxPending, s, step), id);
    if step.SettleAll? {
      var queue := Queued(s.requests, s.entries);
      SettledFirstPutDown(s, queue, |queue|, step.actor, step.scope);
    }
  }

  // ---- What is announced ----

  lemma {:induction false} SettledAnnounces(s: State, id: string, outcome: Outcome, actor: Actor, t: nat)
    requires EntriesOk(s.requests, s.entries, s.postponed)
    ensures t in Settled(s, id, outcome, actor).announced <==>
              t in s.announced || Waiting(s.requests, id, t)
  {
    if id in s.entries { assert Waiting(s.requests, id, s.entries[id]); }
    if Waiting(s.requests, id, t) { assert Lists(s.entries, s.requests[t].id, t); }
  }

  /** A request that was waiting and has an answer. */
  predicate AnsweredIn(before: seq<Request>, after: seq<Request>, t: nat) {
    t < |before| && t < |after| && before[t].answer.None? && after[t].answer.Some?
  }

  lemma {:induction false} SettledOneAnnounces(s: State, h: nat, actor: Actor, scope: Option<string>, t: nat)
    requires EntriesOk(s.requests, s.entries, s.postponed) && h < |s.requests| && t < |s.requests|
    ensures t in SettledOne(s, h, actor, scope).announced <==>
              t in s.announced || AnsweredIn(s.requests, SettledOne(s, h, actor, scope).requests, t)
  {
    SettledOneAnswers(s, h, actor, scope, t, SettledOne(s, h, actor, scope));
    if InScope(s.requests, h, scope) { SettledAnnounces(s, s.requests[h].id, AllOutcome(actor), actor, t); }
  }

  lemma {:induction false} SettledFirstAnnounces(s: State, queue: seq<nat>, n: nat, actor: Actor,
        scope: Option<string>, t: nat)
    requires EntriesOk(s.requests, s.entries, s.postponed) && n <= |queue| && t < |s.requests|
    requires forall i :: 0 <= i < |queue| ==> queue[i] < |s.requests|
    ensures EntriesOk(SettledFirst(s, queue, n, actor, scope).requests, SettledFirst(s, queue, n, actor, scope).entries,
                      SettledFirst(s, queue, n, actor, scope).postponed)
    ensures Grown(s.requests, SettledFirst(s, queue, n, actor, scope).requests)
    ensures t in SettledFirst(s, queue, n, actor, scope).announced <==>
              t in s.announced || AnsweredIn(s.requests, SettledFirst(s, queue, n, actor, scope).requests, t)
  {
    if n == 0 {
      GrownSame(s.requests);
    } else {
      SettledFirstAnnounces(s, queue, n - 1, actor, scope, t);
      var before := SettledFirst(s, queue, n - 1, actor, scope);
      var after := SettledOne(before, queue[n - 1], actor, scope);
      SettledOneAnswers(before, queue[n - 1], actor, scope, t, after);
      SettledOneAnnounces(before, queue[n - 1], actor, scope, t);
      GrownTwice(s.requests, before.requests, after.requests);
      assert Later(s.requests[t], before.requests[t]) && Later(before.requests[t], after.requests[t]);
    }
  }

  /** A settlement is announced exactly for each request that was waiting and is answered now. */
  lemma {:induction false} AnnouncedExactly(maxPending: nat, s: State, step: Step, t: nat)
    requires Good(maxPending, s) && StepOk(step) && t < |s.requests|
    ensures t in Do(maxPending, s, step).announced <==>
              t in s.announced || AnsweredIn(s.requests, Do(maxPending, s, step).requests, t)
  {
    NewOnesAreAsked(maxPending, s, step);
    if s.requests[t].answer.None? { AnsweredBy(maxPending, s, step, t); }
    match step
    case Decide(id, decision) => SettledAnnounces(s, id, OutcomeOf(decision), Person, t);
    case ClockRunsOut(id) => SettledAnnounces(s, id, Expired, Clock, t);
    case TurnAborts(id) => SettledAnnounces(s, id, Withdrawn, Turn, t);
    case SettleAll(actor, scope) =>
      var queue := Queued(s.requests, s.entries);
      SettledFirstAnnounces(s, queue, |queue|, actor, scope, t);
    case _ =>
  }
}
