/** The broker's fields and the methods that change them (src/approvals/broker.ts:153-389). */
module ApprovalBrokers {
  import opened Messages
  import opened Broker

  class ApprovalBroker {
    const maxPending: nat
    var requests: seq<Request>
    var entries: map<string, nat>
    var postponed: set<string>
    var outcomes: seq<Record>
    var focused: Option<string>
    var announced: seq<nat>

    ghost function Abs(): State
      reads this
    {
      State(requests, entries, postponed, outcomes, focused, announced)
    }

    ghost predicate Valid()
      reads this
    {
      Good(maxPending, Abs())
    }

    constructor (maxPending: nat)
      ensures Valid() && this.maxPending == maxPending && Init(Abs()) && focused.None?
    {
      this.maxPending := maxPending;
      requests, entries, postponed, outcomes, focused, announced := [], map[], {}, [], None, [];
    }

    /** snapshot: what demands an answer now, and what waits without demanding one. */
    method Snapshot() returns (pending: seq<nat>, deferred: seq<nat>)
      requires Valid()
      ensures multiset(pending) + multiset(deferred) == multiset(Queued(requests, entries))
      ensures forall i :: 0 <= i < |pending| ==> !IsPostponed(requests, pending[i], postponed)
      ensures forall i :: 0 <= i < |deferred| ==> IsPostponed(requests, deferred[i], postponed)
    {
      pending, deferred := [], [];
      var queue := Queued(requests, entries);
      for i := 0 to |queue|
        invariant pending == Showing(requests, queue, i, postponed, false)
        invariant deferred == Showing(requests, queue, i, postponed, true)
      {
        if requests[queue[i]].id in postponed {
          deferred := deferred + [queue[i]];
        } else {
          pending := pending + [queue[i]];
        }
      }
      SnapshotPartitions(requests, queue, postponed);
      forall i | 0 <= i < |pending| ensures !IsPostponed(requests, pending[i], postponed) {
        ShowingSorts(requests, queue, |queue|, postponed, false, i);
      }
      forall i | 0 <= i < |deferred| ensures IsPostponed(requests, deferred[i], postponed) {
        ShowingSorts(requests, queue, |queue|, postponed, true, i);
      }
    }

    method Remember(r: Record)
      modifies this`outcomes
      ensures outcomes == Remembered(old(outcomes), r)
    {
      if |outcomes| >= MAX_SETTLED_OUTCOMES { outcomes := outcomes[1..]; }
      var place := Find(outcomes, r.id);
      outcomes := if place.Some? then outcomes[place.value := r] else outcomes + [r];
    }

    /** settle: the entry leaves the queue, the outcome goes on record, the promise resolves, and it is announced. */
    method Settle(id: string, outcome: Outcome, actor: Actor) returns (settled: bool)
      modifies this
      ensures Abs() == Settled(old(Abs()), id, outcome, actor)
      ensures settled <==> id in old(entries)
    {
      settled := id in entries;
      if settled {
        var t := entries[id];
        entries := entries - {id};
        postponed := postponed - {id};
        Remember(Record(id, outcome, t));
        requests := Resolved(requests, t, Answer(outcome, actor));
        announced := announced + [t];
      }
    }

    /** request: refused at once, or live until something settles it. */
    method RequestApproval(id: string, session: string, aborted: bool) returns (t: nat)
      requires Valid()
      modifies this
      ensures Valid() && Grown(old(requests), requests)
      ensures Abs() == Requested(maxPending, old(Abs()), id, session, aborted)
      ensures t == |old(requests)| && t < |requests| && requests[t].id == id
      ensures requests[t].answer.None? <==> !aborted && |old(entries)| < maxPending && id !in old(entries)
    {
      RequestedKeeps(maxPending, Abs(), id, session, aborted);
      t := |requests|;
      if aborted {
        requests := requests + [Request(id, session, Some(Answer(Withdrawn, Turn)))];
        Remember(Record(id, Withdrawn, t));
      } else if |entries| >= maxPending || id in entries {
        requests := requests + [Request(id, session, Some(Answer(Unavailable, Queue)))];
        Remember(Record(id, Unavailable, t));
      } else {
        requests := requests + [Request(id, session, None)];
        entries := entries[id := t];
        if focused.Some? && focused != Some(session) { postponed := postponed + {id}; }
      }
      assert Abs() == Requested(maxPending, old(Abs()), id, session, aborted);
    }

    method Decide(id: string, decision: Decision) returns (settled: bool)
      requires Valid()
      modifies this
      ensures Valid() && Grown(old(requests), requests)
      ensures Abs() == Do(maxPending, old(Abs()), Step.Decide(id, decision))
    {
      AnswerKeeps(maxPending, Abs(), Step.Decide(id, decision));
      settled := Settle(id, OutcomeOf(decision), Person);
    }

    method SettleOne(t: nat, actor: Actor, scope: Option<string>)
      modifies this
      ensures Abs() == SettledOne(old(Abs()), t, actor, scope)
    {
      if InScope(requests, t, scope) {
        var settled := Settle(requests[t].id, AllOutcome(actor), actor);
      }
    }

    /** The loop of settleAll, over a copy of the entries. */
    method SettleCopy(copy: seq<nat>, actor: Actor, scope: Option<string>)
      modifies this
      ensures Abs() == SettledFirst(old(Abs()), copy, |copy|, actor, scope)
    {
      for i := 0 to |copy|
        invariant Abs() == SettledFirst(old(Abs()), copy, i, actor, scope)
      {
        SettleOne(copy[i], actor, scope);
      }
    }

    method SettleAll(actor: Actor, scope: Option<string>)
      requires Valid() && (actor.Person? || actor.Page?)
      modifies this
      ensures Valid() && Grown(old(requests), requests)
      ensures Abs() == SettledAll(old(Abs()), actor, scope)
    {
      ghost var first := Abs();
      SettleCopy(Queued(requests, entries), actor, scope);
      SettledAllKeeps(maxPending, first, actor, scope);
    }

    method Defer(id: string) returns (changed: bool)
      requires Valid()
      modifies this`postponed
      ensures Valid() && Abs() == Do(maxPending, old(Abs()), Step.Defer(id))
      ensures changed <==> postponed != old(postponed)
    {
      PutDownKeeps(maxPending, Abs(), id);
      changed := id in entries && id !in postponed;
      if changed {
        postponed := postponed + {id};
      } else {
        assert id in postponed ==> postponed + {id} == postponed;
      }
    }

    method Resume(id: string) returns (changed: bool)
      requires Valid()
      modifies this`postponed
      ensures Valid() && Abs() == Do(maxPending, old(Abs()), Step.Resume(id))
      ensures changed <==> id in old(postponed)
    {
      TakenUpKeeps(maxPending, Abs(), id);
      changed := id in postponed;
      postponed := postponed - {id};
    }

    method FocusSession(session: Option<string>)
      requires Valid()
      modifies this`focused
      ensures Valid() && Abs() == Do(maxPending, old(Abs()), Step.FocusSession(session))
    {
      focused := session;
    }

    /** takeOutcome: the record under an id, once. */
    method TakeOutcome(id: string) returns (r: Option<Outcome>)
      requires Valid()
      modifies this`outcomes
      ensures Valid() && Abs() == Do(maxPending, old(Abs()), Step.TakeOutcome(id))
      ensures r == match Find(old(outcomes), id) case Some(i) => Some(old(outcomes)[i].outcome) case None => None
    {
      TakenOk(requests, outcomes, id);
      var place := Find(outcomes, id);
      if place.None? { return None; }
      r := Some(outcomes[place.value].outcome);
      outcomes := outcomes[..place.value] + outcomes[place.value + 1..];
    }
  }
}
