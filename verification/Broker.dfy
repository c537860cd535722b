/** The approval broker of one page: its queue, its ledger, and every run of it (src/approvals/broker.ts:153-389). */
module Broker {
  import opened Messages

  const MAX_SETTLED_OUTCOMES: nat := 256

  datatype Decision = Allow | Deny

  datatype Outcome = Allowed | Denied | Expired | Unavailable | Withdrawn

  /** Who made a request come out as it did. */
  datatype Actor = Person | Clock | Page | Turn | Queue

  datatype Answer = Answer(outcome: Outcome, actor: Actor)

  /** A request ever made, and how its promise resolved. */
  datatype Request = Request(id: string, session: string, answer: Option<Answer>)

  /** A settled outcome on record, and the request it is of. */
  datatype Record = Record(id: string, outcome: Outcome, request: nat)

  /** The gate: everything but an explicit allow fails closed. */
  function Gate(outcome: Outcome): Decision {
    if outcome.Allowed? then Allow else Deny
  }

  /** approvalWasAnswered */
  predicate WasAnswered(outcome: Outcome) {
    outcome.Allowed? || outcome.Denied?
  }

  /**
   * Every request made, the live ones by id, those put down for later, the ledger of settled
   * outcomes, oldest first, the conversation on screen, and the settlements announced.
   */
  datatype State = State(
    requests: seq<Request>,
    entries: map<string, nat>,
    postponed: set<string>,
    outcomes: seq<Record>,
    focused: Option<string>,
    announced: seq<nat>)

  // ---- The ledger ----

  function Find(outcomes: seq<Record>, id: string): (r: Option<nat>)
    ensures r.Some? ==> r.value < |outcomes| && outcomes[r.value].id == id
    ensures r.None? ==> forall i :: 0 <= i < |outcomes| ==> outcomes[i].id != id
  {
    if outcomes == [] then None
    else if outcomes[0].id == id then Some(0)
    else
      var rest := Find(outcomes[1..], id);
      if rest.Some? then Some(rest.value + 1) else None
  }

  /** The oldest outcome makes room. */
  function Roomy(outcomes: seq<Record>): seq<Record> {
    if |outcomes| >= MAX_SETTLED_OUTCOMES then outcomes[1..] else outcomes
  }

  /** A known id keeps its place. */
  function Filed(outcomes: seq<Record>, r: Record): seq<Record> {
    match Find(outcomes, r.id)
    case Some(i) => outcomes[i := r]
    case None => outcomes + [r]
  }

  /** remember */
  function Remembered(outcomes: seq<Record>, r: Record): seq<Record> {
    Filed(Roomy(outcomes), r)
  }

  /** takeOutcome leaves the ledger without the id. */
  function Taken(outcomes: seq<Record>, id: string): seq<Record> {
    match Find(outcomes, id)
    case Some(i) => outcomes[..i] + outcomes[i + 1..]
    case None => outcomes
  }

  predicate DistinctRecords(outcomes: seq<Record>) {
    forall i, j :: 0 <= i < j < |outcomes| ==> outcomes[i].id != outcomes[j].id
  }

  /** A record states the outcome of a settled request with that id. */
  predicate RecordOk(requests: seq<Request>, r: Record) {
    && r.request < |requests| && requests[r.request].id == r.id
    && requests[r.request].answer.Some? && requests[r.request].answer.value.outcome == r.outcome
  }

  predicate LedgerOk(requests: seq<Request>, outcomes: seq<Record>) {
    && |outcomes| <= MAX_SETTLED_OUTCOMES
    && DistinctRecords(outcomes)
    && (forall i :: 0 <= i < |outcomes| ==> RecordOk(requests, outcomes[i]))
  }

  lemma {:induction false} Found(outcomes: seq<Record>, i: nat)
    requires DistinctRecords(outcomes) && i < |outcomes|
    ensures Find(outcomes, outcomes[i].id) == Some(i)
  {
  }

  lemma {:induction false} RememberedOk(requests: seq<Request>, outcomes: seq<Record>, r: Record)
    requires LedgerOk(requests, outcomes) && RecordOk(requests, r)
    ensures LedgerOk(requests, Remembered(outcomes, r))
  {
    var kept := Roomy(outcomes);
    var after := Filed(kept, r);
    forall i | 0 <= i < |kept| ensures RecordOk(requests, kept[i]) {
      assert kept[i] == outcomes[if |outcomes| >= MAX_SETTLED_OUTCOMES then i + 1 else i];
    }
    assert DistinctRecords(kept);
    forall i | 0 <= i < |after| ensures RecordOk(requests, after[i]) {}
    assert DistinctRecords(after);
  }

  lemma {:induction false} TakenOk(requests: seq<Request>, outcomes: seq<Record>, id: string)
    requires LedgerOk(requests, outcomes)
    ensures LedgerOk(requests, Taken(outcomes, id))
  {
    match Find(outcomes, id)
    case None =>
    case Some(i) =>
      var left := Taken(outcomes, id);
      forall j | 0 <= j < |left| ensures left[j] == outcomes[if j < i then j else j + 1] {}
  }

  // ---- Invariant ----

  /** An answer a person gave is exactly one that counts as answered. */
  predicate AnswerOk(a: Answer) {
    WasAnswered(a.outcome) <==> a.actor.Person?
  }

  predicate AnswersOk(requests: seq<Request>) {
    forall t :: 0 <= t < |requests| && requests[t].answer.Some? ==> AnswerOk(requests[t].answer.value)
  }

  predicate Waiting(requests: seq<Request>, id: string, t: nat) {
    t < |requests| && requests[t].id == id && requests[t].answer.None?
  }

  predicate Lists(entries: map<string, nat>, id: string, t: nat) {
    id in entries && entries[id] == t
  }

  /** The entries are the unanswered requests, each under its id, and only such are put down. */
  predicate EntriesOk(requests: seq<Request>, entries: map<string, nat>, postponed: set<string>) {
    && (forall id :: id in entries ==> Waiting(requests, id, entries[id]))
    && (forall t :: 0 <= t < |requests| && requests[t].answer.None? ==> Lists(entries, requests[t].id, t))
    && postponed <= entries.Keys
  }

  predicate Good(maxPending: nat, s: State) {
    match s
    case State(requests, entries, postponed, outcomes, _, _) =>
      && EntriesOk(requests, entries, postponed)
      && |entries| <= maxPending
      && LedgerOk(requests, outcomes)
      && AnswersOk(requests)
  }

  /** A request keeps its identity, and its answer once given. */
  predicate Later(before: Request, after: Request) {
    before.id == after.id && before.session == after.session && (before.answer.Some? ==> before == after)
  }

  /** A request resolves at most once: an answer, once given, stays. */
  predicate Grown(s: seq<Request>, t: seq<Request>) {
    |s| <= |t| && forall k :: 0 <= k < |s| ==> Later(s[k], t[k])
  }

  lemma {:induction false} GrownTwice(s: seq<Request>, t: seq<Request>, u: seq<Request>)
    requires Grown(s, t) && Grown(t, u)
    ensures Grown(s, u)
  {
    forall k | 0 <= k < |s| ensures Later(s[k], u[k]) { assert Later(s[k], t[k]) && Later(t[k], u[k]); }
  }

  lemma {:induction false} LedgerKept(before: seq<Request>, after: seq<Request>, outcomes: seq<Record>)
    requires LedgerOk(before, outcomes) && Grown(before, after)
    ensures LedgerOk(after, outcomes)
  {
    forall i | 0 <= i < |outcomes| ensures RecordOk(after, outcomes[i]) {
      assert RecordOk(before, outcomes[i]);
      assert Later(before[outcomes[i].request], after[outcomes[i].request]);
    }
  }

  // ---- Operations ----

  /** The promise of request `t` resolves. */
  function Resolved(requests: seq<Request>, t: nat, a: Answer): seq<Request> {
    if t < |requests| then requests[t := requests[t].(answer := Some(a))] else requests
  }

  /** settle */
  function Settled(s: State, id: string, outcome: Outcome, actor: Actor): State {
    if id in s.entries then
      var t := s.entries[id];
      State(Resolved(s.requests, t, Answer(outcome, actor)),
            s.entries - {id},
            s.postponed - {id},
            Remembered(s.outcomes, Record(id, outcome, t)),
            s.focused,
            s.announced + [t])
    else s
  }

  /** A request that is answered at once, without ever being put to anybody. */
  function Refused(s: State, id: string, session: string, answer: Answer): State {
    State(s.requests + [Request(id, session, Some(answer))],
          s.entries, s.postponed,
          Remembered(s.outcomes, Record(id, answer.outcome, |s.requests|)),
          s.focused, s.announced)
  }

  function Admitted(s: State, id: string, session: string): State {
    State(s.requests + [Request(id, session, None)],
          s.entries[id := |s.requests|],
          if s.focused.Some? && s.focused != Some(session) then s.postponed + {id} else s.postponed,
          s.outcomes, s.focused, s.announced)
  }

  /** request */
  function Requested(maxPending: nat, s: State, id: string, session: string, aborted: bool): State {
    if aborted then Refused(s, id, session, Answer(Withdrawn, Turn))
    else if |s.entries| >= maxPending || id in s.entries then Refused(s, id, session, Answer(Unavailable, Queue))
    else Admitted(s, id, session)
  }

  lemma {:induction false} ResolvedEntries(requests: seq<Request>, entries: map<string, nat>, postponed: set<string>,
        id: string, a: Answer)
    requires EntriesOk(requests, entries, postponed) && id in entries
    ensures EntriesOk(Resolved(requests, entries[id], a), entries - {id}, postponed - {id})
    ensures Grown(requests, Resolved(requests, entries[id], a))
  {
    assert Waiting(requests, id, entries[id]);
    var after, left := Resolved(requests, entries[id], a), entries - {id};
    forall other | other in left ensures Waiting(after, other, left[other]) {
      assert Waiting(requests, other, entries[other]);
    }
    forall t | 0 <= t < |after| && after[t].answer.None? ensures Lists(left, after[t].id, t) {
      assert Lists(entries, requests[t].id, t);
    }
  }

  lemma {:induction false} FewerEntries(entries: map<string, nat>, id: string)
    ensures |entries - {id}| <= |entries|
  {
    assert (entries - {id}).Keys == entries.Keys - {id};
  }

  /** Settling keeps the invariant, and its outcome is the answer of exactly the request it names. */
  lemma {:induction false} SettledKeeps(maxPending: nat, s: State, id: string, outcome: Outcome, actor: Actor)
    requires Good(maxPending, s) && AnswerOk(Answer(outcome, actor))
    ensures Good(maxPending, Settled(s, id, outcome, actor))
    ensures Grown(s.requests, Settled(s, id, outcome, actor).requests)
  {
    if id in s.entries {
      var t := s.entries[id];
      var after := Resolved(s.requests, t, Answer(outcome, actor));
      assert Waiting(s.requests, id, t);
      ResolvedEntries(s.requests, s.entries, s.postponed, id, Answer(outcome, actor));
      FewerEntries(s.entries, id);
      LedgerKept(s.requests, after, s.outcomes);
      RememberedOk(after, s.outcomes, Record(id, outcome, t));
    }
  }

  lemma {:induction false} RefusedKeeps(maxPending: nat, s: State, id: string, session: string, answer: Answer)
    requires Good(maxPending, s) && AnswerOk(answer)
    ensures Good(maxPending, Refused(s, id, session, answer))
    ensures Grown(s.requests, Refused(s, id, session, answer).requests)
  {
    var after := s.requests + [Request(id, session, Some(answer))];
    forall k | 0 <= k < |s.requests| ensures Later(s.requests[k], after[k]) {}
    LedgerKept(s.requests, after, s.outcomes);
    RememberedOk(after, s.outcomes, Record(id, answer.outcome, |s.requests|));
    forall other | other in s.entries ensures Waiting(after, other, s.entries[other]) {
      assert Waiting(s.requests, other, s.entries[other]);
    }
  }

  lemma {:induction false} AdmittedKeeps(maxPending: nat, s: State, id: string, session: string)
    requires Good(maxPending, s) && id !in s.entries && |s.entries| < maxPending
    ensures Good(maxPending, Admitted(s, id, session))
    ensures Grown(s.requests, Admitted(s, id, session).requests)
  {
    var u := Admitted(s, id, session);
    forall k | 0 <= k < |s.requests| ensures Later(s.requests[k], u.requests[k]) {}
    LedgerKept(s.requests, u.requests, s.outcomes);
    forall other | other in u.entries ensures Waiting(u.requests, other, u.entries[other]) {
      if other != id { assert Waiting(s.requests, other, s.entries[other]); }
    }
    forall t | 0 <= t < |u.requests| && u.requests[t].answer.None? ensures Lists(u.entries, u.requests[t].id, t) {
      if t < |s.requests| { assert Lists(s.entries, s.requests[t].id, t); }
    }
  }

  lemma {:induction false} RequestedKeeps(maxPending: nat, s: State, id: string, session: string, aborted: bool)
    requires Good(maxPending, s)
    ensures Good(maxPending, Requested(maxPending, s, id, session, aborted))
    ensures Grown(s.requests, Requested(maxPending, s, id, session, aborted).requests)
  {
    if aborted {
      RefusedKeeps(maxPending, s, id, session, Answer(Withdrawn, Turn));
    } else if |s.entries| >= maxPending || id in s.entries {
      RefusedKeeps(maxPending, s, id, session, Answer(Unavailable, Queue));
    } else {
      AdmittedKeeps(maxPending, s, id, session);
    }
  }

  // ---- The queue, in the order of admission ----

  /** The live requests among the first `n` ever made. */
  function LiveAmong(requests: seq<Request>, entries: map<string, nat>, n: nat): (r: seq<nat>)
    requires n <= |requests|
    ensures forall i :: 0 <= i < |r| ==> r[i] < n
  {
    if n == 0 then []
    else
      var rest := LiveAmong(requests, entries, n - 1);
      if Lists(entries, requests[n - 1].id, n - 1) then rest + [n - 1] else rest
  }

  /** entries.values(): a map keeps the order in which its keys were set, which is that of the requests. */
  function Queued(requests: seq<Request>, entries: map<string, nat>): (r: seq<nat>)
    ensures forall i :: 0 <= i < |r| ==> r[i] < |requests|
  {
    LiveAmong(requests, entries, |requests|)
  }

  lemma {:induction false} LiveAmongAll(requests: seq<Request>, entries: map<string, nat>, n: nat, t: nat)
    requires t < n <= |requests|
    ensures t in LiveAmong(requests, entries, n) <==> Lists(entries, requests[t].id, t)
  {
    var rest := LiveAmong(requests, entries, n - 1);
    if t < n - 1 { LiveAmongAll(requests, entries, n - 1, t); }
    if Lists(entries, requests[n - 1].id, n - 1) {
      assert (rest + [n - 1])[|rest|] == n - 1;
      assert t in rest + [n - 1] <==> t in rest || t == n - 1;
    }
  }

  /** The queue holds exactly the unanswered requests. */
  lemma {:induction false} QueuedAll(maxPending: nat, s: State, t: nat)
    requires Good(maxPending, s) && t < |s.requests|
    ensures t in Queued(s.requests, s.entries) <==> s.requests[t].answer.None?
  {
    LiveAmongAll(s.requests, s.entries, |s.requests|, t);
    if Lists(s.entries, s.requests[t].id, t) { assert Waiting(s.requests, s.requests[t].id, t); }
  }

  // ---- Every run ----

  datatype Step =
    | Ask(id: string, session: string, aborted: bool)
    | Decide(id: string, decision: Decision)
    | ClockRunsOut(id: string)
    | TurnAborts(id: string)
    | SettleAll(actor: Actor, scope: Option<string>)  // the person's "deny all", or the page
    | Defer(id: string)
    | Resume(id: string)
    | FocusSession(focus: Option<string>)
    | TakeOutcome(id: string)

  function OutcomeOf(decision: Decision): Outcome {
    if decision.Allow? then Allowed else Denied
  }

  function AllOutcome(actor: Actor): Outcome {
    if actor.Person? then Denied else Withdrawn
  }

  predicate InScope(requests: seq<Request>, t: nat, scope: Option<string>) {
    t < |requests| && (scope.None? || requests[t].session == scope.value)
  }

  /** One entry of settleAll. */
  function SettledOne(s: State, t: nat, actor: Actor, scope: Option<string>): State {
    if InScope(s.requests, t, scope) then Settled(s, s.requests[t].id, AllOutcome(actor), actor) else s
  }

  /** settleAll: the first `n` of the entries there were when it began. */
  function SettledFirst(s: State, queue: seq<nat>, n: nat, actor: Actor, scope: Option<string>): State
    requires n <= |queue|
  {
    if n == 0 then s else SettledOne(SettledFirst(s, queue, n - 1, actor, scope), queue[n - 1], actor, scope)
  }

  function SettledAll(s: State, actor: Actor, scope: Option<string>): State {
    var queue := Queued(s.requests, s.entries);
    SettledFirst(s, queue, |queue|, actor, scope)
  }

  function PutDown(s: State, id: string): State {
    if id in s.entries then s.(postponed := s.postponed + {id}) else s
  }

  function Do(maxPending: nat, s: State, step: Step): State {
    match step
    case Ask(id, session, aborted) => Requested(maxPending, s, id, session, aborted)
    case Decide(id, decision) => Settled(s, id, OutcomeOf(decision), Person)
    case ClockRunsOut(id) => Settled(s, id, Expired, Clock)
    case TurnAborts(id) => Settled(s, id, Withdrawn, Turn)
    case SettleAll(actor, scope) => SettledAll(s, actor, scope)
    case Defer(id) => PutDown(s, id)
    case Resume(id) => s.(postponed := s.postponed - {id})
    case FocusSession(session) => s.(focused := session)
    case TakeOutcome(id) => s.(outcomes := Taken(s.outcomes, id))
  }

  /** Only a person or the page settles everything. */
  predicate StepOk(step: Step) {
    step.SettleAll? ==> step.actor.Person? || step.actor.Page?
  }

  predicate Init(s: State) {
    s.requests == [] && s.entries == map[] && s.postponed == {} && s.outcomes == [] && s.announced == []
  }

  lemma {:induction false} SettledEntries(s: State, id: string, outcome: Outcome, actor: Actor, u: State)
    requires EntriesOk(s.requests, s.entries, s.postponed) && u == Settled(s, id, outcome, actor)
    ensures EntriesOk(u.requests, u.entries, u.postponed) && Grown(s.requests, u.requests)
  {
    if id in s.entries { ResolvedEntries(s.requests, s.entries, s.postponed, id, Answer(outcome, actor)); }
  }

  lemma {:induction false} SettledOneKeeps(maxPending: nat, s: State, t: nat, actor: Actor, scope: Option<string>)
    requires Good(maxPending, s) && (actor.Person? || actor.Page?)
    ensures Good(maxPending, SettledOne(s, t, actor, scope))
    ensures Grown(s.requests, SettledOne(s, t, actor, scope).requests)
  {
    if InScope(s.requests, t, scope) { SettledKeeps(maxPending, s, s.requests[t].id, AllOutcome(actor), actor); }
  }

  lemma {:induction false} SettledFirstKeeps(maxPending: nat, s: State, queue: seq<nat>, n: nat, actor: Actor,
        scope: Option<string>)
    requires Good(maxPending, s) && n <= |queue| && (actor.Person? || actor.Page?)
    ensures Good(maxPending, SettledFirst(s, queue, n, actor, scope))
    ensures Grown(s.requests, SettledFirst(s, queue, n, actor, scope).requests)
  {
    if n > 0 {
      var before := SettledFirst(s, queue, n - 1, actor, scope);
      SettledFirstKeeps(maxPending, s, queue, n - 1, actor, scope);
      SettledOneKeeps(maxPending, before, queue[n - 1], actor, scope);
      GrownTwice(s.requests, before.requests, SettledFirst(s, queue, n, actor, scope).requests);
    }
  }

  lemma {:induction false} SettledAllKeeps(maxPending: nat, s: State, actor: Actor, scope: Option<string>)
    requires Good(maxPending, s) && (actor.Person? || actor.Page?)
    ensures Good(maxPending, SettledAll(s, actor, scope))
    ensures Grown(s.requests, SettledAll(s, actor, scope).requests)
  {
    var queue := Queued(s.requests, s.entries);
    SettledFirstKeeps(maxPending, s, queue, |queue|, actor, scope);
  }

  lemma {:induction false} PutDownKeeps(maxPending: nat, s: State, id: string)
    requires Good(maxPending, s)
    ensures Good(maxPending, PutDown(s, id)) && PutDown(s, id).requests == s.requests
  {
  }

  lemma {:induction false} TakenUpKeeps(maxPending: nat, s: State, id: string)
    requires Good(maxPending, s)
    ensures Good(maxPending, s.(postponed := s.postponed - {id}))
  {
  }

  lemma {:induction false} TakenKeeps(maxPending: nat, s: State, id: string)
    requires Good(maxPending, s)
    ensures Good(maxPending, s.(outcomes := Taken(s.outcomes, id)))
  {
    TakenOk(s.requests, s.outcomes, id);
  }

  lemma {:induction false} GrownSame(requests: seq<Request>)
    ensures Grown(requests, requests)
  {
  }

  /** What each step but an ask does with the requests and the queue. */
  lemma {:induction false} AnswerKeeps(maxPending: nat, s: State, step: Step)
    requires Good(maxPending, s) && (step.Decide? || step.ClockRunsOut? || step.TurnAborts?)
    ensures Good(maxPending, Do(maxPending, s, step))
    ensures Grown(s.requests, Do(maxPending, s, step).requests)
  {
    match step
    case Decide(id, decision) => SettledKeeps(maxPending, s, id, OutcomeOf(decision), Person);
    case ClockRunsOut(id) => SettledKeeps(maxPending, s, id, Expired, Clock);
    case TurnAborts(id) => SettledKeeps(maxPending, s, id, Withdrawn, Turn);
  }

  lemma {:induction false} QuietKeeps(maxPending: nat, s: State, step: Step)
    requires Good(maxPending, s) && (step.Defer? || step.Resume? || step.FocusSession? || step.TakeOutcome?)
    ensures Good(maxPending, Do(maxPending, s, step))
    ensures Do(maxPending, s, step).requests == s.requests
  {
    match step
    case Defer(id) => PutDownKeeps(maxPending, s, id);
    case Resume(id) => TakenUpKeeps(maxPending, s, id);
    case FocusSession(_) =>
    case TakeOutcome(id) => TakenKeeps(maxPending, s, id);
  }

  /** Every step keeps the invariant, and no step touches an answer once given. */
  lemma {:induction false} StepKeeps(maxPending: nat, s: State, step: Step)
    requires Good(maxPending, s) && StepOk(step)
    ensures Good(maxPending, Do(maxPending, s, step))
    ensures Grown(s.requests, Do(maxPending, s, step).requests)
  {
    if step.Ask? {
      RequestedKeeps(maxPending, s, step.id, step.session, step.aborted);
    } else if step.SettleAll? {
      SettledAllKeeps(maxPending, s, step.actor, step.scope);
    } else if step.Decide? || step.ClockRunsOut? || step.TurnAborts? {
      AnswerKeeps(maxPending, s, step);
    } else {
      QuietKeeps(maxPending, s, step);
      GrownSame(s.requests);
    }
  }

  ghost predicate Behaviour(maxPending: nat, trace: seq<State>, steps: seq<Step>) {
    && |trace| == |steps| + 1 && Init(trace[0])
    && forall k :: 0 <= k < |steps| ==> StepOk(steps[k]) && trace[k + 1] == Do(maxPending, trace[k], steps[k])
  }

  lemma {:induction false} Reachable(maxPending: nat, trace: seq<State>, steps: seq<Step>, k: nat)
    requires Behaviour(maxPending, trace, steps) && k < |trace|
    ensures Good(maxPending, trace[k])
  {
    if k > 0 {
      Reachable(maxPending, trace, steps, k - 1);
      assert trace[(k - 1) + 1] == Do(maxPending, trace[k - 1], steps[k - 1]);
      StepKeeps(maxPending, trace[k - 1], steps[k - 1]);
    }
  }

  lemma {:induction false} StepOfTrace(maxPending: nat, trace: seq<State>, steps: seq<Step>, k: nat)
    requires Behaviour(maxPending, trace, steps) && k < |steps|
    ensures Grown(trace[k].requests, trace[k + 1].requests)
  {
    Reachable(maxPending, trace, steps, k);
    StepKeeps(maxPending, trace[k], steps[k]);
  }

  /** Over every run a request resolves at most once. */
  lemma {:induction false} AnswersStay(maxPending: nat, trace: seq<State>, steps: seq<Step>, k: nat, m: nat)
    requires Behaviour(maxPending, trace, steps) && k <= m < |trace|
    ensures Grown(trace[k].requests, trace[m].requests)
  {
    if k < m {
      AnswersStay(maxPending, trace, steps, k, m - 1);
      StepOfTrace(maxPending, trace, steps, m - 1);
      GrownTwice(trace[k].requests, trace[m - 1].requests, trace[m].requests);
    }
  }

  /** Settling an id answers the live request of that id and no other. */
  lemma {:induction false} SettledAllows(s: State, id: string, outcome: Outcome, actor: Actor, t: nat)
    requires EntriesOk(s.requests, s.entries, s.postponed) && t < |s.requests| && s.requests[t].answer.None?
    ensures |Settled(s, id, outcome, actor).requests| == |s.requests|
    ensures Settled(s, id, outcome, actor).requests[t].answer ==
            if s.requests[t].id == id then Some(Answer(outcome, actor)) else None
  {
    assert Lists(s.entries, s.requests[t].id, t);
    if id in s.entries { assert Waiting(s.requests, id, s.entries[id]); }
  }

  /**
   * In every reachable state an unanswered request can be answered at once: by a person either
   * way, by the clock, or by its turn; the step is always there to be taken.
   */
  lemma {:induction false} LiveCanSettle(maxPending: nat, trace: seq<State>, steps: seq<Step>, k: nat, t: nat,
        decision: Decision)
    requires Behaviour(maxPending, trace, steps) && k < |trace|
    requires t < |trace[k].requests| && trace[k].requests[t].answer.None?
    ensures Answered(Do(maxPending, trace[k], Decide(trace[k].requests[t].id, decision)), t,
                     Answer(OutcomeOf(decision), Person))
    ensures Answered(Do(maxPending, trace[k], ClockRunsOut(trace[k].requests[t].id)), t, Answer(Expired, Clock))
    ensures Answered(Do(maxPending, trace[k], TurnAborts(trace[k].requests[t].id)), t, Answer(Withdrawn, Turn))
  {
    Reachable(maxPending, trace, steps, k);
    SettlesNow(maxPending, trace[k], t, OutcomeOf(decision), Person);
    SettlesNow(maxPending, trace[k], t, Expired, Clock);
    SettlesNow(maxPending, trace[k], t, Withdrawn, Turn);
  }

  predicate Answered(s: State, t: nat, a: Answer) {
    t < |s.requests| && s.requests[t].answer == Some(a)
  }

  lemma {:induction false} SettlesNow(maxPending: nat, s: State, t: nat, outcome: Outcome, actor: Actor)
    requires Good(maxPending, s) && t < |s.requests| && s.requests[t].answer.None?
    ensures Answered(Settled(s, s.requests[t].id, outcome, actor), t, Answer(outcome, actor))
  {
    SettledAllows(s, s.requests[t].id, outcome, actor, t);
  }

  predicate Reached(queue: seq<nat>, n: nat, t: nat)
    requires n <= |queue|
  {
    n > 0 && (queue[n - 1] == t || Reached(queue, n - 1, t))
  }

  lemma {:induction false} ReachedAll(queue: seq<nat>, n: nat, t: nat)
    requires n <= |queue|
    ensures Reached(queue, n, t) <==> t in queue[..n]
  {
    if n > 0 {
      ReachedAll(queue, n - 1, t);
      assert queue[..n] == queue[..n - 1] + [queue[n - 1]];
    }
  }

  lemma {:induction false} SettledOneAnswers(s: State, h: nat, actor: Actor, scope: Option<string>, t: nat, u: State)
    requires EntriesOk(s.requests, s.entries, s.postponed) && t < |s.requests| && h < |s.requests|
    requires u == SettledOne(s, h, actor, scope)
    ensures EntriesOk(u.requests, u.entries, u.postponed) && Grown(s.requests, u.requests)
    ensures u.requests[t].answer ==
            if s.requests[t].answer.None? && InScope(s.requests, h, scope) && s.requests[t].id == s.requests[h].id
            then Some(Answer(AllOutcome(actor), actor)) else s.requests[t].answer
  {
    if InScope(s.requests, h, scope) {
      SettledEntries(s, s.requests[h].id, AllOutcome(actor), actor, u);
      if s.requests[t].answer.None? { SettledAllows(s, s.requests[h].id, AllOutcome(actor), actor, t); }
    } else {
      GrownSame(s.requests);
    }
    assert Later(s.requests[t], u.requests[t]);
  }

  lemma {:induction false} SettledFirstAnswers(s: State, queue: seq<nat>, n: nat, actor: Actor, scope: Option<string>,
        t: nat)
      returns (u: State)
    requires EntriesOk(s.requests, s.entries, s.postponed) && n <= |queue|
    requires t < |s.requests| && s.requests[t].answer.None?
    requires forall i :: 0 <= i < n ==> queue[i] < |s.requests| && s.requests[queue[i]].answer.None?
    ensures u == SettledFirst(s, queue, n, actor, scope)
    ensures EntriesOk(u.requests, u.entries, u.postponed) && Grown(s.requests, u.requests)
    ensures u.requests[t].answer ==
            if InScope(s.requests, t, scope) && Reached(queue, n, t)
            then Some(Answer(AllOutcome(actor), actor)) else None
  {
    if n == 0 {
      u := s;
      GrownSame(s.requests);
    } else {
      var h := queue[n - 1];
      var before := SettledFirstAnswers(s, queue, n - 1, actor, scope, t);
      u := SettledFirst(s, queue, n, actor, scope);
      assert Later(s.requests[t], before.requests[t]) && Later(s.requests[h], before.requests[h]);
      assert Lists(s.entries, s.requests[t].id, t) && Lists(s.entries, s.requests[h].id, h);
      SettledOneAnswers(before, h, actor, scope, t, u);
      GrownTwice(s.requests, before.requests, u.requests);
    }
  }

  /**
   * settleAll answers every live request in its scope, and no other: a refusal if a person did
   * it, withdrawn if the page did.
   */
  lemma {:induction false} SettledAllAnswers(maxPending: nat, s: State, actor: Actor, scope: Option<string>, t: nat)
    requires Good(maxPending, s) && t < |s.requests| && s.requests[t].answer.None?
    ensures t < |SettledAll(s, actor, scope).requests|
    ensures SettledAll(s, actor, scope).requests[t].answer ==
            if InScope(s.requests, t, scope) then Some(Answer(AllOutcome(actor), actor)) else None
  {
    var queue := Queued(s.requests, s.entries);
    forall i | 0 <= i < |queue| ensures queue[i] < |s.requests| && s.requests[queue[i]].answer.None? {
      QueuedAll(maxPending, s, queue[i]);
    }
    QueuedAll(maxPending, s, t);
    ReachedAll(queue, |queue|, t);
    assert queue[..|queue|] == queue;
    var u := SettledFirstAnswers(s, queue, |queue|, actor, scope, t);
  }

  lemma {:induction false} SettledFirstCount(s: State, queue: seq<nat>, n: nat, actor: Actor, scope: Option<string>)
    requires n <= |queue|
    ensures |SettledFirst(s, queue, n, actor, scope).requests| == |s.requests|
  {
    if n > 0 { SettledFirstCount(s, queue, n - 1, actor, scope); }
  }

  lemma {:induction false} NewOnesAreAsked(maxPending: nat, s: State, step: Step)
    ensures |Do(maxPending, s, step).requests| == |s.requests| + if step.Ask? then 1 else 0
    ensures step.Ask? ==> Do(maxPending, s, step).requests[|s.requests|].answer in
                            {None, Some(Answer(Withdrawn, Turn)), Some(Answer(Unavailable, Queue))}
  {
    if step.SettleAll? {
      var queue := Queued(s.requests, s.entries);
      SettledFirstCount(s, queue, |queue|, step.actor, step.scope);
    }
  }

  /**
   * A request that comes out allowed does so in one step only: a person deciding "allow" on
   * it while it is live. Every other way of settling it closes the gate.
   */
  lemma {:induction false} OnlyDecideAllows(maxPending: nat, s: State, step: Step, t: nat)
    requires Good(maxPending, s) && StepOk(step)
    requires t < |Do(maxPending, s, step).requests| && Do(maxPending, s, step).requests[t].answer.Some?
    requires t < |s.requests| ==> s.requests[t].answer.None?
    requires Gate(Do(maxPending, s, step).requests[t].answer.value.outcome) == Allow
    ensures t < |s.requests| && Lists(s.entries, s.requests[t].id, t) && step == Decide(s.requests[t].id, Allow)
  {
    NewOnesAreAsked(maxPending, s, step);
    if t < |s.requests| {
      assert Lists(s.entries, s.requests[t].id, t);
      match step
      case Decide(id, decision) => SettledAllows(s, id, OutcomeOf(decision), Person, t);
      case ClockRunsOut(id) => SettledAllows(s, id, Expired, Clock, t);
      case TurnAborts(id) => SettledAllows(s, id, Withdrawn, Turn, t);
      case SettleAll(actor, scope) => SettledAllAnswers(maxPending, s, actor, scope, t);
      case _ =>
    }
  }

  // ---- What is shown ----

  /** Live requests that are put down for later, or that are not, in order. */
  function Showing(requests: seq<Request>, queue: seq<nat>, n: nat, postponed: set<string>, later: bool): (r: seq<nat>)
    requires n <= |queue|
  {
    if n == 0 then []
    else
      var rest, last := Showing(requests, queue, n - 1, postponed, later), queue[n - 1];
      if IsPostponed(requests, last, postponed) == later then rest + [last] else rest
  }

  predicate IsPostponed(requests: seq<Request>, t: nat, postponed: set<string>) {
    t < |requests| && requests[t].id in postponed
  }

  lemma {:induction false} PartitionGrows(a: seq<nat>, b: seq<nat>, all: seq<nat>, t: nat)
    requires multiset(a) + multiset(b) == multiset(all)
    ensures multiset(a + [t]) + multiset(b) == multiset(all + [t])
    ensures multiset(a) + multiset(b + [t]) == multiset(all + [t])
  {
    PushCounts(a, t);
    PushCounts(b, t);
    PushCounts(all, t);
  }

  lemma {:induction false} PushCounts(s: seq<nat>, t: nat)
    ensures multiset(s + [t]) == multiset(s) + multiset{t}
  {
  }

  function FirstOf(queue: seq<nat>, n: nat): seq<nat>
    requires n <= |queue|
  {
    if n == 0 then [] else FirstOf(queue, n - 1) + [queue[n - 1]]
  }

  lemma {:induction false} FirstOfAll(queue: seq<nat>, n: nat)
    requires n <= |queue|
    ensures FirstOf(queue, n) == queue[..n]
  {
    if n > 0 {
      FirstOfAll(queue, n - 1);
      assert queue[..n] == queue[..n - 1] + [queue[n - 1]];
    }
  }

  lemma {:induction false} ShowingPartitions(requests: seq<Request>, queue: seq<nat>, n: nat, postponed: set<string>)
    requires n <= |queue|
    ensures multiset(Showing(requests, queue, n, postponed, false))
            + multiset(Showing(requests, queue, n, postponed, true)) == multiset(FirstOf(queue, n))
  {
    if n > 0 {
      ShowingPartitions(requests, queue, n - 1, postponed);
      PartitionGrows(Showing(requests, queue, n - 1, postponed, false),
                     Showing(requests, queue, n - 1, postponed, true), FirstOf(queue, n - 1), queue[n - 1]);
    }
  }

  /** Pending and deferred partition the live requests. */
  lemma {:induction false} SnapshotPartitions(requests: seq<Request>, queue: seq<nat>, postponed: set<string>)
    ensures multiset(Showing(requests, queue, |queue|, postponed, false))
            + multiset(Showing(requests, queue, |queue|, postponed, true)) == multiset(queue)
  {
    ShowingPartitions(requests, queue, |queue|, postponed);
    FirstOfAll(queue, |queue|);
    assert queue[..|queue|] == queue;
  }

  lemma {:induction false} ShowingSorts(requests: seq<Request>, queue: seq<nat>, n: nat, postponed: set<string>,
        later: bool, i: nat)
    requires n <= |queue| && i < |Showing(requests, queue, n, postponed, later)|
    ensures IsPostponed(requests, Showing(requests, queue, n, postponed, later)[i], postponed) == later
  {
    if i < |Showing(requests, queue, n - 1, postponed, later)| {
      ShowingSorts(requests, queue, n - 1, postponed, later, i);
    }
  }
}
