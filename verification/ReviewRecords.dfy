/** What reviews record about how a request came out (src/approvals/modes.ts:68-152, 193-243). */
module ReviewRecords {
  import opened Messages
  import opened Broker
  import opened OutcomeLedger

  datatype ApprovalMode = AskFirst | AutoApprove | FullAccess

  datatype Effect = Read | Write | Network | Execute | Identity

  datatype Source = AutomaticRead | BoundedSandbox | Human | HumanFallback | Unattended

  /** Allowed without asking, or asked, with the source to name if a person answers. */
  datatype Route = WithoutAsking(source: Source) | Asking(answered: Source)

  /** The branches of createApprovalModePolicy's review. */
  function ModeRoute(mode: ApprovalMode, effect: Effect, namesFolder: bool): Route {
    if effect.Read? then WithoutAsking(AutomaticRead)
    else if !mode.AskFirst? && namesFolder then Asking(HumanFallback)
    else if mode.FullAccess? then WithoutAsking(BoundedSandbox)
    else if mode.AskFirst? then Asking(Human)
    else if effect.Write? then WithoutAsking(BoundedSandbox)
    else Asking(HumanFallback)
  }

  /** The branches of decideHumanIntent, for an effect the person proposed. */
  function IntentRoute(mode: ApprovalMode, effect: Effect, namesFolder: bool): Route {
    var folderReview := mode.FullAccess? && !effect.Read? && namesFolder;
    if mode.FullAccess? && !folderReview then WithoutAsking(BoundedSandbox)
    else Asking(if folderReview then HumanFallback else Human)
  }

  /** What runs without a person being asked, exactly: never an effect on an attached folder, save a read. */
  lemma {:induction false} UnaskedEffects(mode: ApprovalMode, effect: Effect, namesFolder: bool)
    ensures ModeRoute(mode, effect, namesFolder).WithoutAsking? <==>
              effect.Read? || (!namesFolder && (mode.FullAccess? || (mode.AutoApprove? && effect.Write?)))
    ensures IntentRoute(mode, effect, namesFolder).WithoutAsking? <==>
            mode.FullAccess? && (effect.Read? || !namesFolder)
    ensures IntentRoute(mode, effect, namesFolder).WithoutAsking? ==>
            ModeRoute(mode, effect, namesFolder).WithoutAsking?
  {
  }

  /** The outcome a review reads back: the record under the id, or else the bare decision. */
  function ReadBack(s: State, t: nat): Outcome
    requires t < |s.requests| && s.requests[t].answer.Some?
  {
    match Find(s.outcomes, s.requests[t].id)
    case Some(i) => s.outcomes[i].outcome
    case None => OutcomeOf(Gate(s.requests[t].answer.value.outcome))
  }

  function SourceNamed(s: State, t: nat, answered: Source): Source
    requires t < |s.requests| && s.requests[t].answer.Some?
  {
    if WasAnswered(ReadBack(s, t)) then answered else Unattended
  }

  predicate DecidedByPerson(s: State, t: nat) {
    t < |s.requests| && s.requests[t].answer.Some? && s.requests[t].answer.value.actor.Person?
  }

  /** A review that finds its own record names a person exactly when a person decided. */
  lemma {:induction false} OwnRecordIsTruthful(maxPending: nat, s: State, t: nat, answered: Source, i: nat)
    requires Good(maxPending, s) && t < |s.requests| && s.requests[t].answer.Some? && !answered.Unattended?
    requires i < |s.outcomes| && s.outcomes[i].request == t
    ensures SourceNamed(s, t, answered) == answered <==> DecidedByPerson(s, t)
  {
    assert RecordOk(s.requests, s.outcomes[i]);
    Found(s.outcomes, i);
  }

  /** The source a review of a model's call records: it reads the outcome of request `t` if it asked. */
  function SourceRecorded(route: Route, s: State, t: nat): Source
    requires t < |s.requests| && s.requests[t].answer.Some?
  {
    match route
    case WithoutAsking(source) => source
    case Asking(answered) => SourceNamed(s, t, answered)
  }

  /**
   * What each source on record says, if the request's own record is read: of the mode, of the
   * effect and its target, and of who decided.
   */
  lemma {:induction false} SourceExactly(maxPending: nat, s: State, t: nat, i: nat, mode: ApprovalMode,
        effect: Effect, namesFolder: bool)
    requires Good(maxPending, s) && t < |s.requests| && s.requests[t].answer.Some?
    requires i < |s.outcomes| && s.outcomes[i].request == t
    ensures var source := SourceRecorded(ModeRoute(mode, effect, namesFolder), s, t);
            && (source.AutomaticRead? <==> effect.Read?)
            && (source.BoundedSandbox? <==>
                !effect.Read? && !namesFolder && (mode.FullAccess? || (mode.AutoApprove? && effect.Write?)))
            && (source.Human? <==> !effect.Read? && mode.AskFirst? && DecidedByPerson(s, t))
            && (source.HumanFallback? <==>
                && !effect.Read? && !mode.AskFirst? && DecidedByPerson(s, t)
                && (namesFolder || (mode.AutoApprove? && !effect.Write?)))
    ensures var source := SourceRecorded(IntentRoute(mode, effect, namesFolder), s, t);
            && !source.AutomaticRead?
            && (source.BoundedSandbox? <==> mode.FullAccess? && (effect.Read? || !namesFolder))
            && (source.Human? <==> !mode.FullAccess? && DecidedByPerson(s, t))
            && (source.HumanFallback? <==>
                mode.FullAccess? && !effect.Read? && namesFolder && DecidedByPerson(s, t))
  {
    OwnRecordIsTruthful(maxPending, s, t, Human, i);
    OwnRecordIsTruthful(maxPending, s, t, HumanFallback, i);
  }

  /**
   * A review of a request that no person decided names a person all the same exactly when the
   * record under its id is gone, or is another request's, which a person did decide.
   */
  lemma {:induction false} FalseSourceExactly(maxPending: nat, s: State, t: nat, answered: Source)
    requires Good(maxPending, s) && t < |s.requests| && s.requests[t].answer.Some? && !answered.Unattended?
    requires !DecidedByPerson(s, t)
    ensures SourceNamed(s, t, answered) == answered <==>
            match Find(s.outcomes, s.requests[t].id)
            case None => true
            case Some(i) => s.outcomes[i].request != t && DecidedByPerson(s, s.outcomes[i].request)
  {
    match Find(s.outcomes, s.requests[t].id)
    case None =>
    case Some(i) => assert RecordOk(s.requests, s.outcomes[i]);
  }

  /** While a request's own record is on the ledger, it is what a review finds under its id. */
  lemma {:induction false} OwnRecordIsFound(maxPending: nat, s: State, t: nat, r: Record)
    requires Good(maxPending, s) && t < |s.requests| && RecordOk(s.requests, r) && r.request == t
    ensures r in s.outcomes <==> Find(s.outcomes, s.requests[t].id).Some? &&
                                 s.outcomes[Find(s.outcomes, s.requests[t].id).value].request == t
  {
    if r in s.outcomes {
      var i :| 0 <= i < |s.outcomes| && s.outcomes[i] == r;
      assert RecordOk(s.requests, s.outcomes[i]);
      Found(s.outcomes, i);
    }
    match Find(s.outcomes, s.requests[t].id)
    case None =>
    case Some(i) => assert RecordOk(s.requests, s.outcomes[i]);
  }

  /**
   * Over every run from the moment a request's record was on the ledger: a review of it names a
   * person where none decided exactly when some operation since did not keep the record, and the
   * id is now free or stands for another request, which a person did decide.
   */
  lemma {:induction false} FalseSourceOverRuns(maxPending: nat, trace: seq<State>, steps: seq<Step>, m: nat, k: nat,
        r: Record, answered: Source)
    requires Behaviour(maxPending, trace, steps) && m <= k < |trace| && !answered.Unattended?
    requires r in trace[m].outcomes && r.request < |trace[k].requests| && trace[k].requests[r.request].answer.Some?
    requires !DecidedByPerson(trace[k], r.request)
    ensures SourceNamed(trace[k], r.request, answered) == answered <==>
            && !KeptThrough(trace[m].outcomes, r, LogBetween(maxPending, trace, steps, m, k))
            && match Find(trace[k].outcomes, trace[k].requests[r.request].id)
               case None => true
               case Some(i) => DecidedByPerson(trace[k], trace[k].outcomes[i].request)
  {
    assert Good(maxPending, trace[k]) by { Reachable(maxPending, trace, steps, k); }
    assert RecordOk(trace[k].requests, r) by { RecordStaysOk(maxPending, trace, steps, m, k, r); }
    OnRecordExactly(maxPending, trace, steps, m, k, r);
    OwnRecordIsFound(maxPending, trace[k], r.request, r);
    FalseSourceExactly(maxPending, trace[k], r.request, answered);
  }

  lemma {:induction false} RecordStaysOk(maxPending: nat, trace: seq<State>, steps: seq<Step>, m: nat, k: nat,
        r: Record)
    requires Behaviour(maxPending, trace, steps) && m <= k < |trace| && r in trace[m].outcomes
    ensures RecordOk(trace[k].requests, r)
  {
    assert RecordOk(trace[m].requests, r) by {
      Reachable(maxPending, trace, steps, m);
      OnLedger(maxPending, trace[m], r);
    }
    AnswersStay(maxPending, trace, steps, m, k);
    assert Later(trace[m].requests[r.request], trace[k].requests[r.request]);
  }

  // ---- A run in which a record is gone ----

  function Id(n: nat): string {
    seq(n, _ => 'x')
  }

  /** `n` requests of turns already aborted, each under an id of its own. */
  function Flooded(maxPending: nat, s: State, n: nat): State {
    if n == 0 then s else Do(maxPending, Flooded(maxPending, s, n - 1), Ask(Id(n), "other", true))
  }

  /** A ledger of `r`, and then the floods' records, from the first. */
  predicate Filled(outcomes: seq<Record>, r: Record, n: nat) {
    && |outcomes| == n + 1 && outcomes[0] == r
    && forall j :: 1 <= j <= n ==> outcomes[j].id == Id(j)
  }

  lemma {:induction false} FilledOneMore(outcomes: seq<Record>, r: Record, n: nat, next: Record)
    requires Filled(outcomes, r, n) && r.id == Id(0) && n + 1 < MAX_SETTLED_OUTCOMES && next.id == Id(n + 1)
    ensures Filled(Remembered(outcomes, next), r, n + 1)
  {
    forall j | 0 <= j <= n ensures outcomes[j].id != next.id { assert |outcomes[j].id| == j && |Id(n + 1)| == n + 1; }
    assert Find(outcomes, next.id).None?;
  }

  lemma {:induction false} FloodFills(maxPending: nat, s: State, r: Record, n: nat)
    requires s.outcomes == [r] && r.id == Id(0) && n < MAX_SETTLED_OUTCOMES
    ensures Filled(Flooded(maxPending, s, n).outcomes, r, n)
    ensures s.requests <= Flooded(maxPending, s, n).requests
  {
    if n > 0 {
      FloodFills(maxPending, s, r, n - 1);
      var before := Flooded(maxPending, s, n - 1);
      FilledOneMore(before.outcomes, r, n - 1, Record(Id(n), Withdrawn, |before.requests|));
    }
  }

  /**
   * 257 requests of turns already aborted, asked one right after the other: each is answered as
   * it is asked, before the review of any of them goes on.
   */
  function EvictingRun(maxPending: nat, first: State): State {
    Flooded(maxPending, Do(maxPending, first, Ask(Id(0), "one", true)), MAX_SETTLED_OUTCOMES)
  }

  lemma {:induction false} OldestDropped(full: seq<Record>, first: Record, r: Record)
    requires Filled(full, first, MAX_SETTLED_OUTCOMES - 1) && r.id == Id(MAX_SETTLED_OUTCOMES)
    ensures Find(Remembered(full, r), Id(0)).None?
  {
    var after := Remembered(full, r);
    forall i | 0 <= i < |after| ensures after[i].id != Id(0) {
      if i < |full| - 1 { assert full[1..][i].id == Id(i + 1); }
      assert |Id(0)| == 0 && |Id(i + 1)| == i + 1;
    }
  }

  lemma {:induction false} WithdrawnFirst(maxPending: nat, first: State) returns (s: State)
    requires Init(first)
    ensures s == Do(maxPending, first, Ask(Id(0), "one", true))
    ensures s.requests == [Request(Id(0), "one", Some(Answer(Withdrawn, Turn)))]
    ensures s.outcomes == [Record(Id(0), Withdrawn, 0)]
  {
    s := Do(maxPending, first, Ask(Id(0), "one", true));
    assert Find([], Id(0)).None?;
  }

  /**
   * Such a run drops the first request's record as the oldest, and its review files a person's
   * refusal that no person made.
   */
  lemma {:induction false} EvictedRecordNamesAPerson(maxPending: nat, first: State)
    requires Init(first)
    ensures |EvictingRun(maxPending, first).requests| > 0
    ensures EvictingRun(maxPending, first).requests[0].answer == Some(Answer(Withdrawn, Turn))
    ensures SourceNamed(EvictingRun(maxPending, first), 0, Human) == Human
    ensures !DecidedByPerson(EvictingRun(maxPending, first), 0)
  {
    var s := WithdrawnFirst(maxPending, first);
    var last := MAX_SETTLED_OUTCOMES - 1;
    FloodFills(maxPending, s, Record(Id(0), Withdrawn, 0), last);
    var full, after := Flooded(maxPending, s, last), EvictingRun(maxPending, first);
    assert after == Refused(full, Id(MAX_SETTLED_OUTCOMES), "other", Answer(Withdrawn, Turn));
    assert after.requests[0] == full.requests[0] == s.requests[0];
    OldestDropped(full.outcomes, Record(Id(0), Withdrawn, 0),
        Record(Id(MAX_SETTLED_OUTCOMES), Withdrawn, |full.requests|));
  }

  // ---- A run in which the id stands for another request ----

  /**
   * A request the clock runs out on, and one more under the same id that a person denies: before
   * the review of the first goes on if a listener of the broker asks and decides at once.
   */
  function RepeatingRun(maxPending: nat, first: State): State {
    var expired := Do(maxPending, Do(maxPending, first, Ask("a", "one", false)), ClockRunsOut("a"));
    Do(maxPending, Do(maxPending, expired, Ask("a", "one", false)), Decide("a", Deny))
  }

  /** The review of the first then files the refusal of the second, which was another question. */
  lemma {:induction false} RepeatedIdNamesAPerson(maxPending: nat, first: State)
    requires Init(first) && maxPending >= 1
    ensures RepeatingRun(maxPending, first).requests ==
            [Request("a", "one", Some(Answer(Expired, Clock))), Request("a", "one", Some(Answer(Denied, Person)))]
    ensures SourceNamed(RepeatingRun(maxPending, first), 0, Human) == Human
    ensures !DecidedByPerson(RepeatingRun(maxPending, first), 0)
  {
    var asked := Do(maxPending, first, Ask("a", "one", false));
    assert asked == Admitted(first, "a", "one");
    var expired := Do(maxPending, asked, ClockRunsOut("a"));
    assert Find([], "a").None?;
    assert expired.outcomes == [Record("a", Expired, 0)] && expired.entries == map[];
    assert expired.requests == [Request("a", "one", Some(Answer(Expired, Clock)))];
    var again := Do(maxPending, expired, Ask("a", "one", false));
    assert again == Admitted(expired, "a", "one");
    var s := Do(maxPending, again, Decide("a", Deny));
    assert Find([Record("a", Expired, 0)], "a") == Some(0);
    assert s.outcomes == [Record("a", Denied, 1)];
    assert s.requests == again.requests[1 := again.requests[1].(answer := Some(Answer(Denied, Person)))];
    assert Find(s.outcomes, "a") == Some(0);
  }
}
