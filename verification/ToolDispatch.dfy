/** One step's tool calls: review in order, overlap only reads, record in order (src/core/agent.ts:589-792). */
module ToolDispatch {
  import opened Messages
  import opened TurnJournal
  import opened TurnProtocol

  /** What the review of a call came to. */
  datatype Verdict =
    | UnknownTool
    | ReviewThrew(error: string)
    | Refusal
    | Allowed

  /** The step's environment: declared effects, reviews, and what each execution gave. */
  datatype Tools = Tools(isRead: Call -> bool, review: Call -> Verdict, outcome: Call -> string)

  /** The maximal run of reads at `cursor`, or exactly one call. */
  method ReadEffectBatch(calls: seq<Call>, cursor: nat, tools: Tools) returns (batch: seq<Call>)
    requires cursor < |calls|
    ensures 0 < |batch| <= |calls| - cursor && batch == calls[cursor..cursor + |batch|]
    ensures |batch| > 1 ==> forall k :: 0 <= k < |batch| ==> tools.isRead(batch[k])
    ensures tools.isRead(calls[cursor]) ==>
              (forall k :: 0 <= k < |batch| ==> tools.isRead(batch[k]))
              && (cursor + |batch| < |calls| ==> !tools.isRead(calls[cursor + |batch|]))
  {
    var end := cursor;
    while end < |calls| && tools.isRead(calls[end])
      invariant cursor <= end <= |calls|
      invariant forall k :: cursor <= k < end ==> tools.isRead(calls[k])
    {
      end := end + 1;
    }
    batch := if end > cursor then calls[cursor..end] else [calls[cursor]];
  }

  /** What the loop remembers after making these appends, or None when one is out of turn. */
  function AfterAll(l: Local, log: seq<Write>): Option<Local> {
    if log == [] then Some(l)
    else match AfterAll(l, log[..|log| - 1])
      case None => None
      case Some(m) => After(m, log[|log| - 1])
  }

  lemma {:induction false} AfterOne(l: Local, log: seq<Write>, w: Write)
    ensures AfterAll(l, log + [w]) == match AfterAll(l, log) case None => None case Some(m) => After(m, w)
  {
    assert (log + [w])[..|log|] == log;
  }

  function Refused(call: Call, verdict: Verdict): string {
    match verdict
    case UnknownTool => "Unknown tool: " + call.name + "."
    case ReviewThrew(error) => error
    case _ => "Permission denied for " + call.name + "."
  }

  /** What a call comes to: the outcome of its execution, or why there was none. */
  function ResultOf(call: Call, tools: Tools): string {
    var verdict := tools.review(call);
    if verdict.Allowed? then tools.outcome(call) else Refused(call, verdict)
  }

  /** The calls that pass their review, in call order. */
  function AdmittedOf(calls: seq<Call>, tools: Tools): seq<Call> {
    if calls == [] then []
    else
      var last := calls[|calls| - 1];
      AdmittedOf(calls[..|calls| - 1], tools) + if tools.review(last).Allowed? then [last] else []
  }

  lemma {:induction false} AdmittedOne(calls: seq<Call>, call: Call, tools: Tools)
    ensures AdmittedOf(calls + [call], tools)
            == AdmittedOf(calls, tools) + if tools.review(call).Allowed? then [call] else []
  {
    assert (calls + [call])[..|calls|] == calls;
  }

  lemma {:induction false} AdmittedConcat(a: seq<Call>, b: seq<Call>, tools: Tools)
    ensures AdmittedOf(a + b, tools) == AdmittedOf(a, tools) + AdmittedOf(b, tools)
  {
    if b == [] {
      assert a + b == a;
    } else {
      AdmittedConcat(a, b[..|b| - 1], tools);
      assert a + b == (a + b[..|b| - 1]) + [b[|b| - 1]];
      AdmittedOne(a + b[..|b| - 1], b[|b| - 1], tools);
    }
  }

  /** The groups one after another. */
  function Flat(groups: seq<seq<Call>>): seq<Call> {
    if groups == [] then [] else Flat(groups[..|groups| - 1]) + groups[|groups| - 1]
  }

  lemma {:induction false} FlatOne(groups: seq<seq<Call>>, group: seq<Call>)
    ensures Flat(groups + [group]) == Flat(groups) + group
  {
    assert (groups + [group])[..|groups|] == groups;
  }

  /** Each call is recorded with what it came to. */
  predicate Recorded(calls: seq<Call>, log: seq<Write>, tools: Tools) {
    forall k :: 0 <= k < |calls| ==> Resolve(calls[k].id, ResultOf(calls[k], tools)) in log
  }

  predicate RefusalsRecorded(calls: seq<Call>, log: seq<Write>, tools: Tools) {
    forall k :: 0 <= k < |calls| && !tools.review(calls[k]).Allowed? ==>
      Resolve(calls[k].id, ResultOf(calls[k], tools)) in log
  }

  lemma {:induction false} RefusalsOne(calls: seq<Call>, call: Call, log: seq<Write>, w: Write, tools: Tools)
    requires RefusalsRecorded(calls, log, tools)
    requires tools.review(call).Allowed? || w == Resolve(call.id, ResultOf(call, tools))
    ensures RefusalsRecorded(calls + [call], log + [w], tools)
  {
    assert w in log + [w];
    forall k | 0 <= k < |calls| && !tools.review(calls[k]).Allowed?
      ensures Resolve(calls[k].id, ResultOf(calls[k], tools)) in log + [w]
    {
      assert Resolve(calls[k].id, ResultOf(calls[k], tools)) in log;
    }
  }

  /** The refusals at review and the outcomes after it are all there is to record. */
  lemma {:induction false} RecordedBoth(batch: seq<Call>, admitted: seq<Call>, reviews: seq<Write>,
        outcomes: seq<Write>, tools: Tools)
    requires RefusalsRecorded(batch, reviews, tools)
    requires forall c :: c in admitted <==> c in batch && tools.review(c).Allowed?
    requires outcomes == seq(|admitted|,
                             k requires 0 <= k < |admitted| => Resolve(admitted[k].id, tools.outcome(admitted[k])))
    ensures Recorded(batch, reviews + outcomes, tools)
  {
    forall k | 0 <= k < |batch| ensures Resolve(batch[k].id, ResultOf(batch[k], tools)) in reviews + outcomes {
      var call := batch[k];
      if tools.review(call).Allowed? {
        assert call in admitted;
        var j :| 0 <= j < |admitted| && admitted[j] == call;
        assert outcomes[j] == Resolve(call.id, ResultOf(call, tools));
      }
    }
  }

  lemma {:induction false} RecordedMore(a: seq<Call>, b: seq<Call>, log: seq<Write>, more: seq<Write>, tools: Tools)
    requires Recorded(a, log, tools) && Recorded(b, more, tools)
    ensures Recorded(a + b, log + more, tools)
  {
    forall k | 0 <= k < |a + b| ensures Resolve((a + b)[k].id, ResultOf((a + b)[k], tools)) in log + more {
      if k < |a| {
        assert Resolve(a[k].id, ResultOf(a[k], tools)) in log;
      } else {
        assert Resolve(b[k - |a|].id, ResultOf(b[k - |a|], tools)) in more;
      }
    }
  }

  /** The ids of the first `n` calls and of the rest share nothing. */
  lemma {:induction false} SplitIds(calls: seq<Call>, n: nat)
    requires n <= |calls| && DistinctIds(calls)
    ensures CallIds(calls) == CallIds(calls[..n]) + CallIds(calls[n..])
    ensures CallIds(calls[..n]) !! CallIds(calls[n..])
    ensures n < |calls| ==> CallIds(calls[n..]) - {calls[n].id} == CallIds(calls[n + 1..])
  {
    assert calls == calls[..n] + calls[n..];
    if n < |calls| { assert calls[n..] == [calls[n]] + calls[n + 1..]; }
  }

  lemma {:induction false} AddId(calls: seq<Call>, call: Call)
    ensures CallIds(calls + [call]) == CallIds(calls) + {call.id}
  {
  }

  /** What the review of a call writes. */
  function ReviewWrite(call: Call, tools: Tools): Write {
    var verdict := tools.review(call);
    if verdict.Allowed? then Approve(call.id) else Resolve(call.id, Refused(call, verdict))
  }

  lemma {:induction false} AdmittedAre(calls: seq<Call>, tools: Tools)
    ensures forall c :: c in AdmittedOf(calls, tools) <==> c in calls && tools.review(c).Allowed?
    ensures CallIds(AdmittedOf(calls, tools)) <= CallIds(calls)
  {
    if calls != [] {
      var init, last := calls[..|calls| - 1], calls[|calls| - 1];
      AdmittedAre(init, tools);
      assert calls == init + [last];
      AdmittedOne(init, last, tools);
    }
  }

  lemma {:induction false} AdmittedDistinct(calls: seq<Call>, tools: Tools)
    requires DistinctIds(calls)
    ensures DistinctIds(AdmittedOf(calls, tools))
  {
    if calls != [] {
      var init, last := calls[..|calls| - 1], calls[|calls| - 1];
      AdmittedDistinct(init, tools);
      AdmittedAre(init, tools);
      assert calls == init + [last];
      AdmittedOne(init, last, tools);
      assert last.id !in CallIds(init);
      assert forall c :: c in AdmittedOf(init, tools) ==> c.id in CallIds(init);
    }
  }

  /** The reviews of `done` are written, and `left` is to be reviewed. */
  ghost predicate Reviewed(l: Local, done: seq<Call>, left: seq<Call>, rest: set<string>, log: seq<Write>,
        tools: Tools)
  {
    && RefusalsRecorded(done, log, tools)
    && match AfterAll(l, log)
       case Some(now) => now == l.(pending := CallIds(AdmittedOf(done, tools)) + CallIds(left) + rest)
       case None => false
  }

  lemma {:induction false} PendingAfterReview(done: seq<Call>, call: Call, left: seq<Call>, rest: set<string>,
        tools: Tools)
    requires call.id !in CallIds(done) + CallIds(left) + rest
    ensures call.id in CallIds(AdmittedOf(done, tools)) + CallIds([call] + left) + rest
    ensures tools.review(call).Allowed? ==>
              CallIds(AdmittedOf(done + [call], tools)) + CallIds(left) + rest
              == CallIds(AdmittedOf(done, tools)) + CallIds([call] + left) + rest
    ensures !tools.review(call).Allowed? ==>
              CallIds(AdmittedOf(done + [call], tools)) + CallIds(left) + rest
              == CallIds(AdmittedOf(done, tools)) + CallIds([call] + left) + rest - {call.id}
  {
    AdmittedOne(done, call, tools);
    AdmittedAre(done, tools);
    AddId(AdmittedOf(done, tools), call);
    assert CallIds([call] + left) == {call.id} + CallIds(left);
  }

  /** What the review of a call does to what is pending. */
  lemma {:induction false} ReviewMoves(now: Local, call: Call, tools: Tools, before: set<string>, after: set<string>)
    requires now.pending == before && call.id in before
    requires after == if tools.review(call).Allowed? then before else before - {call.id}
    ensures After(now, ReviewWrite(call, tools)) == Some(now.(pending := after))
  {
  }

  lemma {:induction false} ReviewNext(l: Local, done: seq<Call>, call: Call, left: seq<Call>, rest: set<string>,
        log: seq<Write>, tools: Tools)
    requires Reviewed(l, done, [call] + left, rest, log, tools)
    requires call.id !in CallIds(done) + CallIds(left) + rest
    ensures Reviewed(l, done + [call], left, rest, log + [ReviewWrite(call, tools)], tools)
  {
    var before := CallIds(AdmittedOf(done, tools)) + CallIds([call] + left) + rest;
    var after := CallIds(AdmittedOf(done + [call], tools)) + CallIds(left) + rest;
    PendingAfterReview(done, call, left, rest, tools);
    ReviewMoves(l.(pending := before), call, tools, before, after);
    AfterOne(l, log, ReviewWrite(call, tools));
    assert RefusalsRecorded(done + [call], log + [ReviewWrite(call, tools)], tools) by {
      RefusalsOne(done, call, log, ReviewWrite(call, tools), tools);
    }
  }

  lemma {:induction false} NoIdAgain(batch: seq<Call>, k: nat, rest: set<string>)
    requires k < |batch| && DistinctIds(batch) && CallIds(batch) !! rest
    ensures batch[k].id !in CallIds(batch[..k]) + CallIds(batch[k + 1..]) + rest
  {
    assert batch[k] in batch && batch[k].id in CallIds(batch);
  }

  lemma {:induction false} AllReviewed(l: Local, batch: seq<Call>, rest: set<string>, log: seq<Write>, tools: Tools)
    requires Reviewed(l, batch, [], rest, log, tools)
    ensures AfterAll(l, log) == Some(l.(pending := CallIds(AdmittedOf(batch, tools)) + rest))
  {
    var ids := CallIds(AdmittedOf(batch, tools));
    assert CallIds([]) == {} && ids + {} + rest == ids + rest;
  }

  lemma {:induction false} NoneReviewed(l: Local, batch: seq<Call>, rest: set<string>, tools: Tools)
    requires l.pending == CallIds(batch) + rest
    ensures Reviewed(l, [], batch, rest, [], tools)
  {
    assert CallIds([]) == {} && {} + CallIds(batch) + rest == l.pending;
  }

  /** One round of the review. */
  lemma {:induction false} ReviewRound(l: Local, batch: seq<Call>, k: nat, rest: set<string>, log: seq<Write>,
        tools: Tools)
    requires k < |batch| && DistinctIds(batch) && CallIds(batch) !! rest
    requires Reviewed(l, batch[..k], batch[k..], rest, log, tools)
    ensures Reviewed(l, batch[..k + 1], batch[k + 1..], rest, log + [ReviewWrite(batch[k], tools)], tools)
    ensures AdmittedOf(batch[..k + 1], tools)
            == AdmittedOf(batch[..k], tools) + if tools.review(batch[k]).Allowed? then [batch[k]] else []
  {
    assert batch[..k + 1] == batch[..k] + [batch[k]] && batch[k..] == [batch[k]] + batch[k + 1..];
    NoIdAgain(batch, k, rest);
    ReviewNext(l, batch[..k], batch[k], batch[k + 1..], rest, log, tools);
    AdmittedOne(batch[..k], batch[k], tools);
  }

  /** Phase 1: review the batch one call at a time; refusals are recorded at once. */
  method ReviewBatch(ghost l: Local, batch: seq<Call>, ghost rest: set<string>, tools: Tools)
    returns (log: seq<Write>, admitted: seq<Call>)
    requires DistinctIds(batch) && CallIds(batch) !! rest
    requires l.pending == CallIds(batch) + rest
    ensures admitted == AdmittedOf(batch, tools) && RefusalsRecorded(batch, log, tools)
    ensures AfterAll(l, log) == Some(l.(pending := CallIds(admitted) + rest))
  {
    log, admitted := [], [];
    assert batch[0..] == batch && batch[..0] == [];
    NoneReviewed(l, batch, rest, tools);
    for k := 0 to |batch|
      invariant admitted == AdmittedOf(batch[..k], tools)
      invariant Reviewed(l, batch[..k], batch[k..], rest, log, tools)
    {
      var call := batch[k];
      ReviewRound(l, batch, k, rest, log, tools);
      if tools.review(call).Allowed? {
        log, admitted := log + [Approve(call.id)], admitted + [call];
      } else {
        log := log + [Resolve(call.id, Refused(call, tools.review(call)))];
      }
    }
    assert batch[..|batch|] == batch && batch[|batch|..] == [];
    AllReviewed(l, batch, rest, log, tools);
  }

  /** Phase 3: record the outcomes in call order, whatever order they finished in. */
  method RecordOutcomes(ghost l: Local, admitted: seq<Call>, ghost rest: set<string>, tools: Tools)
      returns (log: seq<Write>)
    requires DistinctIds(admitted) && CallIds(admitted) !! rest
    requires l.pending == CallIds(admitted) + rest
    ensures AfterAll(l, log) == Some(l.(pending := rest))
    ensures log == seq(|admitted|,
                       k requires 0 <= k < |admitted| => Resolve(admitted[k].id, tools.outcome(admitted[k])))
  {
    log := [];
    assert admitted[0..] == admitted;
    for k := 0 to |admitted|
      invariant AfterAll(l, log) == Some(l.(pending := CallIds(admitted[k..]) + rest))
      invariant log == seq(k, j requires 0 <= j < k => Resolve(admitted[j].id, tools.outcome(admitted[j])))
    {
      SplitIds(admitted, k);
      var w := Resolve(admitted[k].id, tools.outcome(admitted[k]));
      AfterOne(l, log, w);
      assert CallIds(admitted[k..]) + rest - {admitted[k].id} == CallIds(admitted[k + 1..]) + rest;
      log := log + [w];
    }
    assert CallIds(admitted[|admitted|..]) == {} && {} + rest == rest;
  }

  lemma {:induction false} AfterConcat(l: Local, a: seq<Write>, b: seq<Write>)
    ensures AfterAll(l, a + b) == match AfterAll(l, a) case None => None case Some(m) => AfterAll(m, b)
  {
    if b == [] {
      assert a + b == a;
    } else {
      AfterConcat(l, a, b[..|b| - 1]);
      assert (a + b)[..|a + b| - 1] == a + b[..|b| - 1];
    }
  }

  /** Calls of one group may overlap: there is one, or all are declared reads. */
  predicate MayOverlap(group: seq<Call>, tools: Tools) {
    |group| <= 1 || forall c :: c in group ==> tools.isRead(c)
  }

  lemma {:induction false} TakeBatch(calls: seq<Call>, cursor: nat, batch: seq<Call>)
    requires DistinctIds(calls) && cursor + |batch| <= |calls| && batch == calls[cursor..cursor + |batch|]
    ensures DistinctIds(batch) && CallIds(batch) !! CallIds(calls[cursor + |batch|..])
    ensures CallIds(calls[cursor..]) == CallIds(batch) + CallIds(calls[cursor + |batch|..])
  {
    SplitIds(calls[cursor..], |batch|);
    assert calls[cursor..][..|batch|] == batch && calls[cursor..][|batch|..] == calls[cursor + |batch|..];
  }

  lemma {:induction false} AdmittedMayOverlap(batch: seq<Call>, admitted: seq<Call>, tools: Tools)
    requires batch != [] && DistinctIds(admitted)
    requires |batch| > 1 ==> forall k :: 0 <= k < |batch| ==> tools.isRead(batch[k])
    requires forall c :: c in admitted ==> c in batch
    ensures MayOverlap(admitted, tools)
  {
    assert |admitted| > 1 ==> admitted[0] in batch && admitted[1] in batch;
  }

  /** One batch: its calls and no others get their outcome. */
  method RunBatch(ghost l: Local, batch: seq<Call>, ghost rest: set<string>, tools: Tools)
    returns (log: seq<Write>, admitted: seq<Call>)
    requires batch != [] && DistinctIds(batch) && CallIds(batch) !! rest && l.pending == CallIds(batch) + rest
    requires |batch| > 1 ==> forall k :: 0 <= k < |batch| ==> tools.isRead(batch[k])
    ensures AfterAll(l, log) == Some(l.(pending := rest))
    ensures MayOverlap(admitted, tools) && admitted == AdmittedOf(batch, tools) && Recorded(batch, log, tools)
  {
    var reviews;
    reviews, admitted := ReviewBatch(l, batch, rest, tools);
    AdmittedAre(batch, tools);
    AdmittedDistinct(batch, tools);
    AdmittedMayOverlap(batch, admitted, tools);
    var outcomes := RecordOutcomes(l.(pending := CallIds(admitted) + rest), admitted, rest, tools);
    AfterConcat(l, reviews, outcomes);
    RecordedBoth(batch, admitted, reviews, outcomes, tools);
    log := reviews + outcomes;
  }

  method DispatchBatch(ghost l: Local, calls: seq<Call>, cursor: nat, tools: Tools)
    returns (log: seq<Write>, admitted: seq<Call>, next: nat)
    requires DistinctIds(calls) && cursor < |calls| && l.pending == CallIds(calls[cursor..])
    ensures cursor < next <= |calls|
    ensures AfterAll(l, log) == Some(l.(pending := CallIds(calls[next..])))
    ensures MayOverlap(admitted, tools) && admitted == AdmittedOf(calls[cursor..next], tools)
    ensures Recorded(calls[cursor..next], log, tools)
  {
    var batch := ReadEffectBatch(calls, cursor, tools);
    next := cursor + |batch|;
    TakeBatch(calls, cursor, batch);
    log, admitted := RunBatch(l, batch, CallIds(calls[next..]), tools);
  }

  /** The first calls have been dispatched. */
  ghost predicate Dispatched(l: Local, calls: seq<Call>, cursor: nat, log: seq<Write>, together: seq<seq<Call>>,
        tools: Tools)
    requires cursor <= |calls|
  {
    && AfterAll(l, log) == Some(l.(pending := CallIds(calls[cursor..])))
    && Recorded(calls[..cursor], log, tools) && Flat(together) == AdmittedOf(calls[..cursor], tools)
    && forall group :: group in together ==> MayOverlap(group, tools)
  }

  lemma {:induction false} DispatchedMore(l: Local, calls: seq<Call>, cursor: nat, next: nat, log: seq<Write>,
        more: seq<Write>, together: seq<seq<Call>>, admitted: seq<Call>, tools: Tools)
    requires cursor < next <= |calls| && Dispatched(l, calls, cursor, log, together, tools)
    requires AfterAll(l.(pending := CallIds(calls[cursor..])), more) == Some(l.(pending := CallIds(calls[next..])))
    requires MayOverlap(admitted, tools) && admitted == AdmittedOf(calls[cursor..next], tools)
    requires Recorded(calls[cursor..next], more, tools)
    ensures Dispatched(l, calls, next, log + more, together + [admitted], tools)
  {
    var done, batch := calls[..cursor], calls[cursor..next];
    assert calls[..next] == done + batch;
    AfterConcat(l, log, more);
    AdmittedConcat(done, batch, tools);
    RecordedMore(done, batch, log, more, tools);
    FlatOne(together, admitted);
  }

  /** A call on the record with what its tool gave if it was allowed, or with why it never ran. */
  predicate Told(call: Call, log: seq<Write>, tools: Tools) {
    match tools.review(call)
    case Allowed => Resolve(call.id, tools.outcome(call)) in log
    case UnknownTool => Resolve(call.id, "Unknown tool: " + call.name + ".") in log
    case ReviewThrew(error) => Resolve(call.id, error) in log
    case Refusal => Resolve(call.id, "Permission denied for " + call.name + ".") in log
  }

  /**
   * The whole step: whatever the reviews and executions do, every declared call gets
   * exactly one outcome, its own, in appends the journal admits, before the loop goes on.
   * What runs is the calls that pass their review, in call order, and calls run together
   * only when all of them are reads.
   */
  method DispatchTools(ghost l: Local, calls: seq<Call>, tools: Tools)
      returns (log: seq<Write>, together: seq<seq<Call>>)
    requires DistinctIds(calls) && l.pending == CallIds(calls)
    ensures AfterAll(l, log) == Some(l.(pending := {}))
    ensures forall c :: c in calls ==> Told(c, log, tools)
    ensures Flat(together) == AdmittedOf(calls, tools)
    ensures forall group :: group in together ==> |group| <= 1 || forall c :: c in group ==> tools.isRead(c)
  {
    log, together := [], [];
    var cursor := 0;
    assert calls[0..] == calls && calls[..0] == [] && l.(pending := CallIds(calls)) == l;
    while cursor < |calls|
      invariant cursor <= |calls| && Dispatched(l, calls, cursor, log, together, tools)
    {
      var more, admitted, next := DispatchBatch(l.(pending := CallIds(calls[cursor..])), calls, cursor, tools);
      DispatchedMore(l, calls, cursor, next, log, more, together, admitted, tools);
      log, together, cursor := log + more, together + [admitted], next;
    }
    assert calls[..|calls|] == calls && CallIds(calls[|calls|..]) == {};
    forall c | c in calls ensures Told(c, log, tools) {
      var k :| 0 <= k < |calls| && calls[k] == c;
      assert Resolve(calls[k].id, ResultOf(calls[k], tools)) in log;
    }
  }
}
