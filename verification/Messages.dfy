/** Conversation messages as the provider sees them (src/core/contracts.ts). */
module Messages {

  datatype Option<+T> = None | Some(value: T)

  datatype Image = Image(name: string, dataUrl: string)

  datatype Call = Call(id: string, name: string, arguments: string)

  datatype Message =
    | User(content: string, images: seq<Image>)
    | Assistant(content: string, calls: seq<Call>)
    | Tool(callId: string, content: string)
  {
    function Images(): seq<Image> {
      if User? then images else []
    }

    /** The message with other images; everything a reader of the text sees stays. */
    function WithImages(kept: seq<Image>): Message {
      if User? then User(content, kept) else this
    }
  }

  function CallIds(calls: seq<Call>): set<string> {
    set c | c in calls :: c.id
  }

  predicate DistinctIds(calls: seq<Call>) {
    forall i, j :: 0 <= i < j < |calls| ==> calls[i].id != calls[j].id
  }

  /**
   * Scans a conversation for tool-call pairing, starting with `open` calls still
   * unanswered: None when the pairing is broken, else what is unanswered at the end.
   */
  function Unanswered(messages: seq<Message>, open: set<string>): Option<set<string>> {
    if messages == [] then Some(open)
    else match messages[0]
      case User(_, _) => if open == {} then Unanswered(messages[1..], {}) else None
      case Assistant(_, calls) =>
        if open == {} && DistinctIds(calls) then Unanswered(messages[1..], CallIds(calls)) else None
      case Tool(id, _) =>
        if id in open then Unanswered(messages[1..], open - {id}) else None
  }

  lemma {:induction false} UnansweredConcat(a: seq<Message>, b: seq<Message>, open: set<string>)
    ensures Unanswered(a + b, open) ==
            match Unanswered(a, open) case Some(rest) => Unanswered(b, rest) case None => None
  {
    if a == [] {
      assert a + b == b;
    } else {
      assert (a + b)[1..] == a[1..] + b;
      match a[0]
      case User(_, _) => UnansweredConcat(a[1..], b, {});
      case Assistant(_, calls) => UnansweredConcat(a[1..], b, CallIds(calls));
      case Tool(id, _) => UnansweredConcat(a[1..], b, open - {id});
    }
  }

  /** No call is left open and no answer is out of place, by the scan. */
  predicate Paired(messages: seq<Message>) {
    Unanswered(messages, {}) == Some({})
  }

  /** The run of tool messages that directly follows position `i`. */
  function RunEnd(messages: seq<Message>, i: nat): (end: nat)
    requires i <= |messages|
    ensures i <= end <= |messages|
    ensures forall k :: i <= k < end ==> messages[k].Tool?
    ensures end < |messages| ==> !messages[end].Tool?
    decreases |messages| - i
  {
    if i < |messages| && messages[i].Tool? then RunEnd(messages, i + 1) else i
  }

  /** Message `j` answers call `id` within the run of tool messages starting at `from`. */
  predicate Answers(messages: seq<Message>, from: nat, j: int, id: string)
    requires from <= |messages|
  {
    from <= j < RunEnd(messages, from) && messages[j].callId == id
  }

  /** ... and no other message of that run does. */
  ghost predicate OnlyAnswer(messages: seq<Message>, from: nat, j: int, id: string)
    requires from <= |messages|
  {
    Answers(messages, from, j, id) && (forall k :: Answers(messages, from, k, id) ==> k == j)
  }

  ghost predicate AnsweredOnce(messages: seq<Message>, from: nat, id: string)
    requires from <= |messages|
  {
    exists j :: OnlyAnswer(messages, from, j, id)
  }

  /** Each call declared at `i` has exactly one answer before the next step. */
  ghost predicate EachCallAnsweredOnce(messages: seq<Message>, i: nat)
    requires i < |messages| && messages[i].Assistant?
  {
    forall c :: c in messages[i].calls ==> AnsweredOnce(messages, i + 1, c.id)
  }

  /** Message `i` is the nearest assistant message before the run that reaches `j`. */
  predicate NearestStep(messages: seq<Message>, i: int, j: nat)
    requires j < |messages|
  {
    0 <= i < j && messages[i].Assistant? && forall k :: i < k < j ==> messages[k].Tool?
  }

  /** The tool message at `j` answers a call of the nearest earlier assistant message. */
  ghost predicate AnswersNearestStep(messages: seq<Message>, j: nat)
    requires j < |messages| && messages[j].Tool?
  {
    exists i :: NearestStep(messages, i, j) && messages[j].callId in CallIds(messages[i].calls)
  }

  /** Inside a run of tool messages the scan removes one distinct open id at a time. */
  lemma {:induction false} RunAnswers(messages: seq<Message>, from: nat, open: set<string>)
    requires from <= |messages|
    requires Unanswered(messages[from..], open) == Some({})
    ensures forall j :: from <= j < RunEnd(messages, from) ==> messages[j].callId in open
    ensures forall id :: id in open ==> AnsweredOnce(messages, from, id)
    decreases |messages| - from
  {
    if from < |messages| && messages[from].Tool? {
      var id0, next := messages[from].callId, from + 1;
      assert messages[from..][1..] == messages[next..];
      RunAnswers(messages, next, open - {id0});
      forall id | id in open ensures AnsweredOnce(messages, from, id) {
        if id == id0 {
          assert forall k :: Answers(messages, from, k, id) ==> k == from;
          assert OnlyAnswer(messages, from, from, id);
        } else {
          assert AnsweredOnce(messages, next, id);
          var j :| OnlyAnswer(messages, next, j, id);
          forall k | Answers(messages, from, k, id) ensures k == j {
            assert Answers(messages, next, k, id);
          }
          assert OnlyAnswer(messages, from, j, id);
        }
      }
    } else if from == |messages| {
      assert messages[from..] == [];
    }
  }

  lemma {:induction false} ScanReaches(messages: seq<Message>, i: nat, open: set<string>)
    requires i < |messages| && messages[i].Assistant?
    requires Unanswered(messages, open) == Some({})
    ensures Unanswered(messages[i + 1..], CallIds(messages[i].calls)) == Some({})
  {
    UnansweredConcat(messages[..i], messages[i..], open);
    assert messages == messages[..i] + messages[i..];
    assert messages[i..][1..] == messages[i + 1..];
  }

  /** In a paired conversation a tool message always has a declaring step before its run. */
  lemma {:induction false} NearestStepExists(messages: seq<Message>, j: nat)
    requires j < |messages| && messages[j].Tool?
    requires Paired(messages)
    ensures exists i :: NearestStep(messages, i, j)
  {
    var i: int := j - 1;
    while i >= 0 && messages[i].Tool?
      invariant -1 <= i < j
      invariant forall k :: i < k < j ==> messages[k].Tool?
    {
      i := i - 1;
    }
    if i >= 0 && messages[i].Assistant? {
      assert NearestStep(messages, i, j);
    } else {
      NothingOpenAfter(messages, i);
    }
  }

  lemma {:induction false} UserThenTool(first: seq<Message>, rest: seq<Message>)
    requires Unanswered(first + rest, {}) == Some({}) && |rest| > 1 && rest[0].User?
    ensures !rest[1..][0].Tool?
  {
    UnansweredConcat(first, rest, {});
  }

  /** A run of tool messages cannot open a paired conversation or follow a user message. */
  lemma {:induction false} NothingOpenAfter(messages: seq<Message>, i: int)
    requires -1 <= i < |messages| - 1
    requires i >= 0 ==> messages[i].User?
    requires Paired(messages)
    ensures !messages[i + 1].Tool?
  {
    if i >= 0 {
      var first, rest := messages[..i], messages[i..];
      assert Unanswered(first + rest, {}) == Some({}) by { assert messages == first + rest; }
      assert rest[0] == messages[i] && rest[1..][0] == messages[i + 1];
      UserThenTool(first, rest);
    }
  }

  lemma {:induction false} RunCovers(messages: seq<Message>, from: nat, j: nat)
    requires from <= j < |messages|
    requires forall k :: from <= k <= j ==> messages[k].Tool?
    ensures j < RunEnd(messages, from)
    decreases j - from
  {
    if from < j { RunCovers(messages, from + 1, j); }
  }

  /** What the scan means for a reader of the conversation. */
  lemma {:induction false} PairedMeaning(messages: seq<Message>)
    requires Paired(messages)
    ensures forall i :: 0 <= i < |messages| && messages[i].Assistant? ==> EachCallAnsweredOnce(messages, i)
    ensures forall j :: 0 <= j < |messages| && messages[j].Tool? ==> AnswersNearestStep(messages, j)
  {
    forall i | 0 <= i < |messages| && messages[i].Assistant? ensures EachCallAnsweredOnce(messages, i) {
      ScanReaches(messages, i, {});
      RunAnswers(messages, i + 1, CallIds(messages[i].calls));
    }
    forall j | 0 <= j < |messages| && messages[j].Tool? ensures AnswersNearestStep(messages, j) {
      NearestStepExists(messages, j);
      var i :| NearestStep(messages, i, j);
      ScanReaches(messages, i, {});
      RunAnswers(messages, i + 1, CallIds(messages[i].calls));
      RunCovers(messages, i + 1, j);
    }
  }
}
