/** What one admitted reservation of the bridge relay may emit (extension/src/relay.ts:1-14, 126-159, 168-322). */
module RelayTrace {
  import opened Messages

  type Byte = b: int | 0 <= b < 256

  datatype Kind = Hello | Fetch

  datatype Reply =
    | HelloReply
    | Head(status: int)
    | Chunk(seqNo: nat, bytes: seq<Byte>)
    | End(count: nat)
    | Error(code: string)

  /** Where the reservation's async function waits. */
  datatype Phase =
    | Probing             // for the observed capabilities
    | Fetching            // for the response
    | Reading(seqNo: nat)   // for the next piece of the body
    | Emitting(seqNo: nat)  // not waiting: inside emitChunks
    | Closing(seqNo: nat, failure: Option<string>)  // for the reader to be cancelled
    | Returned

  datatype Ending = Live | Answered | Silent

  /** A reservation; `body` is what has been read of its response. */
  datatype Entry = Entry(id: string, kind: Kind, stream: bool, ending: Ending, phase: Phase, body: seq<Byte>)
  {
    predicate Terminated() { !ending.Live? }
  }

  function Data(trace: seq<Reply>): seq<Byte> {
    if trace == [] then []
    else Data(trace[..|trace| - 1]) + (if trace[|trace| - 1].Chunk? then trace[|trace| - 1].bytes else [])
  }

  /** A head, then chunks numbered from 1. */
  predicate Streaming(trace: seq<Reply>) {
    && trace != [] && trace[0].Head?
    && forall i :: 1 <= i < |trace| ==> trace[i].Chunk? && trace[i].seqNo == i
  }

  /** A head and numbered chunks that carry a prefix of what was read. */
  predicate Carries(trace: seq<Reply>, body: seq<Byte>) {
    Streaming(trace) && Data(trace) <= body
  }

  /** The single reply that ends an exchange. */
  predicate Terminator(reply: Reply) {
    reply.HelloReply? || reply.End? || reply.Error?
  }

  /** An answered exchange: a lone hello or error, or head chunk* with the one terminator. */
  predicate AnsweredTrace(e: Entry, trace: seq<Reply>) {
    && trace != []
    && var last, before := trace[|trace| - 1], trace[..|trace| - 1];
       match e.kind
       case Hello => before == [] && (last.HelloReply? || last.Error?)
       case Fetch =>
         || (before == [] && last.Error?)
         || (last.Error? && Carries(before, e.body))
         || (last.End? && Streaming(before) && Data(before) == e.body && last.count == |before| - 1)
  }

  /** A reservation released without an answer: nothing yet, or a head and chunks with no terminator. */
  predicate SilentTrace(e: Entry, trace: seq<Reply>) {
    trace == [] || (e.kind.Fetch? && Carries(trace, e.body))
  }

  /** A live reservation has emitted what its place in the exchange says. */
  predicate LiveTrace(e: Entry, trace: seq<Reply>) {
    match e.phase
    case Probing => trace == [] && e.body == []
    case Fetching => e.kind.Fetch? && trace == [] && e.body == []
    case Reading(n) => e.kind.Fetch? && Streaming(trace) && |trace| == n + 1 && Data(trace) == e.body
    case Emitting(n) => e.kind.Fetch? && Carries(trace, e.body) && |trace| == n + 1
    case Closing(n, failure) =>
      && e.kind.Fetch? && |trace| == n + 1
      && if failure.Some? then Carries(trace, e.body) else Streaming(trace) && Data(trace) == e.body
    case Returned => false
  }

  predicate TraceOk(e: Entry, trace: seq<Reply>) {
    match e.ending
    case Live => LiveTrace(e, trace)
    case Answered => AnsweredTrace(e, trace)
    case Silent => SilentTrace(e, trace)
  }

  /** The message a live reservation may be terminated with. */
  predicate MayAnswer(e: Entry, reply: Reply) {
    match reply
    case Error(_) => true
    case HelloReply => e.kind.Hello?
    case End(n) => e.phase == Closing(n, None)
    case _ => false
  }

  lemma {:induction false} Answering(e: Entry, trace: seq<Reply>, reply: Reply)
    requires e.ending.Live? && LiveTrace(e, trace) && MayAnswer(e, reply)
    ensures AnsweredTrace(e.(ending := Answered), trace + [reply])
  {
    assert (trace + [reply])[..|trace|] == trace;
  }

  lemma {:induction false} StreamingGrows(trace: seq<Reply>, bytes: seq<Byte>)
    requires Streaming(trace)
    ensures Streaming(trace + [Chunk(|trace|, bytes)])
    ensures Data(trace + [Chunk(|trace|, bytes)]) == Data(trace) + bytes
  {
    assert (trace + [Chunk(|trace|, bytes)])[..|trace|] == trace;
  }

  // ---- What a page can read off a trace ----

  /** A prefix of head chunk* (end | error), or a lone hello or error; chunks numbered from 1. */
  predicate Grammar(trace: seq<Reply>) {
    && (forall i :: 0 <= i < |trace| - 1 ==> !Terminator(trace[i]))
    && (forall i :: 0 <= i < |trace| && trace[i].Chunk? ==> trace[0].Head? && trace[i].seqNo == i)
    && (forall i :: 0 <= i < |trace| && trace[i].Head? ==> i == 0)
    && (|trace| > 1 ==> trace[0].Head?)
  }

  lemma {:induction false} StreamingGrammar(trace: seq<Reply>)
    requires trace == [] || Streaming(trace)
    ensures Grammar(trace) && (trace != [] ==> !Terminator(trace[|trace| - 1]))
  {
  }

  lemma {:induction false} EndedGrammar(before: seq<Reply>, last: Reply)
    requires (before == [] || Streaming(before)) && Terminator(last)
    ensures Grammar(before + [last]) && Data(before + [last]) == Data(before)
  {
    var trace := before + [last];
    assert trace[..|trace| - 1] == before;
    forall i | 0 <= i < |before|
      ensures !Terminator(trace[i]) && (trace[i].Head? ==> i == 0)
      ensures trace[i].Chunk? ==> trace[0].Head? && trace[i].seqNo == i
    {
      assert trace[i] == before[i];
    }
  }

  lemma {:induction false} AnsweredMeaning(e: Entry, before: seq<Reply>, last: Reply)
    requires AnsweredTrace(e, before + [last])
    ensures Grammar(before + [last]) && Data(before + [last]) <= e.body && Terminator(last)
    ensures last.End? ==> Data(before + [last]) == e.body && last.count == |before| - 1
  {
    assert (before + [last])[..|before|] == before;
    EndedGrammar(before, last);
  }

  /** The grammar, and what the trace says of the body and of how the exchange ended. */
  lemma {:induction false} TraceMeaning(e: Entry, trace: seq<Reply>)
    requires TraceOk(e, trace)
    ensures Grammar(trace) && Data(trace) <= e.body
    ensures e.ending.Answered? <==> trace != [] && Terminator(trace[|trace| - 1])
    ensures trace != [] && trace[|trace| - 1].End? ==> Data(trace) == e.body && trace[|trace| - 1].count == |trace| - 2
  {
    if e.ending.Answered? {
      assert trace == trace[..|trace| - 1] + [trace[|trace| - 1]];
      AnsweredMeaning(e, trace[..|trace| - 1], trace[|trace| - 1]);
    } else {
      StreamingGrammar(trace);
    }
  }

  // ---- The log and its projections ----

  /** A sent reply and the reservation it belongs to; a refusal belongs to none. */
  datatype Sent = Sent(id: string, reservation: Option<nat>, reply: Reply)

  function Of(sent: seq<Sent>, k: nat): seq<Reply> {
    if sent == [] then []
    else
      var last := sent[|sent| - 1];
      Of(sent[..|sent| - 1], k) + (if last.reservation == Some(k) then [last.reply] else [])
  }

  lemma {:induction false} OfAppend(sent: seq<Sent>, message: Sent, k: nat)
    ensures Of(sent + [message], k) == Of(sent, k) + if message.reservation == Some(k) then [message.reply] else []
  {
    assert (sent + [message])[..|sent|] == sent;
  }
}
