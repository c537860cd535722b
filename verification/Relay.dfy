/** The bridge relay of one connected page (extension/src/relay.ts:126-421). */
module Relay {
  import opened Arithmetic
  import opened Messages
  import opened RelayTrace

  datatype Limits = Limits(
    maxConcurrentRequests: nat,
    maxChunks: nat,
    maxChunkBytes: nat,
    maxResponseBytes: nat,
    maxStreamResponseBytes: nat)

  datatype Request =
    | Malformed(id: string, code: string)
    | Cancel(id: string)
    | Open(id: string, kind: Kind, stream: bool, refusal: Option<string>)  // what resolveDestination says

  /** What the observed capabilities and the request's headers come to. */
  datatype Verdict = Proceed | Refuse(code: string)

  datatype Response = Response(status: int, redirected: bool, hasBody: bool)

  predicate BodyLess(status: int) {
    status == 204 || status == 205 || status == 304
  }

  predicate IsRedirect(response: Response) {
    response.redirected || (300 <= response.status < 400 && response.status != 304)
  }

  // ---- State ----

  /** Live reservations by request id, every reservation ever admitted, and everything sent. */
  datatype State = State(disposed: bool, inflight: map<string, nat>, entries: seq<Entry>, sent: seq<Sent>)

  /** The ids that hold a slot of one kind. */
  function Holding(inflight: map<string, nat>, entries: seq<Entry>, kind: Kind): set<string> {
    set id | id in inflight && inflight[id] < |entries| && entries[inflight[id]].kind == kind
  }

  /** The map holds exactly the live reservations, no more of a kind than the cap allows. */
  ghost predicate SlotsOk(limits: Limits, s: State) {
    match s case State(disposed, inflight, entries, _) =>
      && (forall id :: id in inflight ==>
            inflight[id] < |entries| && entries[inflight[id]].id == id && entries[inflight[id]].ending.Live?)
      && (forall k :: 0 <= k < |entries| && entries[k].ending.Live? ==>
            entries[k].id in inflight && inflight[entries[k].id] == k)
      && (disposed ==> inflight == map[])
      && |Holding(inflight, entries, Hello)| <= limits.maxConcurrentRequests
      && |Holding(inflight, entries, Fetch)| <= limits.maxConcurrentRequests
  }

  /** Each of the first `n` reservations has emitted what it may. */
  ghost predicate FirstTracesOk(entries: seq<Entry>, sent: seq<Sent>, n: nat)
    requires n <= |entries|
  {
    n == 0 || (FirstTracesOk(entries, sent, n - 1) && TraceOk(entries[n - 1], Of(sent, n - 1)))
  }

  lemma {:induction false} TraceAt(entries: seq<Entry>, sent: seq<Sent>, n: nat, k: nat)
    requires k < n <= |entries| && FirstTracesOk(entries, sent, n)
    ensures TraceOk(entries[k], Of(sent, k))
  {
    if k < n - 1 { TraceAt(entries, sent, n - 1, k); }
  }

  /** The other reservations' traces are untouched. */
  lemma {:induction false} FirstTracesKept(a: seq<Entry>, s: seq<Sent>, b: seq<Entry>, t: seq<Sent>, n: nat, k: nat)
    requires n <= |a| <= |b| && FirstTracesOk(a, s, n)
    requires forall j :: 0 <= j < n && j != k ==> b[j] == a[j] && Of(t, j) == Of(s, j)
    requires k < n ==> TraceOk(b[k], Of(t, k))
    ensures FirstTracesOk(b, t, n)
  {
    if n > 0 { FirstTracesKept(a, s, b, t, n - 1, k); }
  }

  predicate TagsOk(sent: seq<Sent>, n: nat) {
    forall i :: 0 <= i < |sent| && sent[i].reservation.Some? ==> sent[i].reservation.value < n
  }

  ghost predicate TracesOk(s: State) {
    match s case State(_, _, entries, sent) =>
      FirstTracesOk(entries, sent, |entries|) && TagsOk(sent, |entries|)
  }

  /**
   * A step only adds: reservations and messages stay, and a terminated reservation stays
   * terminated and emits nothing more, even when its id is admitted again.
   */
  ghost predicate Grown(s: State, t: State) {
    match s case State(_, _, before, sentBefore) =>
      && sentBefore <= t.sent && |before| <= |t.entries|
      && forall k :: 0 <= k < |before| ==>
           && t.entries[k].id == before[k].id && t.entries[k].kind == before[k].kind
           && (before[k].Terminated() ==> t.entries[k].ending == before[k].ending && Of(t.sent, k) == Of(sentBefore, k))
  }

  lemma {:induction false} GrownTwice(s: State, t: State, u: State)
    requires Grown(s, t) && Grown(t, u)
    ensures Grown(s, u)
  {
  }

  /** ... and it releases no reservation in silence. */
  ghost predicate Spoken(s: State, t: State) {
    match s case State(_, _, before, _) => Grown(s, t) && SilentBefore(before, t.entries)
  }

  predicate SilentBefore(before: seq<Entry>, after: seq<Entry>) {
    forall k :: 0 <= k < |after| && after[k].ending.Silent? ==> k < |before| && before[k].ending.Silent?
  }

  lemma {:induction false} SpokenTwice(s: State, t: State, u: State)
    requires Spoken(s, t) && Spoken(t, u)
    ensures Spoken(s, u)
  {
    GrownTwice(s, t, u);
  }

  /** A trace, and perhaps one more reply. */
  function Then(trace: seq<Reply>, reply: Option<Reply>): seq<Reply> {
    if reply.Some? then trace + [reply.value] else trace
  }

  function ThenSent(sent: seq<Sent>, id: string, k: nat, reply: Option<Reply>): seq<Sent> {
    if reply.Some? then sent + [Sent(id, Some(k), reply.value)] else sent
  }

  /** A live reservation in a new place, with at most one message sent. */
  function Advanced(s: State, k: nat, e: Entry, reply: Option<Reply>): State
    requires k < |s.entries|
  {
    s.(entries := s.entries[k := e], sent := ThenSent(s.sent, e.id, k, reply))
  }

  /** A reservation terminated, answered or in silence, and its slot released. */
  function Ended(s: State, k: nat, reply: Option<Reply>): State
    requires k < |s.entries|
  {
    var entry := s.entries[k];
    var ended := entry.(ending := if reply.Some? then Answered else Silent);
    Advanced(s, k, ended, reply).(inflight := s.inflight - {entry.id})
  }

  // ---- What steps keep ----

  lemma {:induction false} SubsetSize<T>(a: set<T>, b: set<T>)
    requires a <= b
    ensures |a| <= |b|
  {
    assert b == a + (b - a);
  }

  lemma {:induction false} HoldingShrinks(m: map<string, nat>, a: seq<Entry>, n: map<string, nat>, b: seq<Entry>,
        kind: Kind)
    requires |a| == |b| && forall k :: 0 <= k < |a| ==> a[k].kind == b[k].kind
    requires forall id :: id in n ==> id in m && n[id] == m[id]
    ensures |Holding(n, b, kind)| <= |Holding(m, a, kind)|
  {
    SubsetSize(Holding(n, b, kind), Holding(m, a, kind));
  }

  lemma {:induction false} TaggedOf(sent: seq<Sent>, id: string, k: nat, reply: Option<Reply>, j: nat)
    ensures Of(ThenSent(sent, id, k, reply), j) == if j == k then Then(Of(sent, j), reply) else Of(sent, j)
  {
    if reply.Some? {
      OfAppend(sent, Sent(id, Some(k), reply.value), j);
      if j != k { assert Of(sent, j) + [] == Of(sent, j); }
    }
  }

  lemma {:induction false} TagsThen(sent: seq<Sent>, id: string, k: nat, reply: Option<Reply>, n: nat)
    requires TagsOk(sent, n) && k < n
    ensures TagsOk(ThenSent(sent, id, k, reply), n)
  {
  }

  lemma {:induction false} AdvancedTraces(s: State, k: nat, e: Entry, reply: Option<Reply>, trace: seq<Reply>)
    requires TracesOk(s) && k < |s.entries| && trace == Then(Of(s.sent, k), reply) && TraceOk(e, trace)
    ensures TracesOk(Advanced(s, k, e, reply)) && Of(Advanced(s, k, e, reply).sent, k) == trace
  {
    var t := Advanced(s, k, e, reply);
    TaggedOf(s.sent, e.id, k, reply, k);
    TagsThen(s.sent, e.id, k, reply, |s.entries|);
    forall j | 0 <= j < |s.entries| && j != k ensures Of(t.sent, j) == Of(s.sent, j) && t.entries[j] == s.entries[j] {
      TaggedOf(s.sent, e.id, k, reply, j);
    }
    FirstTracesKept(s.entries, s.sent, t.entries, t.sent, |s.entries|, k);
  }

  lemma {:induction false} AdvancedGrows(s: State, k: nat, e: Entry, reply: Option<Reply>)
    requires k < |s.entries| && s.entries[k].ending.Live? && e.id == s.entries[k].id && e.kind == s.entries[k].kind
    ensures Grown(s, Advanced(s, k, e, reply))
    ensures !e.ending.Silent? ==> Spoken(s, Advanced(s, k, e, reply))
  {
    var t := Advanced(s, k, e, reply);
    forall j | 0 <= j < |s.entries| && s.entries[j].Terminated() ensures Of(t.sent, j) == Of(s.sent, j) {
      TaggedOf(s.sent, e.id, k, reply, j);
    }
  }

  lemma {:induction false} AdvancedSlots(limits: Limits, s: State, k: nat, e: Entry, reply: Option<Reply>)
    requires SlotsOk(limits, s) && k < |s.entries|
    requires s.entries[k].ending.Live? && e.ending.Live? && e.id == s.entries[k].id && e.kind == s.entries[k].kind
    ensures SlotsOk(limits, Advanced(s, k, e, reply)) && !s.disposed
  {
    HoldingShrinks(s.inflight, s.entries, s.inflight, s.entries[k := e], Hello);
    HoldingShrinks(s.inflight, s.entries, s.inflight, s.entries[k := e], Fetch);
  }

  lemma {:induction false} EndedSlots(limits: Limits, s: State, k: nat, reply: Option<Reply>)
    requires SlotsOk(limits, s) && k < |s.entries| && s.entries[k].ending.Live?
    ensures SlotsOk(limits, Ended(s, k, reply)) && !s.disposed
  {
    var t := Ended(s, k, reply);
    HoldingShrinks(s.inflight, s.entries, t.inflight, t.entries, Hello);
    HoldingShrinks(s.inflight, s.entries, t.inflight, t.entries, Fetch);
  }

  lemma {:induction false} EndedTrace(entry: Entry, trace: seq<Reply>, reply: Option<Reply>)
    requires entry.ending.Live? && TraceOk(entry, trace)
    requires reply.Some? ==> MayAnswer(entry, reply.value)
    ensures TraceOk(entry.(ending := if reply.Some? then Answered else Silent), Then(trace, reply))
  {
    if reply.Some? { Answering(entry, trace, reply.value); }
  }

  lemma {:induction false} EndedTraces(s: State, k: nat, reply: Option<Reply>)
    requires TracesOk(s) && k < |s.entries| && s.entries[k].ending.Live?
    requires reply.Some? ==> MayAnswer(s.entries[k], reply.value)
    ensures TracesOk(Ended(s, k, reply)) && Grown(s, Ended(s, k, reply))
    ensures reply.Some? ==> Spoken(s, Ended(s, k, reply))
  {
    var ended := s.entries[k].(ending := if reply.Some? then Answered else Silent);
    TraceAt(s.entries, s.sent, |s.entries|, k);
    EndedTrace(s.entries[k], Of(s.sent, k), reply);
    AdvancedTraces(s, k, ended, reply, Then(Of(s.sent, k), reply));
    AdvancedGrows(s, k, ended, reply);
  }

  /** What every reachable state keeps. */
  ghost predicate Good(limits: Limits, s: State) {
    match s case State(_, _, _, _) => limits.maxChunkBytes > 0 && SlotsOk(limits, s) && TracesOk(s)
  }

  /** A live reservation may move to a place its trace fits. */
  lemma {:induction false} Moves(limits: Limits, s: State, k: nat, e: Entry, reply: Option<Reply>, trace: seq<Reply>)
    requires Good(limits, s) && k < |s.entries|
    requires s.entries[k].ending.Live? && e.ending.Live? && e.id == s.entries[k].id && e.kind == s.entries[k].kind
    requires trace == Then(Of(s.sent, k), reply) && TraceOk(e, trace)
    ensures Good(limits, Advanced(s, k, e, reply)) && Spoken(s, Advanced(s, k, e, reply)) && !s.disposed
    ensures Of(Advanced(s, k, e, reply).sent, k) == trace
  {
    AdvancedTraces(s, k, e, reply, trace);
    AdvancedGrows(s, k, e, reply);
    AdvancedSlots(limits, s, k, e, reply);
  }

  /** A live reservation may be terminated, in silence or by a message its place allows. */
  lemma {:induction false} Ends(limits: Limits, s: State, k: nat, reply: Option<Reply>)
    requires Good(limits, s) && k < |s.entries| && s.entries[k].ending.Live?
    requires reply.Some? ==> MayAnswer(s.entries[k], reply.value)
    ensures Good(limits, Ended(s, k, reply)) && Grown(s, Ended(s, k, reply)) && !s.disposed
    ensures reply.Some? ==> Spoken(s, Ended(s, k, reply))
  {
    EndedTraces(s, k, reply);
    EndedSlots(limits, s, k, reply);
  }

  lemma {:induction false} LiveAt(limits: Limits, s: State, k: nat)
    requires Good(limits, s) && k < |s.entries| && s.entries[k].ending.Live?
    ensures LiveTrace(s.entries[k], Of(s.sent, k))
  {
    TraceAt(s.entries, s.sent, |s.entries|, k);
  }

  /** What a reservation's chunks have carried so far. */
  function Carried(s: State, k: nat): seq<Byte> {
    Data(Of(s.sent, k))
  }

  lemma {:induction false} ToFetching(limits: Limits, s: State, k: nat)
    requires Good(limits, s) && k < |s.entries| && s.entries[k].ending.Live? && s.entries[k].phase.Probing?
             && s.entries[k].kind.Fetch?
    ensures Good(limits, Advanced(s, k, s.entries[k].(phase := Fetching), None))
    ensures Spoken(s, Advanced(s, k, s.entries[k].(phase := Fetching), None))
  {
    LiveAt(limits, s, k);
    Moves(limits, s, k, s.entries[k].(phase := Fetching), None, []);
  }

  lemma {:induction false} HeadSent(limits: Limits, s: State, k: nat, status: int, phase: Phase)
    requires Good(limits, s) && k < |s.entries| && s.entries[k].ending.Live? && s.entries[k].phase.Fetching?
    requires phase == Reading(0) || phase == Closing(0, None)
    ensures Good(limits, Advanced(s, k, s.entries[k].(phase := phase), Some(Head(status))))
    ensures Spoken(s, Advanced(s, k, s.entries[k].(phase := phase), Some(Head(status)))) && !s.disposed
  {
    LiveAt(limits, s, k);
    var trace := [Head(status)];
    assert trace[..0] == [] && Of(s.sent, k) + [Head(status)] == trace;
    Moves(limits, s, k, s.entries[k].(phase := phase), Some(Head(status)), trace);
  }

  /** A piece of the body has been read and is about to be emitted, or is too much. */
  lemma {:induction false} PieceTaken(limits: Limits, s: State, k: nat, piece: seq<Byte>, phase: Phase)
    requires Good(limits, s) && k < |s.entries| && s.entries[k].ending.Live? && s.entries[k].phase.Reading?
    requires phase == Emitting(s.entries[k].phase.seqNo)
             || (phase.Closing? && phase.seqNo == s.entries[k].phase.seqNo && phase.failure.Some?)
    ensures Good(limits, Advanced(s, k, s.entries[k].(phase := phase, body := s.entries[k].body + piece), None))
    ensures Spoken(s, Advanced(s, k, s.entries[k].(phase := phase, body := s.entries[k].body + piece), None))
    ensures Carried(s, k) == s.entries[k].body
  {
    LiveAt(limits, s, k);
    Moves(limits, s, k, s.entries[k].(phase := phase, body := s.entries[k].body + piece), None, Of(s.sent, k));
  }

  /** One chunk goes out. */
  lemma {:induction false} ChunkSent(limits: Limits, s: State, k: nat, n: nat, bytes: seq<Byte>)
    requires Good(limits, s) && k < |s.entries| && s.entries[k].ending.Live? && s.entries[k].phase == Emitting(n)
    requires Carried(s, k) + bytes <= s.entries[k].body
    ensures Good(limits, Advanced(s, k, s.entries[k].(phase := Emitting(n + 1)), Some(Chunk(n + 1, bytes))))
    ensures Spoken(s, Advanced(s, k, s.entries[k].(phase := Emitting(n + 1)), Some(Chunk(n + 1, bytes)))) && !s.disposed
    ensures Carried(Advanced(s, k, s.entries[k].(phase := Emitting(n + 1)), Some(Chunk(n + 1, bytes))), k)
            == Carried(s, k) + bytes
  {
    LiveAt(limits, s, k);
    var trace := Of(s.sent, k);
    StreamingGrows(trace, bytes);
    Moves(limits, s, k, s.entries[k].(phase := Emitting(n + 1)), Some(Chunk(n + 1, bytes)),
        trace + [Chunk(n + 1, bytes)]);
  }

  /** Everything read has been emitted: on to the next piece. */
  lemma {:induction false} PieceDone(limits: Limits, s: State, k: nat, n: nat)
    requires Good(limits, s) && k < |s.entries| && s.entries[k].ending.Live? && s.entries[k].phase == Emitting(n)
    requires Carried(s, k) == s.entries[k].body
    ensures Good(limits, Advanced(s, k, s.entries[k].(phase := Reading(n)), None))
    ensures Spoken(s, Advanced(s, k, s.entries[k].(phase := Reading(n)), None))
  {
    LiveAt(limits, s, k);
    Moves(limits, s, k, s.entries[k].(phase := Reading(n)), None, Of(s.sent, k));
  }

  /** The body is over, or the emission or the reading of it failed: the reader is being cancelled. */
  lemma {:induction false} BodyClosed(limits: Limits, s: State, k: nat, n: nat, failure: Option<string>)
    requires Good(limits, s) && k < |s.entries| && s.entries[k].ending.Live?
    requires s.entries[k].phase == Reading(n) || (s.entries[k].phase == Emitting(n) && failure.Some?)
    ensures Good(limits, Advanced(s, k, s.entries[k].(phase := Closing(n, failure)), None))
    ensures Spoken(s, Advanced(s, k, s.entries[k].(phase := Closing(n, failure)), None))
  {
    LiveAt(limits, s, k);
    Moves(limits, s, k, s.entries[k].(phase := Closing(n, failure)), None, Of(s.sent, k));
  }

  lemma {:induction false} AfterEndSlots(limits: Limits, s: State, k: nat, e: Entry)
    requires SlotsOk(limits, s) && k < |s.entries| && s.entries[k].Terminated()
    requires e.Terminated() && e.kind == s.entries[k].kind
    ensures SlotsOk(limits, s.(entries := s.entries[k := e]))
  {
    HoldingShrinks(s.inflight, s.entries, s.inflight, s.entries[k := e], Hello);
    HoldingShrinks(s.inflight, s.entries, s.inflight, s.entries[k := e], Fetch);
  }

  lemma {:induction false} AfterEndTraces(s: State, k: nat, e: Entry)
    requires TracesOk(s) && k < |s.entries| && s.entries[k].Terminated()
    requires e == s.entries[k].(phase := e.phase)
    ensures TracesOk(s.(entries := s.entries[k := e])) && Spoken(s, s.(entries := s.entries[k := e]))
  {
    TraceAt(s.entries, s.sent, |s.entries|, k);
    FirstTracesKept(s.entries, s.sent, s.entries[k := e], s.sent, |s.entries|, k);
  }

  /** A terminated reservation's function may go on waiting or return; nothing else changes. */
  lemma {:induction false} AfterEnd(limits: Limits, s: State, k: nat, phase: Phase)
    requires Good(limits, s) && k < |s.entries| && s.entries[k].Terminated()
    ensures Good(limits, s.(entries := s.entries[k := s.entries[k].(phase := phase)]))
    ensures Spoken(s, s.(entries := s.entries[k := s.entries[k].(phase := phase)]))
  {
    AfterEndSlots(limits, s, k, s.entries[k].(phase := phase));
    AfterEndTraces(s, k, s.entries[k].(phase := phase));
  }

  /** A new reservation under an id that is not live. */
  function Admitted(s: State, id: string, kind: Kind, stream: bool): State {
    s.(entries := s.entries + [Entry(id, kind, stream, Live, Probing, [])], inflight := s.inflight[id := |s.entries|])
  }

  lemma {:induction false} Admits(limits: Limits, s: State, id: string, kind: Kind, stream: bool)
    requires Good(limits, s) && !s.disposed && id !in s.inflight
    requires |Holding(s.inflight, s.entries, kind)| < limits.maxConcurrentRequests
    ensures Good(limits, Admitted(s, id, kind, stream)) && Spoken(s, Admitted(s, id, kind, stream))
  {
    var t := Admitted(s, id, kind, stream);
    AdmittedSlots(limits, s, id, kind, stream);
    FirstTracesKept(s.entries, s.sent, t.entries, t.sent, |s.entries|, |s.entries|);
    UntaggedOf(s.sent, |s.entries|);
  }

  lemma {:induction false} UntaggedOf(sent: seq<Sent>, k: nat)
    requires TagsOk(sent, k)
    ensures Of(sent, k) == []
  {
    if sent != [] { UntaggedOf(sent[..|sent| - 1], k); }
  }

  lemma {:induction false} AdmittedSlots(limits: Limits, s: State, id: string, kind: Kind, stream: bool)
    requires SlotsOk(limits, s) && !s.disposed && id !in s.inflight
    requires |Holding(s.inflight, s.entries, kind)| < limits.maxConcurrentRequests
    ensures SlotsOk(limits, Admitted(s, id, kind, stream))
  {
    var t := Admitted(s, id, kind, stream);
    assert forall j :: 0 <= j < |s.entries| ==> t.entries[j] == s.entries[j];
    AdmittedHolding(s, t, id, kind, stream, Hello);
    AdmittedHolding(s, t, id, kind, stream, Fetch);
  }

  lemma {:induction false} AdmittedHolding(s: State, t: State, id: string, kind: Kind, stream: bool, other: Kind)
    requires t == Admitted(s, id, kind, stream) && id !in s.inflight
    requires forall i :: i in s.inflight ==> s.inflight[i] < |s.entries|
    ensures |Holding(t.inflight, t.entries, other)| 
         == |Holding(s.inflight, s.entries, other)| + if other == kind then 1 else 0
  {
    var before, after := Holding(s.inflight, s.entries, other), Holding(t.inflight, t.entries, other);
    assert after == if other == kind then before + {id} else before;
  }

  /** A refusal belongs to no reservation. */
  lemma {:induction false} RefusalSent(limits: Limits, s: State, id: string, code: string)
    requires Good(limits, s)
    ensures Good(limits, s.(sent := s.sent + [Sent(id, None, Error(code))]))
    ensures Spoken(s, s.(sent := s.sent + [Sent(id, None, Error(code))]))
  {
    var t := s.(sent := s.sent + [Sent(id, None, Error(code))]);
    forall j: nat ensures Of(t.sent, j) == Of(s.sent, j) {
      OfAppend(s.sent, Sent(id, None, Error(code)), j);
      assert Of(s.sent, j) + [] == Of(s.sent, j);
    }
    FirstTracesKept(s.entries, s.sent, t.entries, t.sent, |s.entries|, |s.entries|);
  }

  /** How an exchange ends once its body is closed. */
  function Closed(seqNo: nat, failure: Option<string>): Reply {
    if failure.Some? then Error(failure.value) else End(seqNo)
  }

  function Ceiling(limits: Limits, e: Entry): nat {
    if e.stream then limits.maxStreamResponseBytes else limits.maxResponseBytes
  }

  /** Why a response is refused before anything of it is relayed. */
  function RefusedStatus(response: Response): Option<string> {
    if IsRedirect(response) then Some("redirect-refused")
    else if response.status < 200 || response.status > 599 then Some("status-refused")
    else None
  }

  /** A slot is taken, and given up at once if the destination is refused. */
  function Opened(s: State, id: string, kind: Kind, stream: bool, refusal: Option<string>): State {
    var admitted := Admitted(s, id, kind, stream);
    match refusal
    case Some(code) => if kind.Fetch? then Ended(admitted, |s.entries|, Some(Error(code))) else admitted
    case None => admitted
  }

  /** What an inbound request comes to before its first wait. */
  function Handled(limits: Limits, s: State, request: Request): State {
    if s.disposed then s
    else match request
      case Malformed(id, code) => s.(sent := s.sent + [Sent(id, None, Error(code))])
      case Cancel(id) =>
        if id in s.inflight && s.inflight[id] < |s.entries| then Ended(s, s.inflight[id], None) else s
      case Open(id, kind, stream, refusal) =>
        if id in s.inflight then s.(sent := s.sent + [Sent(id, None, Error("duplicate-request-id"))])
        else if |Holding(s.inflight, s.entries, kind)| >= limits.maxConcurrentRequests
        then s.(sent := s.sent + [Sent(id, None, Error("too-many-requests"))])
        else Opened(s, id, kind, stream, refusal)
  }

  /** Where emitChunks stands once `offset` bytes of the piece are emitted. */
  ghost predicate Emitted(limits: Limits, first: State, s: State, k: nat, value: seq<Byte>, carried: seq<Byte>,
        next: nat, offset: nat)
  {
    match s
    case State(_, _, entries, _) =>
      && Good(limits, s) && Spoken(first, s) && k < |entries| == |first.entries|
      && entries[k].phase == Emitting(next) && entries[k].ending.Live? && entries[k].body == carried + value
      && Carried(s, k) == Part(carried, value, offset)
  }

  class BridgeRelay {
    const limits: Limits
    var disposed: bool
    /** Live reservations by request id. */
    var inflight: map<string, nat>
    /** Every reservation ever admitted, in order of admission. */
    var entries: seq<Entry>
    var sent: seq<Sent>

    ghost function Abs(): State
      reads this
    {
      State(disposed, inflight, entries, sent)
    }

    ghost predicate Valid()
      reads this
    {
      Good(limits, Abs())
    }

    twostate predicate Grew()
      reads this
    {
      Grown(old(Abs()), Abs())
    }

    /** The step releases no reservation in silence. */
    twostate predicate Spoke()
      reads this
    {
      Spoken(old(Abs()), Abs())
    }

    /** The reservation's function is at a certain place. */
    predicate At(k: nat, phase: Phase)
      reads this
    {
      k < |entries| && entries[k].phase == phase
    }

    constructor (limits: Limits)
      requires limits.maxChunkBytes > 0
      ensures Valid() && this.limits == limits && Abs() == State(false, map[], [], [])
    {
      this.limits := limits;
      disposed, inflight, entries, sent := false, map[], [], [];
    }

    /** emit: nothing is sent once the relay is disposed. */
    method Emit(message: Sent)
      modifies this`sent
      ensures sent == if disposed then old(sent) else old(sent) + [message]
    {
      if disposed { return; }
      sent := sent + [message];
    }

    /** Put a live reservation in its next place, sending what goes with it. */
    method Advance(k: nat, e: Entry, reply: Option<Reply>)
      requires k < |entries| && !disposed
      modifies this`entries, this`sent
      ensures Abs() == Advanced(old(Abs()), k, e, reply)
    {
      entries := entries[k := e];
      if reply.Some? { Emit(Sent(e.id, Some(k), reply.value)); }
    }

    /** terminate: the one terminal message a reservation is allowed, and its slot released. */
    method Terminate(k: nat, reply: Option<Reply>)
      requires Valid() && k < |entries|
      requires entries[k].ending.Live? && reply.Some? ==> MayAnswer(entries[k], reply.value)
      modifies this`entries, this`sent, this`inflight
      ensures Valid() && Grew() && (reply.Some? ==> Spoke()) && |entries| == old(|entries|) && entries[k].Terminated()
      ensures Abs() == if old(entries[k].Terminated()) then old(Abs()) else Ended(old(Abs()), k, reply)
    {
      var entry := entries[k];
      if entry.Terminated() { return; }
      Ends(limits, Abs(), k, reply);
      entries := entries[k := entry.(ending := if reply.Some? then Answered else Silent)];
      inflight := inflight - {entry.id};
      if reply.Some? { Emit(Sent(entry.id, Some(k), reply.value)); }
      assert Abs() == Ended(old(Abs()), k, reply);
    }

    /** fail: an error that ends the exchange; of no effect on one that is over. */
    method Fail(k: nat, code: string)
      requires Valid() && k < |entries|
      modifies this`entries, this`sent, this`inflight
      ensures Valid() && Spoke() && |entries| == old(|entries|) && entries[k].Terminated()
      ensures Abs() == if old(entries[k].Terminated()) then old(Abs()) else Ended(old(Abs()), k, Some(Error(code)))
    {
      Terminate(k, Some(Error(code)));
    }

    /** reserved */
    method Reserved(kind: Kind) returns (count: nat)
      requires Valid()
      ensures count == |Holding(inflight, entries, kind)|
    {
      InflightKnown(limits, Abs());
      count := CountReserved(inflight, entries, kind);
    }

    /** handle, up to its first wait. */
    method Handle(request: Request)
      requires Valid()
      modifies this
      ensures Valid() && Grew() && (!request.Cancel? ==> Spoke())
      ensures Abs() == Handled(limits, old(Abs()), request)
    {
      if disposed { return; }
      match request
      case Malformed(id, code) => Refuse(id, code);
      case Cancel(id) =>
        if id in inflight {
          InflightLive(limits, Abs(), id);
          Terminate(inflight[id], None);
        }
      case Open(id, kind, stream, refusal) =>
        if id in inflight {
          Refuse(id, "duplicate-request-id");
          return;
        }
        var count := Reserved(kind);
        if count >= limits.maxConcurrentRequests {
          Refuse(id, "too-many-requests");
          return;
        }
        Admit(id, kind, stream, refusal);
    }

    /** The slot is taken, before the first wait; a destination that is refused gives it up at once. */
    method Admit(id: string, kind: Kind, stream: bool, refusal: Option<string>)
      requires Valid() && !disposed && id !in inflight
      requires |Holding(inflight, entries, kind)| < limits.maxConcurrentRequests
      modifies this
      ensures Valid() && Spoke()
      ensures Abs() == Opened(old(Abs()), id, kind, stream, refusal)
    {
      Admits(limits, Abs(), id, kind, stream);
      entries, inflight := entries + [Entry(id, kind, stream, Live, Probing, [])], inflight[id := |entries|];
      ghost var admitted := Abs();
      assert admitted == Admitted(old(Abs()), id, kind, stream);
      if kind.Fetch? && refusal.Some? {
        Fail(|entries| - 1, refusal.value);
        assert Spoke() by { SpokenTwice(old(Abs()), admitted, Abs()); }
      }
    }

    /** An error under the caller's id, for a request that holds no reservation. */
    method Refuse(id: string, code: string)
      requires Valid() && !disposed
      modifies this`sent
      ensures Valid() && Spoke()
      ensures sent == old(sent) + [Sent(id, None, Error(code))]
    {
      RefusalSent(limits, Abs(), id, code);
      Emit(Sent(id, None, Error(code)));
      assert Abs() == old(Abs()).(sent := old(sent) + [Sent(id, None, Error(code))]);
    }

    /** The waiting function of a terminated reservation finds that out and returns. */
    method GiveUp(k: nat)
      requires Valid() && k < |entries| && entries[k].Terminated()
      modifies this`entries
      ensures Valid() && Spoke() && At(k, Returned) && sent == old(sent)
    {
      AfterEnd(limits, Abs(), k, Returned);
      entries := entries[k := entries[k].(phase := Returned)];
      assert Abs() == old(Abs()).(entries := old(entries)[k := old(entries)[k].(phase := Returned)]);
    }

    method FailAndReturn(k: nat, code: string)
      requires Valid() && k < |entries|
      modifies this
      ensures Valid() && Spoke() && At(k, Returned) && entries[k].Terminated()
      ensures sent == if old(entries[k].Terminated()) then old(sent)
                      else old(sent) + [Sent(old(entries[k].id), Some(k), Error(code))]
    {
      Fail(k, code);
      ghost var failed := Abs();
      GiveUp(k);
      SpokenTwice(old(Abs()), failed, Abs());
    }

    /** The capabilities are known: runHello answers, runFetch checks the request and goes on to fetch. */
    method CapabilitiesKnown(k: nat, verdict: Verdict)
      requires Valid() && At(k, Probing)
      modifies this
      ensures Valid() && Spoke()
      ensures old(entries[k].Terminated()) ==> sent == old(sent)
      ensures old(entries[k].ending.Live?) && old(entries[k].kind.Hello?) ==>
              sent == old(sent) + [Sent(old(entries[k].id), Some(k), HelloReply)]
      ensures old(entries[k].ending.Live?) && old(entries[k].kind.Fetch?) ==>
                if verdict.Refuse? then sent == old(sent) + [Sent(old(entries[k].id), Some(k), Error(verdict.code))]
                else sent == old(sent) && At(k, Fetching) && entries[k].ending.Live?
    {
      var entry := entries[k];
      if entry.Terminated() {
        GiveUp(k);
      } else if entry.kind.Hello? {
        Terminate(k, Some(HelloReply));
        ghost var answered := Abs();
        GiveUp(k);
        SpokenTwice(old(Abs()), answered, Abs());
      } else if verdict.Refuse? {
        FailAndReturn(k, verdict.code);
      } else {
        ToFetching(limits, Abs(), k);
        LiveOpen(limits, Abs(), k);
        Advance(k, entry.(phase := Fetching), None);
      }
    }

    /** fetch has settled with a response: refused, or announced with a head. */
    method ResponseArrived(k: nat, response: Response)
      requires Valid() && At(k, Fetching)
      modifies this
      ensures Valid() && Spoke()
      ensures old(entries[k].Terminated()) ==> sent == old(sent)
      ensures old(entries[k].ending.Live?) && RefusedStatus(response).None? ==>
                && sent == old(sent) + [Sent(old(entries[k].id), Some(k), Head(response.status))]
                   && entries[k].ending.Live?
                && At(k, if !response.hasBody || BodyLess(response.status) then Closing(0, None) else Reading(0))
      ensures old(entries[k].ending.Live?) && RefusedStatus(response).Some? ==>
                sent == old(sent) + [Sent(old(entries[k].id), Some(k), Error(RefusedStatus(response).value))]
                    && entries[k].Terminated()
    {
      var entry := entries[k];
      if entry.Terminated() {
        GiveUp(k);
      } else if IsRedirect(response) {
        FailAndReturn(k, "redirect-refused");
      } else if response.status < 200 || response.status > 599 {
        FailAndReturn(k, "status-refused");
      } else {
        var phase := if !response.hasBody || BodyLess(response.status) then Closing(0, None) else Reading(0);
        HeadSent(limits, Abs(), k, response.status, phase);
        Advance(k, entry.(phase := phase), Some(Head(response.status)));
      }
    }

    /** One chunk of a piece. */
    method EmitChunk(k: nat, seqNo: nat, bytes: seq<Byte>)
      requires Valid() && At(k, Emitting(seqNo)) && entries[k].ending.Live?
      requires Carried(Abs(), k) + bytes <= entries[k].body
      modifies this`entries, this`sent
      ensures Valid() && Spoke() && |entries| == old(|entries|)
      ensures At(k, Emitting(seqNo + 1)) && entries[k].ending.Live? && entries[k].body == old(entries[k].body)
      ensures Carried(Abs(), k) == old(Carried(Abs(), k)) + bytes
    {
      ChunkSent(limits, Abs(), k, seqNo, bytes);
      Advance(k, entries[k].(phase := Emitting(seqNo + 1)), Some(Chunk(seqNo + 1, bytes)));
    }

    /** A round of its loop. */
    method EmitNext(k: nat, value: seq<Byte>, next: nat, offset: nat, ghost first: State, ghost carried: seq<Byte>)
      requires offset < |value| && Emitted(limits, first, Abs(), k, value, carried, next, offset)
      modifies this`entries, this`sent
      ensures Emitted(limits, first, Abs(), k, value, carried, next + 1, offset + limits.maxChunkBytes)
    {
      var end := Min(offset + limits.maxChunkBytes, |value|);
      ghost var before := Abs();
      CarriesOn(carried, value, offset, limits.maxChunkBytes);
      EmitChunk(k, next, value[offset..end]);
      assert Spoken(first, Abs()) by { SpokenTwice(first, before, Abs()); }
    }

    /** The loop of emitChunks. */
    method EmitAll(k: nat, value: seq<Byte>, seqNo: nat, ghost first: State, ghost carried: seq<Byte>)
        returns (next: nat, offset: nat, failure: Option<string>)
      requires Emitted(limits, first, Abs(), k, value, carried, seqNo, 0) && limits.maxChunkBytes > 0
      modifies this`entries, this`sent
      ensures Emitted(limits, first, Abs(), k, value, carried, next, offset)
      ensures failure.None? ==> offset >= |value|
      ensures failure.Some? ==> failure == Some("too-many-chunks") && next >= limits.maxChunks
    {
      next, offset, failure := seqNo, 0, None;
      while offset < |value|
        invariant Emitted(limits, first, Abs(), k, value, carried, next, offset)
        decreases |value| - offset
      {
        if next >= limits.maxChunks { return next, offset, Some("too-many-chunks"); }
        EmitNext(k, value, next, offset, first, carried);
        next := next + 1;
        offset := offset + limits.maxChunkBytes;
      }
    }

    /** emitChunks: the piece in chunks of bounded size, numbered on; a failure when they would be too many. */
    method EmitChunks(k: nat, value: seq<Byte>, seqNo: nat) returns (next: nat, failure: Option<string>)
      requires Valid() && At(k, Emitting(seqNo)) && entries[k].ending.Live?
      requires Carried(Abs(), k) + value == entries[k].body
      modifies this`entries, this`sent
      ensures Valid() && Spoke() && |entries| == old(|entries|)
      ensures At(k, Emitting(next)) && entries[k].ending.Live?
      ensures entries[k].body == old(entries[k].body)
      ensures failure.None? ==> Carried(Abs(), k) == entries[k].body
      ensures failure.Some? ==> failure == Some("too-many-chunks") && next >= limits.maxChunks
    {
      ghost var first, carried := Abs(), Carried(Abs(), k);
      GoodBounds(limits, first);
      PartEnds(carried, value, 0);
      SpokenSame(first);
      var offset;
      next, offset, failure := EmitAll(k, value, seqNo, first, carried);
      PartEnds(carried, value, offset);
    }

    /** reader.read() has settled: another piece, the end, or a rejection. */
    method PieceRead(k: nat, seqNo: nat, piece: Option<seq<Byte>>)
      requires Valid() && At(k, Reading(seqNo))
      modifies this
      ensures Valid() && Spoke()
      ensures old(entries[k].Terminated()) ==> sent == old(sent)
      ensures old(entries[k].ending.Live?) ==> k < |entries| && entries[k].ending.Live?
      ensures old(entries[k].ending.Live?) && piece.None? ==>
              sent == old(sent) && At(k, Closing(seqNo, None)) && entries[k].body == old(entries[k].body)
      ensures old(entries[k].ending.Live?) && piece.Some? ==> entries[k].body == old(entries[k].body) + piece.value
      ensures old(entries[k].ending.Live?) && piece.Some?
              && |old(entries[k].body) + piece.value|
                 > (if old(entries[k].stream) then limits.maxStreamResponseBytes else limits.maxResponseBytes) ==>
                sent == old(sent) && At(k, Closing(seqNo, Some("response-too-large")))
      ensures old(entries[k].ending.Live?) && piece.Some?
              && |old(entries[k].body) + piece.value|
                 <= (if old(entries[k].stream) then limits.maxStreamResponseBytes else limits.maxResponseBytes) ==>
                (entries[k].phase.Reading? && Carried(Abs(), k) == entries[k].body)
                || (entries[k].phase.Closing? && entries[k].phase.failure == Some("too-many-chunks"))
    {
      var entry := entries[k];
      if entry.Terminated() {
        AfterEnd(limits, Abs(), k, Closing(seqNo, None));
        Replace(k, entry.(phase := Closing(seqNo, None)));
        return;
      }
      LiveOpen(limits, Abs(), k);
      if piece.None? {
        BodyClosed(limits, Abs(), k, seqNo, None);
        Advance(k, entry.(phase := Closing(seqNo, None)), None);
        return;
      }
      TakePiece(k, seqNo, piece.value);
    }

    /** A piece of the body: too much, or emitted. */
    method TakePiece(k: nat, seqNo: nat, piece: seq<Byte>)
      requires Valid() && At(k, Reading(seqNo)) && entries[k].ending.Live?
      modifies this
      ensures Valid() && Spoke()
      ensures k < |entries| && entries[k].ending.Live? && entries[k].body == old(entries[k].body) + piece
      ensures |old(entries[k].body) + piece| > Ceiling(limits, old(entries[k])) ==>
                sent == old(sent) && At(k, Closing(seqNo, Some("response-too-large")))
      ensures |old(entries[k].body) + piece| <= Ceiling(limits, old(entries[k])) ==>
                (entries[k].phase.Reading? && Carried(Abs(), k) == entries[k].body)
                || (entries[k].phase.Closing? && entries[k].phase.failure == Some("too-many-chunks"))
    {
      var entry := entries[k];
      var taken := entry.(body := entry.body + piece);
      LiveOpen(limits, Abs(), k);
      if |taken.body| > Ceiling(limits, entry) {
        PieceTaken(limits, Abs(), k, piece, Closing(seqNo, Some("response-too-large")));
        Advance(k, taken.(phase := Closing(seqNo, Some("response-too-large"))), None);
      } else {
        PieceTaken(limits, Abs(), k, piece, Emitting(seqNo));
        Advance(k, taken.(phase := Emitting(seqNo)), None);
        ghost var before := Abs();
        EmitPiece(k, piece, seqNo);
        SpokenTwice(old(Abs()), before, Abs());
      }
    }

    /** The rest of a round of streamBody: the piece is emitted, and the next one waited for. */
    method EmitPiece(k: nat, value: seq<Byte>, seqNo: nat)
      requires Valid() && At(k, Emitting(seqNo)) && entries[k].ending.Live?
      requires Carried(Abs(), k) + value == entries[k].body
      modifies this
      ensures Valid() && Spoke()
      ensures k < |entries| && entries[k].ending.Live? && entries[k].body == old(entries[k].body)
      ensures (entries[k].phase.Reading? && Carried(Abs(), k) == entries[k].body)
              || (entries[k].phase.Closing? && entries[k].phase.failure == Some("too-many-chunks"))
    {
      var next, failure := EmitChunks(k, value, seqNo);
      ghost var emitted := Abs();
      LiveOpen(limits, Abs(), k);
      if failure.Some? {
        BodyClosed(limits, Abs(), k, next, failure);
        Advance(k, entries[k].(phase := Closing(next, failure)), None);
      } else {
        PieceDone(limits, Abs(), k, next);
        Advance(k, entries[k].(phase := Reading(next)), None);
      }
      SpokenTwice(old(Abs()), emitted, Abs());
    }

    /** reader.read() rejected. */
    method ReadRejected(k: nat, seqNo: nat)
      requires Valid() && At(k, Reading(seqNo))
      modifies this
      ensures Valid() && Spoke()
      ensures sent == old(sent) && At(k, Closing(seqNo, Some("network-error")))
      ensures entries[k].ending == old(entries[k].ending)
    {
      var entry := entries[k];
      if entry.Terminated() {
        AfterEnd(limits, Abs(), k, Closing(seqNo, Some("network-error")));
        Replace(k, entry.(phase := Closing(seqNo, Some("network-error"))));
      } else {
        LiveOpen(limits, Abs(), k);
        BodyClosed(limits, Abs(), k, seqNo, Some("network-error"));
        Advance(k, entry.(phase := Closing(seqNo, Some("network-error"))), None);
      }
    }

    /** The reader is cancelled: the exchange ends, with the chunk count or with what went wrong. */
    method ReaderCancelled(k: nat, seqNo: nat, failure: Option<string>)
      requires Valid() && At(k, Closing(seqNo, failure))
      modifies this
      ensures Valid() && Spoke()
      ensures sent == if old(entries[k].Terminated()) then old(sent)
                      else old(sent) + [Sent(old(entries[k].id), Some(k), Closed(seqNo, failure))]
    {
      if entries[k].Terminated() {
        GiveUp(k);
      } else if failure.Some? {
        FailAndReturn(k, failure.value);
      } else {
        Terminate(k, Some(End(seqNo)));
        ghost var ended := Abs();
        GiveUp(k);
        SpokenTwice(old(Abs()), ended, Abs());
      }
    }

    /** A deadline, for the whole exchange or for the next piece, runs out at any time. */
    method DeadlineFired(k: nat)
      requires Valid() && k < |entries|
      modifies this
      ensures Valid() && Spoke() && entries[k].Terminated()
      ensures sent == if old(entries[k].Terminated()) then old(sent)
                      else old(sent) + [Sent(old(entries[k].id), Some(k), Error("deadline-exceeded"))]
    {
      Fail(k, "deadline-exceeded");
    }

    method Replace(k: nat, e: Entry)
      requires k < |entries|
      modifies this`entries
      ensures Abs() == old(Abs()).(entries := old(entries)[k := e])
    {
      entries := entries[k := e];
    }

    /** dispose: every reservation is released in silence, and nothing is sent any more. */
    method Dispose()
      requires Valid()
      modifies this
      ensures Valid() && Grew() && disposed && inflight == map[] && sent == old(sent)
      ensures forall k :: 0 <= k < |entries| ==> entries[k].Terminated()
    {
      if disposed {
        AllEnded(limits, Abs());
        SpokenSame(Abs());
        return;
      }
      ghost var first := Abs();
      disposed := true;
      for k := 0 to |entries|
        invariant |entries| == |first.entries| && sent == first.sent && disposed
        invariant forall j :: 0 <= j < k ==> entries[j] == Released(first.entries[j])
        invariant forall j :: k <= j < |entries| ==> entries[j] == first.entries[j]
      {
        entries := entries[k := Released(entries[k])];
      }
      inflight := map[];
      Disposes(limits, first);
      assert entries == ReleasedAll(first.entries);
      assert Abs() == State(true, map[], ReleasedAll(first.entries), first.sent);
    }

    /** The capability probe or the fetch rejected. */
    method Rejected(k: nat)
      requires Valid() && (At(k, Probing) || At(k, Fetching))
      modifies this
      ensures Valid() && Spoke()
      ensures sent == if old(entries[k].Terminated()) then old(sent)
                      else old(sent) + [Sent(old(entries[k].id), Some(k),
                                             Error(if old(entries[k].phase.Fetching?) then "network-error"
                                                   else "internal-error"))]
    {
      if entries[k].Terminated() {
        GiveUp(k);
      } else {
        FailAndReturn(k, if entries[k].phase.Fetching? then "network-error" else "internal-error");
      }
    }
  }

  lemma {:induction false} InflightKnown(limits: Limits, s: State)
    requires Good(limits, s)
    ensures forall id :: id in s.inflight ==> s.inflight[id] < |s.entries|
  {
  }

  lemma {:induction false} InflightLive(limits: Limits, s: State, id: string)
    requires Good(limits, s) && id in s.inflight
    ensures s.inflight[id] < |s.entries| && s.entries[s.inflight[id]].ending.Live?
  {
  }

  lemma {:induction false} GoodBounds(limits: Limits, s: State)
    requires Good(limits, s)
    ensures limits.maxChunkBytes > 0
  {
  }

  lemma {:induction false} SpokenSame(s: State)
    ensures Spoken(s, s)
  {
  }

  /** What the chunks carry once the first `n` bytes of a piece, or all of it, are emitted. */
  function Part(carried: seq<Byte>, value: seq<Byte>, n: nat): seq<Byte> {
    carried + value[..Min(n, |value|)]
  }

  /** The next chunk of a piece carries on where the last one stopped. */
  lemma {:induction false} CarriesOn(carried: seq<Byte>, value: seq<Byte>, offset: nat, step: nat)
    requires offset < |value|
    ensures Part(carried, value, offset) + value[offset..Min(offset + step, |value|)]
            == Part(carried, value, offset + step)
    ensures Part(carried, value, offset + step) <= carried + value
  {
    var end := Min(offset + step, |value|);
    assert value[..offset] + value[offset..end] == value[..end];
    assert carried + value == carried + value[..end] + value[end..];
  }

  lemma {:induction false} PartEnds(carried: seq<Byte>, value: seq<Byte>, n: nat)
    ensures Part(carried, value, 0) == carried
    ensures n >= |value| ==> Part(carried, value, n) == carried + value
  {
    assert value[..|value|] == value;
  }

  lemma {:induction false} AllEnded(limits: Limits, s: State)
    requires Good(limits, s) && s.disposed
    ensures s.inflight == map[]
    ensures forall k :: 0 <= k < |s.entries| ==> s.entries[k].Terminated()
  {
  }

  function Released(e: Entry): Entry {
    if e.ending.Live? then e.(ending := Silent) else e
  }

  function ReleasedAll(entries: seq<Entry>): (r: seq<Entry>)
    ensures |r| == |entries| && forall k :: 0 <= k < |r| ==> r[k] == Released(entries[k])
  {
    seq(|entries|, k requires 0 <= k < |entries| => Released(entries[k]))
  }

  lemma {:induction false} ReleasedTraces(entries: seq<Entry>, sent: seq<Sent>, n: nat)
    requires n <= |entries| && FirstTracesOk(entries, sent, n)
    ensures FirstTracesOk(ReleasedAll(entries), sent, n)
  {
    if n > 0 {
      ReleasedTraces(entries, sent, n - 1);
      if entries[n - 1].ending.Live? { EndedTrace(entries[n - 1], Of(sent, n - 1), None); }
    }
  }

  lemma {:induction false} Disposes(limits: Limits, s: State)
    requires Good(limits, s)
    ensures Good(limits, State(true, map[], ReleasedAll(s.entries), s.sent))
    ensures Grown(s, State(true, map[], ReleasedAll(s.entries), s.sent))
  {
    ReleasedTraces(s.entries, s.sent, |s.entries|);
    assert forall kind :: Holding(map[], ReleasedAll(s.entries), kind) == {};
  }

  /**
   * What a page sees of one admitted reservation: a prefix of head chunk* (end | error), or a
   * lone hello or error; chunks numbered from 1 that carry the body as it was read; an end
   * that counts them; nothing after the terminator, which is missing only while the
   * reservation is live or after it was released in silence. Only a cancellation by the page
   * and the disposal of the relay release one in silence: every other step keeps `Spoken`.
   */
  lemma {:induction false} ReservationGrammar(limits: Limits, s: State, k: nat)
    requires Good(limits, s) && k < |s.entries|
    ensures Grammar(Of(s.sent, k)) && Data(Of(s.sent, k)) <= s.entries[k].body
    ensures s.entries[k].ending.Answered? <==> Of(s.sent, k) != [] && Terminator(Of(s.sent, k)[|Of(s.sent, k)| - 1])
    ensures Of(s.sent, k) != [] && Of(s.sent, k)[|Of(s.sent, k)| - 1].End? ==>
              && Data(Of(s.sent, k)) == s.entries[k].body
              && Of(s.sent, k)[|Of(s.sent, k)| - 1].count == |Of(s.sent, k)| - 2
  {
    TraceAt(s.entries, s.sent, |s.entries|, k);
    TraceMeaning(s.entries[k], Of(s.sent, k));
  }

  /** Live reservations of a kind never exceed the cap. */
  lemma {:induction false} CapsHold(limits: Limits, s: State, kind: Kind, live: set<nat>)
    requires Good(limits, s)
    requires forall k :: k in live ==> k < |s.entries| && s.entries[k].ending.Live? && s.entries[k].kind == kind
    ensures |live| <= limits.maxConcurrentRequests
  {
    var ids := set k | k in live :: s.entries[k].id;
    assert ids <= Holding(s.inflight, s.entries, kind);
    SubsetSize(ids, Holding(s.inflight, s.entries, kind));
    IdsOf(limits, s, live, ids);
  }

  lemma {:induction false} IdsOf(limits: Limits, s: State, live: set<nat>, ids: set<string>)
    requires Good(limits, s)
    requires forall k :: k in live ==> k < |s.entries| && s.entries[k].ending.Live?
    requires ids == set k | k in live :: s.entries[k].id
    ensures |ids| == |live|
  {
    if live != {} {
      var k :| k in live;
      var rest := live - {k};
      var others := set j | j in rest :: s.entries[j].id;
      IdsOf(limits, s, rest, others);
      assert s.entries[k].id !in others;
      assert ids == others + {s.entries[k].id};
    }
  }

  method CountReserved(inflight: map<string, nat>, entries: seq<Entry>, kind: Kind) returns (count: nat)
    requires forall id :: id in inflight ==> inflight[id] < |entries|
    ensures count == |Holding(inflight, entries, kind)|
  {
    count := 0;
    var rest := inflight.Keys;
    ghost var holding, counted: set<string> := Holding(inflight, entries, kind), {};
    while rest != {}
      invariant rest <= inflight.Keys
      invariant counted == holding - rest && count == |counted|
      decreases rest
    {
      var id :| id in rest;
      CountOne(holding, rest, id);
      if entries[inflight[id]].kind == kind {
        count := count + 1;
      }
      rest := rest - {id};
      counted := holding - rest;
    }
    assert holding - {} == holding;
  }

  lemma {:induction false} CountOne(holding: set<string>, rest: set<string>, id: string)
    requires id in rest
    ensures |holding - (rest - {id})| == |holding - rest| + if id in holding then 1 else 0
  {
    assert holding - (rest - {id}) == holding - rest + if id in holding then {id} else {};
  }

  lemma {:induction false} LiveOpen(limits: Limits, s: State, k: nat)
    requires Good(limits, s) && k < |s.entries| && s.entries[k].ending.Live?
    ensures !s.disposed
  {
  }
}
