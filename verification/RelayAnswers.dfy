/** What the relay says to each request, read off its reservations (extension/src/relay.ts:228-268, 325-407). */
module RelayAnswers {
  import opened Messages
  import opened RelayTrace
  import opened Relay

  predicate LiveFor(entries: seq<Entry>, id: string, k: nat) {
    k < |entries| && entries[k].ending.Live? && entries[k].id == id
  }

  /** A reservation under this id has not ended. */
  predicate Busy(entries: seq<Entry>, id: string) {
    exists k :: 0 <= k < |entries| && LiveFor(entries, id, k)
  }

  /** The reservations of a kind that have not ended. */
  function LiveOf(entries: seq<Entry>, kind: Kind): set<nat> {
    set k | 0 <= k < |entries| && entries[k].ending.Live? && entries[k].kind == kind
  }

  lemma {:induction false} BusyIsInflight(limits: Limits, s: State, id: string)
    requires Good(limits, s)
    ensures Busy(s.entries, id) <==> id in s.inflight
    ensures id in s.inflight ==> LiveFor(s.entries, id, s.inflight[id])
    ensures forall k :: LiveFor(s.entries, id, k) ==> id in s.inflight && s.inflight[id] == k
  {
    if id in s.inflight { assert LiveFor(s.entries, id, s.inflight[id]); }
  }

  lemma {:induction false} LiveCount(limits: Limits, s: State, kind: Kind)
    requires Good(limits, s)
    ensures |LiveOf(s.entries, kind)| == |Holding(s.inflight, s.entries, kind)|
  {
    var live, held := LiveOf(s.entries, kind), Holding(s.inflight, s.entries, kind);
    var ids := set k | k in live :: s.entries[k].id;
    IdsOf(limits, s, live, ids);
    forall id | id in held ensures id in ids { assert s.inflight[id] in live; }
    forall id | id in ids ensures id in held {
      var k :| k in live && s.entries[k].id == id;
      assert s.inflight[id] == k;
    }
    assert ids == held;
  }

  /** Only this is said, to a request that is given no reservation. */
  predicate SaysOnly(s: State, t: State, id: string, code: string) {
    t == s.(sent := s.sent + [Sent(id, None, Error(code))])
  }

  /** A reservation of its own is taken for the request. */
  predicate Reserves(s: State, t: State, id: string, kind: Kind, stream: bool, refusal: Option<string>) {
    && |t.entries| == |s.entries| + 1 && t.entries[..|s.entries|] == s.entries && t.disposed == s.disposed
    && t.entries[|s.entries|].id == id && t.entries[|s.entries|].kind == kind && t.entries[|s.entries|].stream == stream
    && if kind.Fetch? && refusal.Some?
       then t.entries[|s.entries|].ending.Answered? && t.inflight == s.inflight
            && t.sent == s.sent + [Sent(id, Some(|s.entries|), Error(refusal.value))]
       else t.entries[|s.entries|].ending.Live? && t.inflight == s.inflight[id := |s.entries|] && t.sent == s.sent
  }

  /** Nothing is said, and the reservation under the id, if any, ends in silence. */
  predicate Silences(s: State, t: State, id: string) {
    && t.sent == s.sent && |t.entries| == |s.entries| && !Busy(t.entries, id)
    && forall k :: 0 <= k < |s.entries| ==>
         t.entries[k] == if LiveFor(s.entries, id, k) then s.entries[k].(ending := Silent) else s.entries[k]
  }

  lemma {:induction false} CancelSilences(limits: Limits, s: State, id: string)
    requires Good(limits, s) && !s.disposed
    ensures Silences(s, Handled(limits, s, Cancel(id)), id)
  {
    BusyIsInflight(limits, s, id);
  }

  lemma {:induction false} OpenAnswers(limits: Limits, s: State, id: string, kind: Kind, stream: bool,
        refusal: Option<string>)
    requires Good(limits, s) && !s.disposed
    ensures var t := Handled(limits, s, Open(id, kind, stream, refusal));
            if Busy(s.entries, id) then SaysOnly(s, t, id, "duplicate-request-id")
            else if |LiveOf(s.entries, kind)| >= limits.maxConcurrentRequests
            then SaysOnly(s, t, id, "too-many-requests")
            else Reserves(s, t, id, kind, stream, refusal)
  {
    BusyIsInflight(limits, s, id);
    LiveCount(limits, s, kind);
    if id !in s.inflight { OpenedReserves(s, id, kind, stream, refusal); }
  }

  lemma {:induction false} OpenedReserves(s: State, id: string, kind: Kind, stream: bool, refusal: Option<string>)
    requires id !in s.inflight
    ensures Reserves(s, Opened(s, id, kind, stream, refusal), id, kind, stream, refusal)
  {
  }

  /**
   * A malformed request is told so; a cancellation ends its reservation in silence; an id in
   * use is refused first, then a kind at its cap, each without a trace on any reservation; any
   * other request has one of its own, which a refused destination ends at once.
   */
  lemma {:induction false} HandledExactly(limits: Limits, s: State, request: Request)
    requires Good(limits, s) && !s.disposed
    ensures match request
            case Malformed(id, code) => SaysOnly(s, Handled(limits, s, request), id, code)
            case Cancel(id) => Silences(s, Handled(limits, s, request), id)
            case Open(id, kind, stream, refusal) =>
              if Busy(s.entries, id) then SaysOnly(s, Handled(limits, s, request), id, "duplicate-request-id")
              else if |LiveOf(s.entries, kind)| >= limits.maxConcurrentRequests
              then SaysOnly(s, Handled(limits, s, request), id, "too-many-requests")
              else Reserves(s, Handled(limits, s, request), id, kind, stream, refusal)
  {
    match request
    case Malformed(_, _) =>
    case Cancel(id) => CancelSilences(limits, s, id);
    case Open(id, kind, stream, refusal) => OpenAnswers(limits, s, id, kind, stream, refusal);
  }

  /** The responses that pass: not redirected, and 304 or 200 to 299 or 400 to 599. */
  lemma {:induction false} PassesExactly(response: Response)
    ensures RefusedStatus(response).None? <==>
            && !response.redirected
            && (response.status == 304 || 200 <= response.status < 300 || 400 <= response.status < 600)
    ensures RefusedStatus(response) == Some("redirect-refused") <==>
            response.redirected || (response.status != 304 && 300 <= response.status < 400)
    ensures RefusedStatus(response) == Some("status-refused") <==>
            !response.redirected && (response.status < 200 || response.status >= 600)
  {
    assert "redirect-refused" != "status-refused" by { assert |"redirect-refused"| != |"status-refused"|; }
  }
}
