/** Fields a session record derives from its events (src/core/journal.ts:661-881). */
module SessionProjections {
  import opened Messages

  datatype Mode = AskFirst | AutoApprove | FullAccess

  /** A compressed-context policy, in canonical form. */
  type Policy = string

  /** What a `session.model-changed` payload says about the policy: nothing usable, an explicit null, or a policy. */
  datatype PolicyField = Unnamed | Null | Named(policy: Policy)

  /**
   * An event's type and payload as the projections read them. An optional field is None
   * when the payload does not carry a usable value.
   */
  datatype Body =
    | Renamed(title: Option<string>)
    | ModelChanged(model: Option<string>, policy: PolicyField)
    | ApprovalChanged(mode: Option<Mode>)
    | Bookkeeping  // about the conversation's place in the interface
    | Other

  datatype Content = Content(eventId: string, sessionId: string, recordedAt: nat, body: Body)

  /** "genesis", or a digest. */
  datatype Link = Genesis | Sha(text: string)

  datatype Event = Event(content: Content, sequence: nat, previous: Link, digest: Link)

  /** The policy override of a record: absent, an explicit null, or a policy. */
  type Override = Option<Option<Policy>>

  datatype Pins = Pins(approval: Option<Mode>, model: Option<string>, policy: Override)

  predicate ValidModelId(model: string) {
    && |model| <= 256
    && (forall i :: 0 <= i < |model| ==> ' ' <= model[i] <= '~')
    && exists i :: 0 <= i < |model| && model[i] != ' '
  }

  // ---- What an event says ----

  function TitleIn(e: Event): Option<string> {
    if e.content.body.Renamed? then e.content.body.title else None
  }

  function ModelIn(e: Event): Option<string> {
    if e.content.body.ModelChanged? && e.content.body.model.Some? && ValidModelId(e.content.body.model.value)
    then e.content.body.model else None
  }

  function PolicyIn(e: Event): Override {
    if !e.content.body.ModelChanged? then None
    else match e.content.body.policy case Unnamed => None case Null => Some(None) case Named(p) => Some(Some(p))
  }

  function ApprovalIn(e: Event): Option<Mode> {
    if e.content.body.ApprovalChanged? then e.content.body.mode else None
  }

  function RecencyIn(e: Event): Option<nat> {
    if e.content.body.Bookkeeping? then None else Some(e.content.recordedAt)
  }

  // ---- The last event that says so ----

  /** The value the last event that says anything gives, by some reading of events. */
  function Last<T>(events: seq<Event>, says: Event -> Option<T>): Option<T> {
    if events == [] then None
    else if says(events[|events| - 1]).Some? then says(events[|events| - 1])
    else Last(events[..|events| - 1], says)
  }

  function Or<T>(value: Option<T>, fallback: T): T {
    if value.Some? then value.value else fallback
  }

  function OrElse<T>(value: Option<T>, fallback: Option<T>): Option<T> {
    if value.Some? then value else fallback
  }

  /** However a history is cut in two, the later part speaks first. */
  lemma {:induction false} LastOfSplit<T>(a: seq<Event>, b: seq<Event>, says: Event -> Option<T>)
    ensures Last(a + b, says) == OrElse(Last(b, says), Last(a, says))
  {
    if b == [] {
      assert a + b == a;
    } else {
      assert (a + b)[..|a + b| - 1] == a + b[..|b| - 1];
      LastOfSplit(a, b[..|b| - 1], says);
    }
  }

  // ---- The source's backward walks ----

  method ProjectedSessionTitle(events: seq<Event>, fallback: string) returns (r: string)
    ensures r == Or(Last(events, TitleIn), fallback)
  {
    var index := |events|;
    assert events[..|events|] == events;
    while index > 0
      invariant 0 <= index <= |events|
      invariant Last(events, TitleIn) == Last(events[..index], TitleIn)
    {
      index := index - 1;
      assert events[..index + 1][..index] == events[..index];
      var event := events[index];
      if event.content.body.Renamed? && event.content.body.title.Some? { return event.content.body.title.value; }
    }
    r := fallback;
  }

  method ProjectedSessionModel(events: seq<Event>, fallback: Option<string>) returns (r: Option<string>)
    ensures r == OrElse(Last(events, ModelIn), fallback)
  {
    var index := |events|;
    assert events[..|events|] == events;
    while index > 0
      invariant 0 <= index <= |events|
      invariant Last(events, ModelIn) == Last(events[..index], ModelIn)
    {
      index := index - 1;
      assert events[..index + 1][..index] == events[..index];
      var event := events[index];
      if event.content.body.ModelChanged? {
        var model := event.content.body.model;
        if model.Some? && ValidModelId(model.value) { return model; }
      }
    }
    r := fallback;
  }

  method ProjectedSessionContextPolicy(events: seq<Event>, fallback: Override) returns (r: Override)
    ensures r == OrElse(Last(events, PolicyIn), fallback)
  {
    var index := |events|;
    assert events[..|events|] == events;
    while index > 0
      invariant 0 <= index <= |events|
      invariant Last(events, PolicyIn) == Last(events[..index], PolicyIn)
    {
      index := index - 1;
      assert events[..index + 1][..index] == events[..index];
      var event := events[index];
      if !event.content.body.ModelChanged? { continue; }
      match event.content.body.policy
      case Null => return Some(None);
      case Named(policy) => return Some(Some(policy));
      case Unnamed =>
    }
    r := fallback;
  }

  method ProjectedSessionApprovalMode(events: seq<Event>, fallback: Option<Mode>) returns (r: Option<Mode>)
    ensures r == OrElse(Last(events, ApprovalIn), fallback)
  {
    var index := |events|;
    assert events[..|events|] == events;
    while index > 0
      invariant 0 <= index <= |events|
      invariant Last(events, ApprovalIn) == Last(events[..index], ApprovalIn)
    {
      index := index - 1;
      assert events[..index + 1][..index] == events[..index];
      var event := events[index];
      if event.content.body.ApprovalChanged? && event.content.body.mode.Some? { return event.content.body.mode; }
    }
    r := fallback;
  }

  method LastRecencyAdvancingEvent(events: seq<Event>) returns (r: Option<Event>)
    ensures (if r.Some? then Some(r.value.content.recordedAt) else None) == Last(events, RecencyIn)
    ensures r.Some? ==> r.value in events && !r.value.content.body.Bookkeeping?
  {
    var index := |events|;
    assert events[..|events|] == events;
    while index > 0
      invariant 0 <= index <= |events|
      invariant Last(events, RecencyIn) == Last(events[..index], RecencyIn)
    {
      index := index - 1;
      assert events[..index + 1][..index] == events[..index];
      if !events[index].content.body.Bookkeeping? { return Some(events[index]); }
    }
    r := None;
  }

  /** The pins a history grants on top of those a record carries. */
  function Granted(events: seq<Event>, pins: Pins): Pins {
    Pins(OrElse(Last(events, ApprovalIn), pins.approval),
         OrElse(Last(events, ModelIn), pins.model),
         OrElse(Last(events, PolicyIn), pins.policy))
  }

  method ProjectedSessionPins(events: seq<Event>, current: Pins) returns (r: Pins)
    ensures r == Granted(events, current)
  {
    var approval := ProjectedSessionApprovalMode(events, current.approval);
    var model := ProjectedSessionModel(events, current.model);
    var policy := ProjectedSessionContextPolicy(events, current.policy);
    r := Pins(approval, model, policy);
  }

  lemma {:induction false} GrantedOfSplit(a: seq<Event>, b: seq<Event>, pins: Pins)
    ensures Granted(b, Granted(a, pins)) == Granted(a + b, pins)
  {
    LastOfSplit(a, b, ApprovalIn);
    LastOfSplit(a, b, ModelIn);
    LastOfSplit(a, b, PolicyIn);
  }

  // ---- What a record says, told by the events themselves ----

  lemma {:induction false} LastAt<T>(events: seq<Event>, says: Event -> Option<T>, k: nat)
    requires k < |events| && says(events[k]).Some?
    requires forall j :: k < j < |events| ==> says(events[j]).None?
    ensures Last(events, says) == says(events[k])
  {
    if k < |events| - 1 { LastAt(events[..|events| - 1], says, k); }
  }

  lemma {:induction false} LastNowhere<T>(events: seq<Event>, says: Event -> Option<T>)
    requires forall j :: 0 <= j < |events| ==> says(events[j]).None?
    ensures Last(events, says).None?
  {
    if events != [] { LastNowhere(events[..|events| - 1], says); }
  }

  /** The event leaves a pinned policy as it is. */
  predicate LeavesPolicy(e: Event) {
    !e.content.body.ModelChanged? || e.content.body.policy.Unnamed?
  }

  /** An explicit null clears the policy, and stays an override of its own until a policy is named again. */
  lemma {:induction false} PolicyOfRecord(events: seq<Event>, k: nat, pins: Pins)
    requires k <= |events| && forall j :: k <= j < |events| ==> LeavesPolicy(events[j])
    ensures k == 0 ==> Granted(events, pins).policy == pins.policy
    ensures k > 0 && events[k - 1].content.body.ModelChanged? ==>
              match events[k - 1].content.body.policy
              case Null => Granted(events, pins).policy == Some(None)
              case Named(policy) => Granted(events, pins).policy == Some(Some(policy))
              case Unnamed => true
  {
    if k == 0 {
      LastNowhere(events, PolicyIn);
    } else if !LeavesPolicy(events[k - 1]) {
      LastAt(events, PolicyIn, k - 1);
    }
  }

  /** effectiveSessionContextPolicy: the override if there is one, else the policy of the manifest. */
  function InForce(manifest: Option<Policy>, pinned: Override): Option<Policy> {
    match pinned case None => manifest case Some(policy) => policy
  }

  /** A policy cleared by an explicit null does not fall back to that of the manifest. */
  lemma {:induction false} ClearedPolicyStaysCleared(events: seq<Event>, k: nat, pins: Pins, manifest: Option<Policy>)
    requires k < |events| && forall j :: k < j < |events| ==> LeavesPolicy(events[j])
    requires events[k].content.body.ModelChanged? && events[k].content.body.policy.Null?
    ensures InForce(manifest, Granted(events, pins).policy) == None
  {
    PolicyOfRecord(events, k + 1, pins);
  }

  predicate NamesModel(e: Event, model: string) {
    e.content.body.ModelChanged? && e.content.body.model == Some(model) && ValidModelId(model)
  }

  /** The model is the last valid one named, whatever unusable ones were named since. */
  lemma {:induction false} ModelOfRecord(events: seq<Event>, k: nat, pins: Pins)
    requires k <= |events| && forall j, model :: k <= j < |events| ==> !NamesModel(events[j], model)
    ensures k == 0 ==> Granted(events, pins).model == pins.model
    ensures forall model :: k > 0 && NamesModel(events[k - 1], model) ==> Granted(events, pins).model == Some(model)
  {
    forall j | k <= j < |events| ensures ModelIn(events[j]).None? {
      if ModelIn(events[j]).Some? { assert NamesModel(events[j], ModelIn(events[j]).value); }
    }
    if k == 0 {
      LastNowhere(events, ModelIn);
    } else if ModelIn(events[k - 1]).Some? {
      LastAt(events, ModelIn, k - 1);
    }
  }

  predicate SetsMode(e: Event, mode: Mode) {
    e.content.body == ApprovalChanged(Some(mode))
  }

  lemma {:induction false} ModeOfRecord(events: seq<Event>, k: nat, pins: Pins)
    requires k <= |events| && forall j, mode :: k <= j < |events| ==> !SetsMode(events[j], mode)
    ensures k == 0 ==> Granted(events, pins).approval == pins.approval
    ensures forall mode :: k > 0 && SetsMode(events[k - 1], mode) ==> Granted(events, pins).approval == Some(mode)
  {
    forall j | k <= j < |events| ensures ApprovalIn(events[j]).None? {
      if ApprovalIn(events[j]).Some? { assert SetsMode(events[j], ApprovalIn(events[j]).value); }
    }
    if k == 0 {
      LastNowhere(events, ApprovalIn);
    } else if ApprovalIn(events[k - 1]).Some? {
      LastAt(events, ApprovalIn, k - 1);
    }
  }

  predicate Renames(e: Event, title: string) {
    e.content.body == Renamed(Some(title))
  }

  lemma {:induction false} TitleOfRecord(events: seq<Event>, k: nat)
    requires k <= |events| && forall j, title :: k <= j < |events| ==> !Renames(events[j], title)
    ensures k == 0 ==> Last(events, TitleIn).None?
    ensures forall title :: k > 0 && Renames(events[k - 1], title) ==> Last(events, TitleIn) == Some(title)
  {
    forall j | k <= j < |events| ensures TitleIn(events[j]).None? {
      if TitleIn(events[j]).Some? { assert Renames(events[j], TitleIn(events[j]).value); }
    }
    if k == 0 {
      LastNowhere(events, TitleIn);
    } else if TitleIn(events[k - 1]).Some? {
      LastAt(events, TitleIn, k - 1);
    }
  }

  lemma {:induction false} RecencyOfRecord(events: seq<Event>, k: nat)
    requires k <= |events| && forall j :: k <= j < |events| ==> events[j].content.body.Bookkeeping?
    ensures k == 0 ==> Last(events, RecencyIn).None?
    ensures k > 0 && !events[k - 1].content.body.Bookkeeping? ==>
              Last(events, RecencyIn) == Some(events[k - 1].content.recordedAt)
  {
    if k == 0 {
      LastNowhere(events, RecencyIn);
    } else if !events[k - 1].content.body.Bookkeeping? {
      LastAt(events, RecencyIn, k - 1);
    }
  }
}
