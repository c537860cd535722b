/**
 * The compare-and-set journal store and the sealing of events onto its head
 * (src/core/memory-journal.ts:14-95; src/core/journal.ts:489-563).
 */
module MemoryJournal {
  import opened Arithmetic
  import opened Messages
  import opened SessionProjections

  datatype Head = Head(sequence: nat, digest: Link)

  datatype Record = Record(
    id: string,
    title: string,
    manifest: string,
    createdAt: nat,
    updatedAt: nat,
    pins: Pins,
    head: Head)

  // ---- Chains ----

  /** The head a chain that starts at `from` leaves behind. */
  function HeadAfter(from: Head, events: seq<Event>): Head {
    if events == [] then from else Head(events[|events| - 1].sequence, events[|events| - 1].digest)
  }

  /** Consecutive sequence numbers and digest links, from a head on. */
  predicate Chained(from: Head, events: seq<Event>) {
    forall i :: 0 <= i < |events| ==> LinkedAt(from, events, i)
  }

  predicate LinkedAt(from: Head, events: seq<Event>, i: nat)
    requires i < |events|
  {
    && events[i].sequence == from.sequence + 1 + i
    && events[i].previous == (if i == 0 then from.digest else events[i - 1].digest)
  }

  lemma {:induction false} ChainedConcat(from: Head, a: seq<Event>, b: seq<Event>)
    requires Chained(from, a) && Chained(HeadAfter(from, a), b)
    ensures Chained(from, a + b)
    ensures HeadAfter(from, a + b) == HeadAfter(HeadAfter(from, a), b)
  {
    var all := a + b;
    assert a != [] ==> LinkedAt(from, a, |a| - 1);
    forall i | 0 <= i < |all| ensures LinkedAt(from, all, i) {
      if i < |a| {
        assert LinkedAt(from, a, i);
      } else {
        assert LinkedAt(HeadAfter(from, a), b, i - |a|);
      }
    }
    assert all == a || all[|all| - 1] == b[|b| - 1];
  }

  lemma {:induction false} ChainedPrefix(from: Head, events: seq<Event>, n: nat)
    requires Chained(from, events) && n <= |events|
    ensures Chained(from, events[..n])
  {
    forall i | 0 <= i < n ensures LinkedAt(from, events[..n], i) {
      assert LinkedAt(from, events, i);
    }
  }

  // ---- Sealing ----

  /** What an event's digest is taken over. */
  datatype Preimage = Preimage(content: Content, sequence: nat, previous: Link)

  function PreimageOf(e: Event): Preimage {
    Preimage(e.content, e.sequence, e.previous)
  }

  /** Every digest is the hash of its event: `hash` stands for SHA-256 over the stable form. */
  predicate SealedBy(events: seq<Event>, hash: Preimage -> string) {
    forall i :: 0 <= i < |events| ==> events[i].digest == Sha(hash(PreimageOf(events[i])))
  }

  /** The sealing loop of commitAtHead: the drafts as a chain onto a head. */
  method SealEvents(head: Head, contents: seq<Content>, hash: Preimage -> string) returns (events: seq<Event>)
    ensures |events| == |contents|
    ensures forall i :: 0 <= i < |events| ==> events[i].content == contents[i]
    ensures Chained(head, events) && SealedBy(events, hash)
  {
    var sequence, previous := head.sequence, head.digest;
    events := [];
    for index := 0 to |contents|
      invariant |events| == index
      invariant forall i :: 0 <= i < index ==> events[i].content == contents[i]
      invariant Chained(head, events) && SealedBy(events, hash)
      invariant Head(sequence, previous) == HeadAfter(head, events) && sequence == head.sequence + index
    {
      sequence := sequence + 1;
      var digest := Sha(hash(Preimage(contents[index], sequence, previous)));
      var event := Event(contents[index], sequence, previous, digest);
      ghost var before := events;
      events := events + [event];
      previous := digest;
      forall i | 0 <= i < |events| ensures LinkedAt(head, events, i) {
        if i < index { assert LinkedAt(head, before, i); }
      }
    }
  }

  /** Two events of two histories that share a digest but not what it was taken over. */
  predicate CollideAt(a: seq<Event>, b: seq<Event>, i: nat, j: nat) {
    && i < |a| && j < |b|
    && a[i].digest == b[j].digest && PreimageOf(a[i]) != PreimageOf(b[j])
  }

  ghost predicate Collide(a: seq<Event>, b: seq<Event>) {
    exists i, j :: CollideAt(a, b, i, j)
  }

  lemma {:induction false} CollideExtends(a: seq<Event>, b: seq<Event>, m: nat, n: nat)
    requires m <= |a| && n <= |b| && Collide(a[..m], b[..n])
    ensures Collide(a, b)
  {
    var i, j :| CollideAt(a[..m], b[..n], i, j);
    assert CollideAt(a, b, i, j);
  }

  /**
   * The head digest commits to the whole history: two sealed histories from "genesis" that
   * end in the same digest are identical, or two of their events are a collision of the hash.
   */
  lemma {:induction false} SameHeadSameHistory(a: seq<Event>, b: seq<Event>, hash: Preimage -> string)
    requires Chained(Head(0, Genesis), a) && SealedBy(a, hash)
    requires Chained(Head(0, Genesis), b) && SealedBy(b, hash)
    requires HeadAfter(Head(0, Genesis), a).digest == HeadAfter(Head(0, Genesis), b).digest
    ensures a == b || Collide(a, b)
  {
    if a != [] && b != [] {
      var i, j := |a| - 1, |b| - 1;
      if PreimageOf(a[i]) != PreimageOf(b[j]) {
        assert CollideAt(a, b, i, j);
      } else {
        assert LinkedAt(Head(0, Genesis), a, i) && LinkedAt(Head(0, Genesis), b, j);
        ChainedPrefix(Head(0, Genesis), a, i);
        ChainedPrefix(Head(0, Genesis), b, j);
        SameHeadSameHistory(a[..i], b[..j], hash);
        if Collide(a[..i], b[..j]) {
          CollideExtends(a, b, i, j);
        } else {
          assert a == a[..i] + [a[i]] && b == b[..j] + [b[j]];
        }
      }
    }
  }

  /** Where the events after a sequence number begin. */
  function FirstAfter(from: Head, all: seq<Event>, afterSequence: nat): (r: nat)
    ensures r <= |all|
  {
    Min(|all|, Max(0, afterSequence - from.sequence))
  }

  method EventsAfter(ghost from: Head, all: seq<Event>, afterSequence: nat) returns (r: seq<Event>)
    requires Chained(from, all)
    ensures r == all[FirstAfter(from, all, afterSequence)..]
    ensures forall e :: e in r <==> e in all && e.sequence > afterSequence
  {
    r := [];
    for index := 0 to |all|
      invariant forall e :: e in r <==> e in all[..index] && e.sequence > afterSequence
      invariant r == if index <= FirstAfter(from, all, afterSequence) then []
                     else all[FirstAfter(from, all, afterSequence)..index]
    {
      assert LinkedAt(from, all, index);
      assert all[..index + 1] == all[..index] + [all[index]];
      if all[index].sequence > afterSequence { r := r + [all[index]]; }
    }
    assert all[..|all|] == all;
  }

  // ---- The store ----

  datatype Answer =
    | Stored(record: Record)
    | Conflict
    | UnknownSession
    | BrokenChain

  /** A batch that does not extend a head: refused as a conflict at its start, as a broken chain further on. */
  method ExtendsChain(head: Head, batch: seq<Event>) returns (refusal: Option<Answer>)
    requires batch != []
    ensures refusal.None? <==> Chained(head, batch)
    ensures refusal.Some? ==> refusal.value == if LinkedAt(head, batch, 0) then BrokenChain else Conflict
  {
    assert LinkedAt(head, batch, 0) <==> batch[0].sequence == head.sequence + 1 && batch[0].previous == head.digest;
    if batch[0].sequence != head.sequence + 1 || batch[0].previous != head.digest { return Some(Conflict); }
    for index := 1 to |batch|
      invariant forall i :: 0 <= i < index ==> LinkedAt(head, batch, i)
    {
      assert LinkedAt(head, batch, index - 1);
      assert LinkedAt(head, batch, index)
        <==> batch[index].sequence == batch[index - 1].sequence + 1 && batch[index].previous == batch[index - 1].digest;
      if batch[index].sequence != batch[index - 1].sequence + 1 || batch[index].previous != batch[index - 1].digest {
        return Some(BrokenChain);
      }
    }
    refusal := None;
  }

  /** The record after a batch: a replay moves only the title, the recency and the head. */
  function Updated(session: Record, batch: seq<Event>, replay: bool): Record {
    session.(title := Or(Last(batch, TitleIn), session.title),
             updatedAt := Or(Last(batch, RecencyIn), session.updatedAt),
             pins := if replay then session.pins else Granted(batch, session.pins),
             head := HeadAfter(session.head, batch))
  }

  /** However a run of events is cut into batches, the record ends up the same. */
  lemma {:induction false} BatchingDoesNotMatter(session: Record, a: seq<Event>, b: seq<Event>, replay: bool)
    ensures Updated(Updated(session, a, replay), b, replay) == Updated(session, a + b, replay)
  {
    LastOfSplit(a, b, TitleIn);
    LastOfSplit(a, b, RecencyIn);
    GrantedOfSplit(a, b, session.pins);
    if b == [] { assert a + b == a; }
  }

  method UpdatedRecord(session: Record, batch: seq<Event>, replay: bool) returns (updated: Record)
    requires batch != []
    ensures updated == Updated(session, batch, replay)
  {
    var title := ProjectedSessionTitle(batch, session.title);
    var pins := session.pins;
    if !replay { pins := ProjectedSessionPins(batch, session.pins); }
    var recency := LastRecencyAdvancingEvent(batch);
    var last := batch[|batch| - 1];
    updated := session.(title := title, pins := pins,
                        updatedAt := if recency.Some? then recency.value.content.recordedAt else session.updatedAt,
                        head := Head(last.sequence, last.digest));
  }

  /**
   * A record's fields are the projection of its whole history onto the record it was created
   * with: head, title and recency of all of it, pins of the part that was not replayed.
   */
  predicate ProjectsHistory(record: Record, birth: Record, history: seq<Event>, granting: seq<Event>) {
    && Chained(birth.head, history)
    && record == birth.(
                   title := Or(Last(history, TitleIn), birth.title),
                   updatedAt := Or(Last(history, RecencyIn), birth.updatedAt),
                   pins := Granted(granting, birth.pins),
                   head := HeadAfter(birth.head, history))
  }

  /** Where a live session comes from: the record it was created with, and its events that were not replayed. */
  datatype Origin = Origin(birth: Record, granting: seq<Event>)

  class MemoryJournalBackend {
    var sessions: map<string, Record>
    var events: map<string, seq<Event>>
    ghost var origins: map<string, Origin>

    ghost predicate Valid()
      reads this
    {
      && sessions.Keys == events.Keys == origins.Keys
      && forall id :: id in sessions ==>
         ProjectsHistory(sessions[id], origins[id].birth, events[id], origins[id].granting)
    }

    constructor ()
      ensures Valid() && sessions == map[] && events == map[]
    {
      sessions, events, origins := map[], map[], map[];
    }

    method CreateSession(session: Record) returns (ok: bool)
      requires Valid()
      modifies this
      ensures Valid()
      ensures ok <==> session.id !in old(sessions)
      ensures ok ==> sessions == old(sessions)[session.id := session] && events == old(events)[session.id := []]
                     && origins == old(origins)[session.id := Origin(session, [])]
      ensures !ok ==> unchanged(this)
    {
      if session.id in sessions { return false; }
      sessions := sessions[session.id := session];
      events := events[session.id := []];
      origins := origins[session.id := Origin(session, [])];
      ok := true;
    }

    method GetSession(id: string) returns (r: Option<Record>)
      ensures r == if id in sessions then Some(sessions[id]) else None
    {
      r := if id in sessions then Some(sessions[id]) else None;
    }

    /** readEvents: exactly the events after a sequence number, which are a suffix of the history. */
    method ReadEvents(id: string, afterSequence: nat) returns (r: seq<Event>)
      requires Valid()
      ensures id !in sessions ==> r == []
      ensures id in sessions ==> r == events[id][FirstAfter(origins[id].birth.head, events[id], afterSequence)..]
      ensures id in sessions ==> forall e :: e in r <==> e in events[id] && e.sequence > afterSequence
    {
      if id !in events { return []; }
      r := EventsAfter(origins[id].birth.head, events[id], afterSequence);
    }

    /** Store a batch whose record is already projected. */
    method Store(id: string, updated: Record, batch: seq<Event>, ghost grants: seq<Event>)
      requires Valid() && id in sessions
      requires ProjectsHistory(updated, origins[id].birth, events[id] + batch, origins[id].granting + grants)
      modifies this
      ensures Valid()
      ensures sessions == old(sessions)[id := updated]
      ensures events == old(events)[id := old(events)[id] + batch]
      ensures origins == old(origins)[id := Origin(old(origins)[id].birth, old(origins)[id].granting + grants)]
    {
      events := events[id := events[id] + batch];
      origins := origins[id := Origin(origins[id].birth, origins[id].granting + grants)];
      sessions := sessions[id := updated];
    }

    /** The compare-and-set: a loser, an unknown session or a batch that does not extend the chain changes nothing. */
    method Append(id: string, expected: Head, batch: seq<Event>, replay: bool) returns (r: Answer)
      requires Valid()
      modifies this
      ensures Valid()
      ensures r.Stored? <==> id in old(sessions) && old(sessions)[id].head == expected && Chained(expected, batch)
      ensures r.UnknownSession? <==> id !in old(sessions)
      ensures r.Conflict? <==>
                && id in old(sessions)
                && (old(sessions)[id].head != expected || (batch != [] && !LinkedAt(expected, batch, 0)))
      ensures !r.Stored? ==> unchanged(this)
      ensures r.Stored? ==>
                && sessions == old(sessions)[id := r.record]
                && events == old(events)[id := old(events)[id] + batch]
                && origins == old(origins)[id := Origin(old(origins)[id].birth,
                                                        old(origins)[id].granting + if replay then [] else batch)]
                && r.record.head == HeadAfter(expected, batch)
      ensures r.Stored? && replay ==> r.record.pins == old(sessions)[id].pins
    {
      if id !in sessions { return UnknownSession; }
      var session := sessions[id];
      if session.head != expected { return Conflict; }
      ghost var grants := if replay then [] else batch;
      if batch == [] {
        HistoryGrows(origins[id].birth, session, events[id], origins[id].granting, batch, replay, session);
        Store(id, session, batch, grants);
        assert sessions == old(sessions);
        return Stored(session);
      }
      var check := ExtendsChain(expected, batch);
      if check.Some? { return check.value; }
      var updated := UpdatedRecord(session, batch, replay);
      HistoryGrows(origins[id].birth, session, events[id], origins[id].granting, batch, replay, updated);
      Store(id, updated, batch, grants);
      r := Stored(updated);
    }

    method DeleteSession(id: string, expected: Head) returns (ok: bool)
      requires Valid()
      modifies this
      ensures Valid()
      ensures ok <==> id !in old(sessions) || old(sessions)[id].head == expected
      ensures ok ==> sessions == old(sessions) - {id} && events == old(events) - {id} && origins == old(origins) - {id}
      ensures !ok ==> unchanged(this)
    {
      ok := true;
      if id !in sessions { return; }
      if sessions[id].head != expected { return false; }
      sessions, events, origins := sessions - {id}, events - {id}, origins - {id};
    }
  }

  /** A record updated from the batch alone is the projection of the longer history. */
  lemma {:induction false} HistoryGrows(birth: Record, session: Record, history: seq<Event>, granting: seq<Event>,
        batch: seq<Event>, replay: bool, updated: Record)
    requires ProjectsHistory(session, birth, history, granting)
    requires Chained(session.head, batch)
    requires updated == Updated(session, batch, replay)
    ensures ProjectsHistory(updated, birth, history + batch, granting + if replay then [] else batch)
  {
    assert granting + [] == granting;
    ChainedConcat(birth.head, history, batch);
    LastOfSplit(history, batch, TitleIn);
    LastOfSplit(history, batch, RecencyIn);
    GrantedOfSplit(granting, batch, birth.pins);
  }
}
