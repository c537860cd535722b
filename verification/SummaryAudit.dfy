/** What passing the verifier says of a journal's summaries together (src/core/context-compressor.ts:436-489). */
module SummaryAudit {
  import opened Messages
  import opened Utf8Text
  import opened SummaryChain
  import opened SummaryProjection
  import opened CompactionPlan
  import opened Compressor
  import opened SummaryRuns

  /** Every summary starts after each one committed before it has ended. */
  predicate Forward(all: seq<Summary>) {
    forall i, j :: 0 <= i < j < |all| ==> all[i].of.end < all[j].of.start
  }

  predicate AllCanonical(all: seq<Summary>) {
    forall i :: 0 <= i < |all| ==> Canonical(all[i])
  }

  lemma {:induction false} ForwardPriors(all: seq<Summary>, n: nat, i: nat)
    requires i < |all| && n <= |all| && Forward(all) && AllCanonical(all)
    ensures Priors(all, n, all[i].of.start) == all[..if n < i then n else i]
  {
    if n > 0 {
      ForwardPriors(all, n - 1, i);
      if n - 1 < i {
        assert all[..n] == all[..n - 1] + [all[n - 1]];
      } else {
        assert Canonical(all[n - 1]);
      }
    }
  }

  /** The floor lies below a run that leaves no tier past it. */
  lemma {:induction false} FloorBelow(priors: seq<Summary>, count: nat, n: nat)
    requires count <= n <= |priors| && forall i :: count <= i < n ==> priors[i].of.compaction.None?
    ensures Floor(priors, n) <= count
  {
    if NewestTier(priors, n).Some? { assert NewestTier(priors, n).value < count; }
  }

  lemma {:induction false} VerifiedAbsorbs(priors: seq<Summary>, tier: Compaction, hash: Text -> Digest)
    requires SegmentOf(priors) != Invalid && LevelsIncrease(priors)
    requires TierVerifies(tier, priors, hash) && CanonicalCompaction(tier)
    ensures AbsorbsRun(priors, tier, |tier.subsumed|)
  {
    var count := |tier.subsumed|;
    FloorBelow(priors, count, |priors|);
    CarriedLevel(priors);
    assert tier.subsumed == Digests(priors[..count]);
  }

  lemma {:induction false} VerifiedKeepsSound(all: seq<Summary>, s: Summary, events: seq<Event>, h: Hashes)
    requires Sound(all) && VerifiesAfter(s, events, all, h) && Canonical(s)
    requires forall i :: 0 <= i < |all| ==> all[i].digest != s.digest
    ensures Sound(all + [s])
  {
    if s.of.compaction.Some? { VerifiedAbsorbs(all, s.of.compaction.value, h.text); }
    NextIsSound(all, s);
  }

  lemma {:induction false} VerifiedFromTheStart(events: seq<Event>, all: seq<Summary>, h: Hashes, n: nat)
    requires n <= |all| && AllVerify(events, all, h) && AllCanonical(all) && DistinctDigests(all)
    ensures Sound(all[..n])
  {
    if n == 0 {
      NothingIsSound();
      assert all[..0] == [];
    } else {
      VerifiedFromTheStart(events, all, h, n - 1);
      NextFromTheStart(events, all, h, n - 1);
      OneMore(all[..n], all[..n - 1] + [all[n - 1]]);
    }
  }

  lemma {:induction false} NothingIsSound()
    ensures Sound([])
  {
  }

  lemma {:induction false} NextFromTheStart(events: seq<Event>, all: seq<Summary>, h: Hashes, n: nat)
    requires n < |all| && AllVerify(events, all, h) && AllCanonical(all) && DistinctDigests(all)
    requires Sound(all[..n])
    ensures Sound(all[..n] + [all[n]])
  {
    assert VerifiesAt(all, n, events, h);
    assert Canonical(all[n]);
    var before := all[..n];
    forall i | 0 <= i < |before| ensures before[i].digest != all[n].digest { assert before[i] == all[i]; }
    VerifiedKeepsSound(before, all[n], events, h);
  }

  lemma {:induction false} PassedVerifies(events: seq<Event>, all: seq<Summary>, h: Hashes)
    requires all == Summaries(events, |events|) && AllCanonical(all) && Forward(all) && Pass(events, all, h)
    ensures AllVerify(events, all, h)
  {
    forall i | 0 <= i < |all| ensures VerifiesAt(all, i, events, h) {
      ForwardPriors(all, |all|, i);
      assert Canonical(all[i]) && Verifies(all[i], events, h);
    }
  }

  lemma {:induction false} ContiguousIsForward(all: seq<Summary>)
    requires Contiguous(all)
    ensures Forward(all)
  {
    forall i, j | 0 <= i < j < |all| ensures all[i].of.end < all[j].of.start { EndsOrdered(all, i, j - 1); }
  }

  /**
   * Summaries that pass the verifier one by one are the one sound chain, tiers and all, exactly
   * when none goes back over events an earlier one covers and no two have one digest.
   */
  lemma {:induction false} PassedIsSound(events: seq<Event>, all: seq<Summary>, h: Hashes)
    requires all == Summaries(events, |events|)
    ensures Pass(events, all, h) && Forward(all) && DistinctDigests(all) <==>
            Sound(all) && AllVerify(events, all, h)
  {
    SummariesAreCanonical(events, |events|);
    assert AllCanonical(all);
    if Pass(events, all, h) && Forward(all) && DistinctDigests(all) {
      PassedVerifies(events, all, h);
      VerifiedFromTheStart(events, all, h, |all|);
      assert all[..|all|] == all;
    }
    if Sound(all) && AllVerify(events, all, h) {
      AllPass(events, all, h);
      ContiguousIsForward(all);
    }
  }

  /** ... and then they are the chain that readers walk, and it is all of them. */
  lemma {:induction false} PassedIsChain(events: seq<Event>, all: seq<Summary>, h: Hashes)
    requires all == Summaries(events, |events|) && all != []
    requires Pass(events, all, h) && Forward(all) && DistinctDigests(all)
    ensures forall chain :: IsChain(all, chain) <==> chain == all
  {
    PassedIsSound(events, all, h);
    SoundIsChain(all);
    forall chain | IsChain(all, chain) ensures chain == all { ChainUnique(all, chain, all); }
  }

  // ---- What an accepted summary is bound to ----

  /** Any two texts of these are the same, or differ in what they hash to. */
  predicate NoTextCollision(s: Summary, t: Summary, h: Hashes) {
    && (h.text(s.of.delta) == h.text(t.of.delta) ==> s.of.delta == t.of.delta)
    && (s.of.compaction.Some? && t.of.compaction.Some?
        && h.text(s.of.compaction.value.body) == h.text(t.of.compaction.value.body) ==>
          s.of.compaction.value.body == t.of.compaction.value.body)
  }

  /**
   * Two summaries accepted on any two journals: one digest is one commitment, one digest of a
   * delta or of a tier's body is one text, and one range ends in one and the same event.
   */
  lemma {:induction false} AcceptedIsBound(s: Summary, events: seq<Event>, t: Summary, others: seq<Event>, h: Hashes)
    requires Verifies(s, events, h) && Verifies(t, others, h)
    requires h.commitment(s.of) == h.commitment(t.of) ==> s.of == t.of
    requires NoTextCollision(s, t, h)
    ensures s.digest == t.digest ==> s == t
    ensures s.digest == t.digest ==> s.of.end <= |events| && s.of.end <= |others| && s.of.start >= 1
    ensures s.digest == t.digest && s.of.end >= 1 ==> events[s.of.end - 1].digest == others[s.of.end - 1].digest
    ensures s.digest == t.digest && s.of.start <= s.of.end ==>
              events[s.of.start - 1].previous == others[s.of.start - 1].previous
    ensures s.of.deltaDigest == t.of.deltaDigest ==> s.of.delta == t.of.delta
    ensures s.of.compaction.Some? && t.of.compaction.Some?
            && s.of.compaction.value.bodyDigest == t.of.compaction.value.bodyDigest ==>
              s.of.compaction.value.body == t.of.compaction.value.body
    ensures s.of.producer.SummarizerPort? && s.of.producer.response.Some? ==>
              s.of.producer.response.value == h.text(s.of.delta)
    ensures s.of.compaction.Some? && s.of.compaction.value.producer.SummarizerPort? ==>
              s.of.compaction.value.producer.response == Some(h.text(s.of.compaction.value.body))
  {
  }

  /** The digests do not collide on the commitments of two journals. */
  predicate NoCommitmentCollision(a: seq<Summary>, b: seq<Summary>, h: Hashes) {
    forall s, t :: s in a && t in b && h.commitment(s.of) == h.commitment(t.of) ==> s.of == t.of
  }

  lemma {:induction false} LinkedTake(all: seq<Summary>, n: nat)
    requires n <= |all| && Linked(all)
    ensures Linked(all[..n])
  {
  }

  /** Each summary names the digest of the one before, and only the first names none. */
  predicate Linked(all: seq<Summary>) {
    && (all != [] ==> all[0].of.previous.None?)
    && forall i :: 0 < i < |all| ==> all[i].of.previous == Some(all[i - 1].digest)
  }

  lemma {:induction false} LinkedNewest(all: seq<Summary>)
    requires Linked(all) && all != []
    ensures |all| == 1 ==> all[|all| - 1].of.previous.None?
    ensures |all| > 1 ==> all[|all| - 1].of.previous == Some(all[|all| - 2].digest)
  {
    if |all| > 1 { assert all[|all| - 1].of.previous == Some(all[(|all| - 1) - 1].digest); }
  }

  /** Each summary is known by the digest of what it commits to. */
  predicate KnownByCommitment(all: seq<Summary>, h: Hashes) {
    forall s :: s in all ==> s.digest == h.commitment(s.of)
  }

  lemma {:induction false} NewestAlike(a: seq<Summary>, b: seq<Summary>, h: Hashes)
    requires NoCommitmentCollision(a, b, h) && a != [] && b != []
    requires KnownByCommitment(a, h) && KnownByCommitment(b, h)
    requires a[|a| - 1].digest == b[|b| - 1].digest
    ensures a[|a| - 1] == b[|b| - 1]
  {
    assert a[|a| - 1] in a && b[|b| - 1] in b;
  }

  lemma {:induction false} LinkedAlike(a: seq<Summary>, b: seq<Summary>, h: Hashes)
    requires Linked(a) && Linked(b) && NoCommitmentCollision(a, b, h) && a != [] && b != []
    requires KnownByCommitment(a, h) && KnownByCommitment(b, h)
    requires a[|a| - 1].digest == b[|b| - 1].digest
    ensures a == b
  {
    NewestAlike(a, b, h);
    LinkedNewest(a);
    LinkedNewest(b);
    if |a| > 1 {
      PrefixesAlike(a, b, h);
      LinkedAlike(a[..|a| - 1], b[..|b| - 1], h);
    }
    OneMore(a, b);
  }

  lemma {:induction false} PrefixesAlike(a: seq<Summary>, b: seq<Summary>, h: Hashes)
    requires Linked(a) && Linked(b) && NoCommitmentCollision(a, b, h) && |a| > 1 && |b| > 1
    requires KnownByCommitment(a, h) && KnownByCommitment(b, h)
    ensures Linked(a[..|a| - 1]) && Linked(b[..|b| - 1]) && NoCommitmentCollision(a[..|a| - 1], b[..|b| - 1], h)
    ensures KnownByCommitment(a[..|a| - 1], h) && KnownByCommitment(b[..|b| - 1], h)
  {
    LinkedTake(a, |a| - 1);
    LinkedTake(b, |b| - 1);
  }

  lemma {:induction false} OneMore<T>(a: seq<T>, b: seq<T>)
    requires |a| > 0 && |b| > 0 && a[..|a| - 1] == b[..|b| - 1] && a[|a| - 1] == b[|b| - 1]
    ensures a == b
  {
    assert a == a[..|a| - 1] + [a[|a| - 1]] && b == b[..|b| - 1] + [b[|b| - 1]];
  }

  /**
   * The digest of the newest summary commits to the whole history of summaries: two journals
   * that pass and end in one digest have the same summaries, ending in the same events.
   */
  lemma {:induction false} OneDigestOneHistory(events: seq<Event>, a: seq<Summary>, others: seq<Event>,
        b: seq<Summary>, h: Hashes)
    requires a == Summaries(events, |events|) && b == Summaries(others, |others|) && a != [] && b != []
    requires Pass(events, a, h) && Forward(a) && DistinctDigests(a)
    requires Pass(others, b, h) && Forward(b) && DistinctDigests(b)
    requires NoCommitmentCollision(a, b, h) && a[|a| - 1].digest == b[|b| - 1].digest
    ensures a == b
    ensures forall s :: s in a ==> SameEnd(events, others, s)
  {
    PassedIsLinked(events, a, h);
    PassedIsLinked(others, b, h);
    LinkedAlike(a, b, h);
    forall s | s in a ensures SameEnd(events, others, s) {
      assert s in b;
      VerifiedEnds(events, others, s, h);
    }
  }

  lemma {:induction false} PassedIsLinked(events: seq<Event>, all: seq<Summary>, h: Hashes)
    requires all == Summaries(events, |events|)
    requires Pass(events, all, h) && Forward(all) && DistinctDigests(all)
    ensures Linked(all) && KnownByCommitment(all, h)
  {
    PassedIsSound(events, all, h);
    forall s | s in all ensures s.digest == h.commitment(s.of) { assert Verifies(s, events, h); }
  }

  /** Both journals hold the range of the summary, and it ends in the same event. */
  predicate SameEnd(events: seq<Event>, others: seq<Event>, s: Summary) {
    && 1 <= s.of.end <= |events| && s.of.end <= |others|
    && events[s.of.end - 1].digest == others[s.of.end - 1].digest
  }

  lemma {:induction false} VerifiedEnds(events: seq<Event>, others: seq<Event>, s: Summary, h: Hashes)
    requires Verifies(s, events, h) && Verifies(s, others, h)
    ensures SameEnd(events, others, s)
  {
  }
}
