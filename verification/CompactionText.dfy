/**
 * What a compacted tier and a delta say: the summarizer's text, or the words they are extracted
 * from (src/core/context-compressor.ts:330-372, 499-604).
 */
module CompactionText {
  import opened Arithmetic
  import opened Messages
  import opened Utf8Text
  import opened SummaryChain
  import opened SummaryProjection
  import opened SummaryText
  import opened CompactionPlan
  import opened Compressor

  // ---- Trimming and cutting ----

  predicate AllSpace(t: Text) {
    forall i :: 0 <= i < |t| ==> IsSpace(t[i])
  }

  lemma {:induction false} TrimEndMeans(t: Text) returns (after: Text)
    ensures t == TrimEnd(t) + after && AllSpace(after)
    ensures TrimEnd(t) != [] ==> !IsSpace(TrimEnd(t)[|TrimEnd(t)| - 1])
  {
    if t != [] && IsSpace(t[|t| - 1]) {
      var init := t[..|t| - 1];
      var rest := TrimEndMeans(init);
      after := rest + [t[|t| - 1]];
      assert t == init + [t[|t| - 1]];
    } else {
      after := [];
    }
  }

  lemma {:induction false} TrimStartMeans(t: Text) returns (before: Text)
    ensures t == before + TrimStart(t) && AllSpace(before)
    ensures TrimStart(t) != [] ==> !IsSpace(TrimStart(t)[0])
  {
    if t != [] && IsSpace(t[0]) {
      var rest := TrimStartMeans(t[1..]);
      before := [t[0]] + rest;
      assert t == [t[0]] + t[1..];
    } else {
      before := [];
    }
  }

  /** Trimming takes away white space at either end and nothing else, and leaves none there. */
  lemma {:induction false} TrimMeans(t: Text) returns (before: Text, after: Text)
    ensures t == before + Trim(t) + after && AllSpace(before) && AllSpace(after)
    ensures Trim(t) != [] ==> !IsSpace(Trim(t)[0]) && !IsSpace(Trim(t)[|Trim(t)| - 1])
  {
    before := TrimStartMeans(t);
    after := TrimEndMeans(TrimStart(t));
    assert before + (Trim(t) + after) == before + Trim(t) + after;
    if Trim(t) != [] { assert Trim(t)[0] == TrimStart(t)[0]; }
  }

  /** A cut text is a prefix and the ellipsis. */
  lemma {:induction false} CutIsPrefix(t: Text, maximum: nat) returns (kept: Text)
    ensures kept <= t
    ensures TruncatedUtf8(t, maximum) == if Bytes(t) <= maximum then t else kept + ELLIPSIS
  {
    kept := TrimEnd(t[..Cut(t, 0, maximum)]);
  }

  // ---- The words a tier is extracted from ----

  /** A text that is to be compacted, under what it is known by. */
  datatype Source = Source(digest: Digest, start: nat, end: nat, text: Text)

  /** The tier that is carried over, then the summaries no tier stands for yet, oldest first. */
  ghost predicate SourcesOf(sources: seq<Source>, chain: seq<Summary>, plan: Plan)
    requires plan.freshFrom <= plan.count <= |chain|
  {
    var n := if plan.carried.Some? then 1 else 0;
    && |sources| == n + plan.count - plan.freshFrom
    && (plan.carried.Some? ==>
          var c := plan.carried.value;
          sources[0] == Source(c.bodyDigest, c.coveredStart, c.coveredEnd, c.body))
    && forall k :: plan.freshFrom <= k < plan.count ==>
         sources[n + k - plan.freshFrom]
         == Source(chain[k].digest, chain[k].of.start, chain[k].of.end, chain[k].of.delta)
  }

  function Announced(s: Source): Text {
    A("Compacted ") + s.digest + A(" (events ") + Dec(s.start) + A("-") + Dec(s.end) + A("):") + [10]
  }

  /** How many bytes of each text there is room for. */
  function Room(sources: seq<Source>, s: Source, maximum: nat): nat {
    Max(32, Max(64, maximum / Max(|sources|, 1)) - Bytes(Announced(s)))
  }

  function SourceBlocks(sources: seq<Source>, maximum: nat): (r: seq<Text>)
    ensures |r| == |sources|
    ensures forall k :: 0 <= k < |r| ==>
              r[k] == Announced(sources[k]) + TruncatedUtf8(sources[k].text, Room(sources, sources[k], maximum))
  {
    seq(|sources|, k requires 0 <= k < |sources| =>
      Announced(sources[k]) + TruncatedUtf8(sources[k].text, Room(sources, sources[k], maximum)))
  }

  function Extracted(sources: seq<Source>, maximum: nat): Text {
    Trim(TruncatedUtf8(Spaced(SourceBlocks(sources, maximum)), maximum))
  }

  function SourceList(entries: seq<Entry>): (r: seq<Source>)
    ensures |r| == |entries|
    ensures forall k :: 0 <= k < |r| ==>
              r[k] == Source(entries[k].digest, entries[k].start, entries[k].end, entries[k].text)
  {
    seq(|entries|, k requires 0 <= k < |entries| =>
      Source(entries[k].digest, entries[k].start, entries[k].end, entries[k].text))
  }

  lemma {:induction false} HeaderOfEntry(e: Entry)
    ensures A("Compacted ") + e.digest + A(" (events ") + EventRange(e.start, e.end) + A("):") + [10]
            == Announced(Source(e.digest, e.start, e.end, e.text))
  {
    After3(A("Compacted ") + e.digest + A(" (events "), Dec(e.start), A("-"), Dec(e.end));
  }

  lemma {:induction false} EntryAt(entries: seq<Entry>, share: nat, k: nat)
    requires k < |entries|
    ensures RenderEntries(entries, share)[k] == RenderEntry(entries[k], share)
  {
    if k > 0 { EntryAt(entries[1..], share, k - 1); }
  }

  lemma {:induction false} EntriesAreBlocks(entries: seq<Entry>, maximum: nat)
    ensures RenderEntries(entries, Max(64, maximum / Max(|entries|, 1))) == SourceBlocks(SourceList(entries), maximum)
  {
    var share, sources := Max(64, maximum / Max(|entries|, 1)), SourceList(entries);
    forall k | 0 <= k < |entries|
      ensures RenderEntries(entries, share)[k] == SourceBlocks(sources, maximum)[k]
    {
      EntryAt(entries, share, k);
      HeaderOfEntry(entries[k]);
    }
  }

  lemma {:induction false} ExtractionIs(entries: seq<Entry>, maximum: nat)
    ensures ExtractiveCompaction(entries, maximum) == Extracted(SourceList(entries), maximum)
  {
    EntriesAreBlocks(entries, maximum);
    JoinedIsSpaced(SourceBlocks(SourceList(entries), maximum));
  }

  lemma {:induction false} EntriesAreSources(chain: seq<Summary>, plan: Plan)
    requires plan.freshFrom <= plan.count <= |chain|
    ensures SourcesOf(SourceList(Entries(chain, plan)), chain, plan)
  {
    var n := if plan.carried.Some? then 1 else 0;
    var entries, newer := Entries(chain, plan), chain[plan.freshFrom..plan.count];
    assert |entries| == n + plan.count - plan.freshFrom;
    forall k | plan.freshFrom <= k < plan.count
      ensures entries[n + k - plan.freshFrom]
              == Entry(chain[k].digest, chain[k].of.start, chain[k].of.end, chain[k].of.delta)
    {
      assert newer[k - plan.freshFrom] == chain[k];
      assert entries[n + (k - plan.freshFrom)] == SummaryEntries(newer)[k - plan.freshFrom];
    }
  }

  /** What a summarizer yields can be taken: it is bounded, not blank, and committed to by its provenance. */
  predicate Usable(output: Output, maximum: nat, hash: Text -> Digest) {
    && output.Output? && Trim(output.text) != [] && Bytes(Trim(output.text)) <= maximum
    && (output.response.Some? ==> output.response == Some(hash(Trim(output.text))) && output.adapterMatches)
  }

  /** ... and for a tier there must be provenance. */
  predicate UsableForTier(output: Output, maximum: nat, hash: Text -> Digest) {
    Usable(output, maximum, hash) && output.response.Some?
  }

  lemma {:induction false} TierTextSays(summarizer: Option<Output>, extractive: Text, maximum: nat, fallback: bool,
        hash: Text -> Digest)
    ensures TierText(summarizer, extractive, maximum, fallback, hash)
            == if summarizer.Some? && UsableForTier(summarizer.value, maximum, hash)
               then Some(Written(Trim(summarizer.value.text), SummarizerPort(summarizer.value.response)))
               else if summarizer.None? || fallback then Some(Written(extractive, Extractive))
               else None
  {
  }

  /**
   * A tier's body is the summarizer's trimmed text if that can be taken; else, without a summarizer
   * or with a fallback, the extraction from the carried tier's body and the deltas no tier stands
   * for yet, all of them and in order; else there is none.
   */
  lemma {:induction false} TierSays(chain: seq<Summary>, plan: Plan, maximum: nat, summarizer: Option<Output>,
        fallback: bool, hash: Text -> Digest)
      returns (sources: seq<Source>)
    requires 0 < plan.count <= |chain| && plan.freshFrom < plan.count
    ensures SourcesOf(sources, chain, plan) && InputBytes(Entries(chain, plan)) == SourceBytes(sources)
    ensures PlannedText(chain, plan, maximum, summarizer, fallback, hash)
            == if summarizer.Some? && UsableForTier(summarizer.value, maximum, hash)
               then Some(Written(Trim(summarizer.value.text), SummarizerPort(summarizer.value.response)))
               else if summarizer.None? || fallback then Some(Written(Extracted(sources, maximum), Extractive))
               else None
  {
    sources := SourceList(Entries(chain, plan));
    EntriesAreSources(chain, plan);
    InputIsSourceBytes(Entries(chain, plan));
    assert ExtractiveCompaction(Entries(chain, plan), maximum) == Extracted(sources, maximum) by {
      ExtractionIs(Entries(chain, plan), maximum);
    }
    TierTextSays(summarizer, ExtractiveCompaction(Entries(chain, plan), maximum), maximum, fallback, hash);
  }

  /** The bytes of all texts, which is what a tier saves on. */
  function SourceBytes(sources: seq<Source>): nat {
    if sources == [] then 0 else Bytes(sources[0].text) + SourceBytes(sources[1..])
  }

  lemma {:induction false} InputIsSourceBytes(entries: seq<Entry>)
    ensures InputBytes(entries) == SourceBytes(SourceList(entries))
  {
    if entries != [] {
      InputIsSourceBytes(entries[1..]);
      assert SourceList(entries)[1..] == SourceList(entries[1..]);
    }
  }

  // ---- Where a source stands ----

  /** Every text fits its share, and all of them together fit. */
  predicate AllFits(sources: seq<Source>, maximum: nat) {
    && (forall k :: 0 <= k < |sources| ==> Bytes(sources[k].text) <= Room(sources, sources[k], maximum))
    && Bytes(Spaced(SourceBlocks(sources, maximum))) <= maximum
  }

  lemma {:induction false} WholeBlock(sources: seq<Source>, maximum: nat, k: nat)
    requires k < |sources| && Bytes(sources[k].text) <= Room(sources, sources[k], maximum)
    ensures SourceBlocks(sources, maximum)[k] == Announced(sources[k]) + sources[k].text
  {
    TruncationBounded(sources[k].text, Room(sources, sources[k], maximum));
  }

  lemma {:induction false} StartsWithWord(sources: seq<Source>, maximum: nat)
    requires sources != []
    ensures Spaced(SourceBlocks(sources, maximum)) != [] && !IsSpace(Spaced(SourceBlocks(sources, maximum))[0])
  {
    var blocks := SourceBlocks(sources, maximum);
    var post := SpacedAt(blocks, 0);
    assert blocks[0][0] == Announced(sources[0])[0] == A("Compacted ")[0] == 67;
    assert Spaced(blocks)[0] == blocks[0][0];
  }

  /** Extracting only ever takes white space off the end. */
  lemma {:induction false} ExtractedEnds(sources: seq<Source>, maximum: nat) returns (space: Text)
    requires sources != [] && Bytes(Spaced(SourceBlocks(sources, maximum))) <= maximum
    ensures AllSpace(space) && Extracted(sources, maximum) + space == Spaced(SourceBlocks(sources, maximum))
  {
    var whole := Spaced(SourceBlocks(sources, maximum));
    TruncationBounded(whole, maximum);
    StartsWithWord(sources, maximum);
    assert TrimStart(whole) == whole;
    space := TrimEndMeans(whole);
  }

  /**
   * When each text fits its share and all of them fit together, the extracted body holds every one
   * of them whole under its header, in order; only white space at the very end may be gone.
   */
  lemma {:induction false} SourceStands(sources: seq<Source>, maximum: nat, k: nat)
      returns (post: Text, space: Text)
    requires k < |sources| && AllFits(sources, maximum)
    ensures AllSpace(space)
    ensures Extracted(sources, maximum) + space
            == Lead(SourceBlocks(sources, maximum), k) + (Announced(sources[k]) + sources[k].text) + post
  {
    space := ExtractedEnds(sources, maximum);
    WholeBlock(sources, maximum, k);
    post := SpacedAt(SourceBlocks(sources, maximum), k);
  }

  /** When a text does not fit its share, a prefix of it stands there, marked as cut. */
  lemma {:induction false} CutSourceStands(sources: seq<Source>, maximum: nat, k: nat)
      returns (kept: Text, post: Text, space: Text)
    requires k < |sources| && Bytes(Spaced(SourceBlocks(sources, maximum))) <= maximum
    ensures AllSpace(space) && kept <= sources[k].text
    ensures Extracted(sources, maximum) + space
            == Lead(SourceBlocks(sources, maximum), k)
               + (Announced(sources[k])
                  + if Bytes(sources[k].text) <= Room(sources, sources[k], maximum) then sources[k].text
                    else kept + ELLIPSIS)
               + post
  {
    space := ExtractedEnds(sources, maximum);
    kept := CutIsPrefix(sources[k].text, Room(sources, sources[k], maximum));
    post := SpacedAt(SourceBlocks(sources, maximum), k);
  }

  lemma {:induction false} CutEndsVisibly(kept: Text)
    requires !IsSpace((kept + ELLIPSIS)[0])
    ensures kept != [] && Trim(kept + ELLIPSIS) == kept + ELLIPSIS
  {
    NotOnlyEllipsis(kept);
    var cut := kept + ELLIPSIS;
    assert cut[|cut| - 1] == ELLIPSIS[1];
    assert TrimStart(cut) == cut;
  }

  /** When even the cut texts do not fit together, the body is a prefix of them, marked as cut. */
  lemma {:induction false} CutBodyIsPrefix(sources: seq<Source>, maximum: nat) returns (kept: Text)
    requires sources != [] && maximum >= 8 && Bytes(Spaced(SourceBlocks(sources, maximum))) > maximum
    ensures kept <= Spaced(SourceBlocks(sources, maximum)) && kept != []
    ensures Extracted(sources, maximum) == kept + ELLIPSIS
  {
    var whole := Spaced(SourceBlocks(sources, maximum));
    kept := CutIsPrefix(whole, maximum);
    StartsWithWord(sources, maximum);
    TruncationKeepsFirst(whole, maximum);
    CutEndsVisibly(kept);
  }

  lemma {:induction false} NotOnlyEllipsis(kept: Text)
    requires !IsSpace((kept + ELLIPSIS)[0])
    ensures kept != []
  {
    assert ([] + ELLIPSIS)[0] == 0x20;
  }

  // ---- The delta ----

  /**
   * A delta's text is the summarizer's trimmed text if that can be taken; else, without a summarizer
   * or with a fallback, what is extracted from the events of the range, cut and trimmed; else there
   * is none.
   */
  lemma {:induction false} DeltaSays(summarizer: Option<Output>, extract: Text, maximum: nat, fallback: bool,
        hash: Text -> Digest)
    ensures DeltaBody(summarizer, extract, maximum, fallback, hash)
            == if summarizer.Some? && Usable(summarizer.value, maximum, hash)
               then Some(Written(Trim(summarizer.value.text), SummarizerPort(summarizer.value.response)))
               else if summarizer.None? || fallback
               then Some(Written(Trim(TruncatedUtf8(extract, maximum)), Extractive))
               else None
  {
  }
}
