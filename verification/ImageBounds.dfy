/** Bounding the images a provider request repeats (src/core/multimodal-contract.ts). */
module ImageBounds {
  import opened Arithmetic
  import opened Messages

  const MAX_INFERENCE_HISTORY_IMAGES: nat := 2

  /** The images of the messages from `from` on, oldest first. */
  function ImagesFrom(messages: seq<Message>, from: nat): seq<Image>
    requires from <= |messages|
    decreases |messages| - from
  {
    if from == |messages| then [] else messages[from].Images() + ImagesFrom(messages, from + 1)
  }

  /** The last `n` elements, or all when there are fewer. */
  function LastN<T>(s: seq<T>, n: nat): (r: seq<T>)
    ensures |r| == Min(|s|, n)
  {
    s[|s| - Min(|s|, n)..]
  }

  lemma {:induction false} LastNConcat<T>(a: seq<T>, b: seq<T>, n: nat)
    ensures LastN(a + b, n) == LastN(a, n - Min(n, |b|)) + LastN(b, n)
  {
  }

  /** What the messages from `from` on leave of the image budget. */
  function Left(messages: seq<Message>, from: nat, budget: nat): nat
    requires from <= |messages|
  {
    budget - Min(budget, |ImagesFrom(messages, from)|)
  }

  /** The message at `i` once newer messages have taken their images out of the budget. */
  function BoundedAt(messages: seq<Message>, i: nat, budget: nat): Message
    requires i < |messages|
  {
    messages[i].WithImages(LastN(messages[i].Images(), Left(messages, i + 1, budget)))
  }

  function Bounded(messages: seq<Message>, budget: nat): (r: seq<Message>)
    ensures |r| == |messages|
  {
    seq(|messages|, i requires 0 <= i < |messages| => BoundedAt(messages, i, budget))
  }

  /** The kept images, in order, are exactly the newest ones of the input. */
  lemma {:induction false} KeptImagesAreTheNewest(messages: seq<Message>, r: seq<Message>, from: nat, budget: nat)
    requires from <= |messages| == |r|
    requires forall i :: from <= i < |messages| ==> r[i] == BoundedAt(messages, i, budget)
    ensures ImagesFrom(r, from) == LastN(ImagesFrom(messages, from), budget)
    decreases |messages| - from
  {
    if from < |messages| {
      var own, newer := messages[from].Images(), ImagesFrom(messages, from + 1);
      var left := Left(messages, from + 1, budget);
      KeptImagesAreTheNewest(messages, r, from + 1, budget);
      assert r[from].Images() == LastN(own, left) by {
        if !messages[from].User? { assert own == []; }
      }
      LastNConcat(own, newer, budget);
      assert ImagesFrom(messages, from) == own + newer;
    }
  }

  /** Removing images touches neither roles, ids nor declared calls, so pairing survives. */
  lemma {:induction false} PairingIgnoresImages(a: seq<Message>, b: seq<Message>, open: set<string>)
    requires |a| == |b|
    requires forall i :: 0 <= i < |a| ==> a[i].WithImages([]) == b[i].WithImages([])
    ensures Unanswered(a, open) == Unanswered(b, open)
  {
    if a != [] {
      assert a[0].WithImages([]) == b[0].WithImages([]);
      forall next { PairingIgnoresImages(a[1..], b[1..], next); }
    }
  }

  /**
   * Every message keeps its role, text, ids and place, the kept images are the newest
   * two of the whole conversation, and pairing is what it was.
   */
  lemma {:induction false} BoundedHistory(messages: seq<Message>)
    ensures var r := Bounded(messages, MAX_INFERENCE_HISTORY_IMAGES);
      && (forall i :: 0 <= i < |r| ==> r[i].WithImages([]) == messages[i].WithImages([]))
      && ImagesFrom(r, 0) == LastN(ImagesFrom(messages, 0), MAX_INFERENCE_HISTORY_IMAGES)
      && Unanswered(r, {}) == Unanswered(messages, {})
  {
    KeptImagesAreTheNewest(messages, Bounded(messages, MAX_INFERENCE_HISTORY_IMAGES), 0, MAX_INFERENCE_HISTORY_IMAGES);
    PairingIgnoresImages(Bounded(messages, MAX_INFERENCE_HISTORY_IMAGES), messages, {});
  }

  /** What the walk writes at `index`, in the two cases the loop tells apart, and what it leaves of the budget. */
  lemma {:induction false} WalkStep(messages: seq<Message>, index: nat, budget: nat, left: nat, images: seq<Image>)
    requires index < |messages| && left == Left(messages, index + 1, budget) && images == messages[index].Images()
    ensures images == [] ==> BoundedAt(messages, index, budget) == messages[index]
    ensures BoundedAt(messages, index, budget) == messages[index].WithImages(images[|images| - Min(|images|, left)..])
    ensures Left(messages, index, budget) == left - Min(left, |images|)
  {
    if images == [] { assert LastN(images, left) == []; }
    assert |ImagesFrom(messages, index)| == |images| + |ImagesFrom(messages, index + 1)|;
  }

  /** The places of the array from `index` on hold what they should. */
  ghost predicate FilledFrom(messages: seq<Message>, budget: nat, filled: seq<Message>, index: nat) {
    |filled| == |messages| && forall k :: index <= k < |messages| ==> filled[k] == BoundedAt(messages, k, budget)
  }

  lemma {:induction false} FilledOne(messages: seq<Message>, budget: nat, before: seq<Message>, index: nat, m: Message)
    requires FilledFrom(messages, budget, before, index + 1) && index < |messages|
    requires m == BoundedAt(messages, index, budget)
    ensures FilledFrom(messages, budget, before[index := m], index)
  {
  }

  /** One round of the walk: the message to keep, and what is left of the budget. */
  method WalkOne(messages: seq<Message>, index: nat, ghost budget: nat, left: nat)
      returns (kept: Message, remaining: nat)
    requires index < |messages| && left == Left(messages, index + 1, budget)
    ensures kept == BoundedAt(messages, index, budget) && remaining == Left(messages, index, budget)
  {
    var message := messages[index];
    var images := message.Images();
    WalkStep(messages, index, budget, left, images);
    if images == [] { return message, left; }
    var keep := images[|images| - Min(|images|, left)..];
    kept, remaining := message.WithImages(keep), left - Min(left, |keep|);
  }

  /** The loop walks backward over the array it fills, spending what is left of the budget. */
  method BoundInferenceHistoryImages(messages: seq<Message>) returns (bounded: array<Message>)
    ensures fresh(bounded)
    ensures bounded[..] == Bounded(messages, MAX_INFERENCE_HISTORY_IMAGES)
  {
    var remaining: nat := MAX_INFERENCE_HISTORY_IMAGES;
    bounded := new Message[|messages|](_ => User("", []));
    var index := |messages|;
    while index > 0
      invariant 0 <= index <= |messages|
      invariant remaining == Left(messages, index, MAX_INFERENCE_HISTORY_IMAGES)
      invariant FilledFrom(messages, MAX_INFERENCE_HISTORY_IMAGES, bounded[..], index)
    {
      index := index - 1;
      ghost var before := bounded[..];
      var kept, left := WalkOne(messages, index, MAX_INFERENCE_HISTORY_IMAGES, remaining);
      bounded[index], remaining := kept, left;
      FilledOne(messages, MAX_INFERENCE_HISTORY_IMAGES, before, index, kept);
      assert bounded[..] == before[index := kept];
    }
  }
}
