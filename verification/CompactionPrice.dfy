/** The numbers of a commitment, told as bounds on real quantities (src/core/context-compressor.ts:291-434). */
module CompactionPrice {
  import opened Messages
  import opened Utf8Text
  import opened SummaryChain
  import opened SummaryProjection
  import opened CompactionPlan
  import opened Compressor

  /** Ratios are kept as the nearest whole basis points, a half rounding up. */
  lemma {:induction false} BasisPointsNearest(ratio: real, points: int)
    ensures BasisPoints(ratio) == points <==> points as real - 0.5 <= ratio * 10000.0 < points as real + 0.5
  {
  }

  lemma {:induction false} CeilingLeast(x: real, n: int)
    ensures Ceiling(x) == n <==> n as real - 1.0 < x <= n as real
  {
  }

  lemma {:induction false} QuotientBounds(a: real, b: real, n: real)
    requires b > 0.0
    ensures a / b <= n <==> a <= n * b
    ensures n <= a / b <==> n * b <= a
  {
    var q := a / b;
    assert q * b == a;
    if q <= n { assert (n - q) * b >= 0.0; } else { assert (q - n) * b > 0.0; }
    if n <= q { assert (q - n) * b >= 0.0; } else { assert (n - q) * b > 0.0; }
  }

  /** A text costs the fewest whole tokens that carry its bytes, and at least one. */
  lemma {:induction false} TokensCarryTheText(text: Text, bytesPerToken: real)
    requires bytesPerToken > 0.0
    ensures SummaryTokens(text, bytesPerToken) >= 1
    ensures Bytes(text) as real <= SummaryTokens(text, bytesPerToken) as real * bytesPerToken
    ensures SummaryTokens(text, bytesPerToken) > 1 ==>
              (SummaryTokens(text, bytesPerToken) as real - 1.0) * bytesPerToken < Bytes(text) as real
  {
    var bytes, n := Bytes(text) as real, SummaryTokens(text, bytesPerToken);
    CeilingLeast(bytes / bytesPerToken, Ceiling(bytes / bytesPerToken));
    QuotientBounds(bytes, bytesPerToken, n as real);
    QuotientBounds(bytes, bytesPerToken, n as real - 1.0);
  }

  /** A tier saves the most whole tokens that the bytes it spares are worth, and none if it spares none. */
  lemma {:induction false} SavedAreSpared(input: nat, body: nat, bytesPerToken: real)
    requires bytesPerToken > 0.0
    ensures Saved(input, body, bytesPerToken) as real * bytesPerToken
         <= if input >= body then (input - body) as real else 0.0
    ensures (input - body) as real < (Saved(input, body, bytesPerToken) as real + 1.0) * bytesPerToken
  {
    var spared, n := (input - body) as real, Saved(input, body, bytesPerToken);
    QuotientBounds(spared, bytesPerToken, n as real);
    QuotientBounds(spared, bytesPerToken, n as real + 1.0);
    if input < body { QuotientBounds(spared, bytesPerToken, 0.0); }
  }

  /** The projection may take 12 % of a window at 3.6 bytes a token, in whole bytes, between 48 and 512 KiB. */
  lemma {:induction false} BudgetIsAShare(window: int)
    ensures 48 * 1024 < BudgetBytes(window) < 512 * 1024 ==>
              BudgetBytes(window) as real <= window as real * 3.6 * 0.12 < BudgetBytes(window) as real + 1.0
    ensures BudgetBytes(window) == 48 * 1024 <==>
              window <= 0 || window > MAX_SEQUENCE || window as real * 3.6 * 0.12 < 48.0 * 1024.0 + 1.0
    ensures BudgetBytes(window) == 512 * 1024 <==>
              window <= MAX_SEQUENCE && window as real * 3.6 * 0.12 >= 512.0 * 1024.0
  {
  }

  /** A run leaves room exactly when what is projected with it takes three quarters of the budget at most. */
  lemma {:induction false} RoomIsAQuarter(sizes: seq<nat>, count: nat, maxBody: nat, pending: nat, budget: int)
    ensures RunLeavesRoom(sizes, count, maxBody, pending, budget) <==>
            Projects(sizes, count, NewHead(maxBody), pending) as real <= budget as real * 0.75
    ensures RunFits(sizes, count, maxBody, pending, budget) <==>
            Projects(sizes, count, NewHead(maxBody), pending) <= budget
  {
  }
}
