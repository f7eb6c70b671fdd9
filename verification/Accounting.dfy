/** Buckets, request entries and totals of the gateway accounting
    (gateway_supervisor.py, `new_accounting`, `add_accounting`, `token_cost_micro_cny`). */
module Accounting {

  datatype Bucket = Bucket(inputTokens: int, outputTokens: int, costMicroCny: int) {
    function Plus(b: Bucket): Bucket
    {
      Bucket(inputTokens + b.inputTokens, outputTokens + b.outputTokens, costMicroCny + b.costMicroCny)
    }

    function Minus(b: Bucket): Bucket
    {
      Bucket(inputTokens - b.inputTokens, outputTokens - b.outputTokens, costMicroCny - b.costMicroCny)
    }

    // What this bucket has beyond b, field by field, never negative.
    function Beyond(b: Bucket): Bucket
    {
      Bucket(Positive(inputTokens - b.inputTokens),
             Positive(outputTokens - b.outputTokens),
             Positive(costMicroCny - b.costMicroCny))
    }

    predicate Nonnegative()
    {
      inputTokens >= 0 && outputTokens >= 0 && costMicroCny >= 0
    }
  }

  const ZERO := Bucket(0, 0, 0)

  function Positive(x: int): nat
  {
    if x > 0 then x else 0
  }

  datatype Pricing = Pricing(input: nat, output: nat)

  // Micro-CNY for one request, rounded up.
  function TokenCost(inputTokens: int, outputTokens: int, pricing: Pricing): int
  {
    (inputTokens * pricing.input + outputTokens * pricing.output + 999_999) / 1_000_000
  }

  datatype Totals = Totals(reservation: Bucket, actual: Bucket, refund: Bucket, supplement: Bucket,
                           unreconciledReservation: Bucket) {
    predicate Nonnegative()
    {
      reservation.Nonnegative() && actual.Nonnegative() && refund.Nonnegative() &&
      supplement.Nonnegative() && unreconciledReservation.Nonnegative()
    }

    function Plus(t: Totals): Totals
    {
      Totals(reservation.Plus(t.reservation), actual.Plus(t.actual), refund.Plus(t.refund),
             supplement.Plus(t.supplement), unreconciledReservation.Plus(t.unreconciledReservation))
    }
  }

  const NO_TOTALS := Totals(ZERO, ZERO, ZERO, ZERO, ZERO)

  datatype Status = Pending | Reconciled | Unreconciled

  datatype Entry = Entry(sequence: int, status: Status, buckets: Totals)

  datatype Accounting = Accounting(attempted: int, reconciled: int, unreconciled: int,
                                   entries: seq<Entry>, totals: Totals)

  const NEW_ACCOUNTING := Accounting(0, 0, 0, [], NO_TOTALS)

  // The five columns of the entries, added up.
  function Sum(entries: seq<Entry>): Totals
  {
    if entries == [] then NO_TOTALS
    else Sum(entries[..|entries| - 1]).Plus(entries[|entries| - 1].buckets)
  }

  function Count(entries: seq<Entry>, status: Status): nat
  {
    if entries == [] then 0
    else Count(entries[..|entries| - 1], status) + (if entries[|entries| - 1].status == status then 1 else 0)
  }

  lemma SumSnoc(entries: seq<Entry>, e: Entry)
    ensures Sum(entries + [e]) == Sum(entries).Plus(e.buckets)
    ensures forall status :: Count(entries + [e], status)
                             == Count(entries, status) + (if e.status == status then 1 else 0)
  {
    assert (entries + [e])[..|entries|] == entries;
  }

  // Reservation plus supplement less refund less unreconciled reservation is what was used.
  predicate Balanced(t: Totals)
  {
    && t.reservation.inputTokens + t.supplement.inputTokens
       - t.refund.inputTokens - t.unreconciledReservation.inputTokens == t.actual.inputTokens
    && t.reservation.outputTokens + t.supplement.outputTokens
       - t.refund.outputTokens - t.unreconciledReservation.outputTokens == t.actual.outputTokens
    && t.reservation.costMicroCny + t.supplement.costMicroCny
       - t.refund.costMicroCny - t.unreconciledReservation.costMicroCny == t.actual.costMicroCny
  }

  lemma BalancedPlus(t: Totals, u: Totals)
    requires Balanced(t) && Balanced(u)
    ensures Balanced(t.Plus(u))
  {
  }

  lemma {:induction false} BalancedEntriesBalance(entries: seq<Entry>)
    requires forall i :: 0 <= i < |entries| ==> Balanced(entries[i].buckets)
    ensures Balanced(Sum(entries))
  {
    if entries != [] {
      var init, last := entries[..|entries| - 1], entries[|entries| - 1].buckets;
      BalancedEntriesBalance(init);
      BalancedPlus(Sum(init), last);
      assert Sum(entries) == Sum(init).Plus(last);
    }
  }

  lemma {:induction false} CountsPartition(entries: seq<Entry>)
    ensures Count(entries, Pending) + Count(entries, Reconciled) + Count(entries, Unreconciled) == |entries|
  {
    if entries != [] {
      CountsPartition(entries[..|entries| - 1]);
    }
  }

  lemma {:induction false} CountZeroIffAbsent(entries: seq<Entry>, status: Status)
    ensures Count(entries, status) == 0 <==> forall i :: 0 <= i < |entries| ==> entries[i].status != status
  {
    if entries != [] {
      CountZeroIffAbsent(entries[..|entries| - 1], status);
    }
  }

  lemma {:induction false} SumNonnegative(entries: seq<Entry>)
    requires forall i :: 0 <= i < |entries| ==> entries[i].buckets.Nonnegative()
    ensures Sum(entries).Nonnegative()
  {
    if entries != [] {
      SumNonnegative(entries[..|entries| - 1]);
    }
  }

  lemma TokenCostMonotone(i: int, o: int, i': int, o': int, pricing: Pricing)
    requires i <= i' && o <= o'
    ensures TokenCost(i, o, pricing) <= TokenCost(i', o', pricing)
  {
    assert i * pricing.input <= i' * pricing.input;
    assert o * pricing.output <= o' * pricing.output;
  }

  // Price of a run of requests in micro-CNY per million tokens, before any rounding.
  function ExactCost(actual: Bucket, pricing: Pricing): int
  {
    actual.inputTokens * pricing.input + actual.outputTokens * pricing.output
  }

  /** Rounding each request up overstates the exact cost by less than one micro-unit a request. */
  lemma {:induction false} CeilingsOvershootBelowOnePerRequest(entries: seq<Entry>, pricing: Pricing)
    requires forall i :: 0 <= i < |entries| ==>
      var a := entries[i].buckets.actual; a.costMicroCny == TokenCost(a.inputTokens, a.outputTokens, pricing)
    ensures var total := Sum(entries).actual;
      && ExactCost(total, pricing) <= 1_000_000 * total.costMicroCny
      && 1_000_000 * total.costMicroCny - ExactCost(total, pricing) <= 999_999 * |entries|
  {
    if entries != [] {
      var init, last := entries[..|entries| - 1], entries[|entries| - 1].buckets.actual;
      CeilingsOvershootBelowOnePerRequest(init, pricing);
      var before := Sum(init).actual;
      assert ExactCost(before.Plus(last), pricing) == ExactCost(before, pricing) + ExactCost(last, pricing) by {
        Distribute(before.inputTokens, last.inputTokens, pricing.input);
        Distribute(before.outputTokens, last.outputTokens, pricing.output);
      }
    }
  }

  lemma Distribute(x: int, y: int, z: int)
    ensures (x + y) * z == x * z + y * z
  {
  }
}
