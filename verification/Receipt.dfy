/** The frozen accounting receipt: how the gateway builds it (gateway_supervisor.py,
    `freeze_accounting_receipt`) and how the agent re-derives it (pico_agent.py,
    `validate_gateway_accounting_receipt`). Digests and tags are not modelled. */
module Receipt {
  import opened Accounting

  // What the agent expects the receipt to be about; the pricing digest stands for the pricing.
  datatype Identity = Identity(runId: string, trialId: string, protocol: string, pricing: Pricing)

  datatype Receipt = Receipt(schemaVersion: int, identity: Identity, modelRouteId: string, rounding: string,
                             status: Status, withinBudget: bool, accounting: Accounting, costCny: real)

  const ROUNDING := "ceil-per-request"

  function CostCny(costMicroCny: int): real
  {
    costMicroCny as real / 1_000_000.0
  }

  function Freeze(identity: Identity, modelRouteId: string, accounting: Accounting, withinBudget: bool): Receipt
  {
    Receipt(1, identity, modelRouteId, ROUNDING,
            if accounting.unreconciled == 0 then Reconciled else Unreconciled,
            withinBudget, accounting, CostCny(accounting.totals.actual.costMicroCny))
  }

  predicate IdentityValid(r: Receipt, expected: Identity)
  {
    && r.schemaVersion == 1
    && r.identity == expected
    && r.modelRouteId != ""
    && r.rounding == ROUNDING
    && r.status in {Reconciled, Unreconciled}
  }

  // A reconciled entry carries the rounded-up price of its usage; an ambiguous one carries only its reservation.
  predicate EntryValid(e: Entry, sequence: int, pricing: Pricing)
  {
    && e.sequence == sequence
    && e.buckets.Nonnegative()
    && Balanced(e.buckets)
    && match e.status
       case Reconciled =>
         && e.buckets.actual.costMicroCny
            == TokenCost(e.buckets.actual.inputTokens, e.buckets.actual.outputTokens, pricing)
         && e.buckets.unreconciledReservation == ZERO
       case Unreconciled =>
         && e.buckets.actual == e.buckets.refund == e.buckets.supplement == ZERO
         && e.buckets.unreconciledReservation == e.buckets.reservation
       case Pending => false
  }

  predicate EntriesValid(entries: seq<Entry>, pricing: Pricing)
  {
    forall i :: 0 <= i < |entries| ==> EntryValid(entries[i], i + 1, pricing)
  }

  predicate CountsAgree(a: Accounting)
  {
    && a.reconciled >= 0 && a.unreconciled >= 0
    && a.attempted == a.reconciled + a.unreconciled == |a.entries|
    && a.totals.Nonnegative()
  }

  predicate SummaryAgrees(r: Receipt)
  {
    && Balanced(r.accounting.totals)
    && r.costCny == CostCny(r.accounting.totals.actual.costMicroCny)
    && (r.status == Reconciled <==> r.accounting.unreconciled == 0)
  }

  // Everything the agent demands of a receipt, said of the whole receipt at once.
  predicate Valid(r: Receipt, expected: Identity)
  {
    var a := r.accounting;
    && IdentityValid(r, expected)
    && CountsAgree(a)
    && EntriesValid(a.entries, expected.pricing)
    && a.reconciled == Count(a.entries, Reconciled)
    && a.unreconciled == Count(a.entries, Unreconciled)
    && a.totals == Sum(a.entries)
    && SummaryAgrees(r)
  }

  // The body of the validator's loop, which raises at the first wrong field.
  method CheckEntry(e: Entry, sequence: int, pricing: Pricing) returns (accepted: bool)
    ensures accepted <==> EntryValid(e, sequence, pricing)
    ensures accepted ==> e.status != Pending
  {
    if e.sequence != sequence || e.status == Pending || !e.buckets.Nonnegative() || !Balanced(e.buckets) {
      return false;
    }
    if e.status == Reconciled {
      var cost := TokenCost(e.buckets.actual.inputTokens, e.buckets.actual.outputTokens, pricing);
      return e.buckets.actual.costMicroCny == cost && e.buckets.unreconciledReservation == ZERO;
    }
    return e.buckets.actual == ZERO && e.buckets.refund == ZERO && e.buckets.supplement == ZERO &&
           e.buckets.unreconciledReservation == e.buckets.reservation;
  }

  // The validator's loop: it re-adds every column and recounts both outcomes from the entries alone.
  method RecountEntries(entries: seq<Entry>, pricing: Pricing)
    returns (accepted: bool, totals: Totals, reconciled: int, unreconciled: int)
    ensures accepted <==> EntriesValid(entries, pricing)
    ensures accepted ==> totals == Sum(entries)
    ensures accepted ==> reconciled == Count(entries, Reconciled) && unreconciled == Count(entries, Unreconciled)
  {
    assert Sum([]) == NO_TOTALS && Count([], Reconciled) == Count([], Unreconciled) == 0;
    assert entries[..0] == [] && EntriesValid(entries[..0], pricing);
    hide EntryValid, EntriesValid, Sum, Count, Totals.Plus;
    totals, reconciled, unreconciled := NO_TOTALS, 0, 0;
    for index := 0 to |entries|
      invariant totals == Sum(entries[..index])
      invariant reconciled == Count(entries[..index], Reconciled)
      invariant unreconciled == Count(entries[..index], Unreconciled)
      invariant EntriesValid(entries[..index], pricing)
    {
      accepted := CheckEntry(entries[index], index + 1, pricing);
      NextEntry(entries, pricing, index);
      if !accepted {
        return;
      }
      totals := totals.Plus(entries[index].buckets);
      if entries[index].status == Reconciled {
        reconciled := reconciled + 1;
      } else {
        unreconciled := unreconciled + 1;
      }
    }
    assert entries[..|entries|] == entries;
    accepted := true;
  }

  lemma NextEntry(entries: seq<Entry>, pricing: Pricing, index: nat)
    requires index < |entries| && EntriesValid(entries[..index], pricing)
    ensures EntryValid(entries[index], index + 1, pricing) <==> EntriesValid(entries[..index + 1], pricing)
    ensures !EntryValid(entries[index], index + 1, pricing) ==> !EntriesValid(entries, pricing)
    ensures Sum(entries[..index + 1]) == Sum(entries[..index]).Plus(entries[index].buckets)
    ensures forall status :: Count(entries[..index + 1], status)
              == Count(entries[..index], status) + (if entries[index].status == status then 1 else 0)
  {
    hide EntryValid, Sum, Count;
    assert entries[..index + 1] == entries[..index] + [entries[index]];
    SumSnoc(entries[..index], entries[index]);
  }

  method CheckRequests(a: Accounting) returns (accepted: bool)
    ensures accepted <==> CountsAgree(a)
  {
    if a.attempted < 0 || a.reconciled < 0 || a.unreconciled < 0 || a.attempted != a.reconciled + a.unreconciled {
      return false;
    }
    return a.totals.Nonnegative() && |a.entries| == a.attempted;
  }

  method CheckSummary(r: Receipt) returns (accepted: bool)
    requires r.accounting.attempted == 0 ==> r.accounting.totals == NO_TOTALS
    ensures accepted <==> SummaryAgrees(r)
  {
    var a := r.accounting;
    if r.costCny != CostCny(a.totals.actual.costMicroCny) || !Balanced(a.totals) {
      return false;
    }
    return (r.status == Reconciled) == (a.unreconciled == 0) &&
           !(a.attempted == 0 && a.totals.actual.costMicroCny != 0);
  }

  /** The agent's check. It stops at the first thing wrong; a receipt is accepted exactly when it is `Valid`. */
  method ValidateGatewayAccountingReceipt(r: Receipt, expected: Identity) returns (accepted: bool)
    ensures accepted <==> Valid(r, expected)
  {
    accepted := IdentityValid(r, expected);
    var a := r.accounting;
    if accepted {
      accepted := CheckRequests(a);
    }
    if accepted {
      var totals, reconciled, unreconciled;
      accepted, totals, reconciled, unreconciled := RecountEntries(a.entries, expected.pricing);
      accepted := accepted && reconciled == a.reconciled && unreconciled == a.unreconciled && totals == a.totals;
    }
    if accepted {
      assert a.attempted == 0 ==> a.totals == NO_TOTALS;
      accepted := CheckSummary(r);
    }
  }

  /** A receipt is accepted for one identity only: the run, trial, protocol and pricing it names. */
  lemma ReceiptIsOfOneIdentity(r: Receipt, expected: Identity)
    requires Valid(r, expected)
    ensures r.identity.runId == expected.runId && r.identity.trialId == expected.trialId
    ensures r.identity.protocol == expected.protocol && r.identity.pricing == expected.pricing
    ensures forall other :: Valid(r, other) ==> other == expected
    ensures r.schemaVersion == 1 && r.rounding == "ceil-per-request" && |r.modelRouteId| > 0
  {
    hide CountsAgree, EntriesValid, SummaryAgrees;
  }

  // Two entries tell of the same request: its outcome, what it reserved and got back, and its tokens.
  predicate SameRequest(e: Entry, f: Entry)
  {
    && e.status == f.status
    && e.buckets.reservation == f.buckets.reservation && e.buckets.refund == f.buckets.refund
    && e.buckets.actual.inputTokens == f.buckets.actual.inputTokens
    && e.buckets.actual.outputTokens == f.buckets.actual.outputTokens
  }

  /** Nothing else in an accepted receipt is free: route, budget flag and the requests in order determine every
      sequence number, price, supplement, total, count, status and the cost. */
  lemma AcceptedReceiptIsDetermined(r: Receipt, r': Receipt, expected: Identity)
    requires Valid(r, expected) && Valid(r', expected)
    requires r.modelRouteId == r'.modelRouteId && r.withinBudget == r'.withinBudget
    requires |r.accounting.entries| == |r'.accounting.entries|
    requires forall i :: 0 <= i < |r.accounting.entries| ==>
               SameRequest(r.accounting.entries[i], r'.accounting.entries[i])
    ensures r == r'
  {
    hide CostCny, Sum, Count;
    var entries, entries' := r.accounting.entries, r'.accounting.entries;
    forall i | 0 <= i < |entries|
      ensures entries[i] == entries'[i]
    {
      hide Valid, Balanced;
      assert EntryValid(entries[i], i + 1, expected.pricing) && EntryValid(entries'[i], i + 1, expected.pricing);
      SameEntry(entries[i], entries'[i], i + 1, expected.pricing);
    }
    assert entries == entries';
  }

  lemma SameEntry(e: Entry, f: Entry, sequence: int, pricing: Pricing)
    requires EntryValid(e, sequence, pricing) && EntryValid(f, sequence, pricing) && SameRequest(e, f)
    ensures e == f
  {
    hide TokenCost;
  }

  /** What an accepted receipt tells its reader: nothing is pending, a receipt marked reconciled is reconciled
      entry by entry, and its cost is within one micro-unit a request of the exact price of its tokens. */
  lemma AcceptedReceiptMeaning(r: Receipt, expected: Identity)
    requires Valid(r, expected)
    ensures r.costCny * 1_000_000.0 == r.accounting.totals.actual.costMicroCny as real
    ensures forall i :: 0 <= i < |r.accounting.entries| ==> r.accounting.entries[i].status != Pending
    ensures r.status == Reconciled <==>
            forall i :: 0 <= i < |r.accounting.entries| ==> r.accounting.entries[i].status == Reconciled
    ensures r.status == Reconciled ==>
            var used := r.accounting.totals.actual;
            && ExactCost(used, expected.pricing) <= 1_000_000 * used.costMicroCny
            && 1_000_000 * used.costMicroCny - ExactCost(used, expected.pricing) <= 999_999 * r.accounting.attempted
  {
    CountZeroIffAbsent(r.accounting.entries, Pending);
    CountZeroIffAbsent(r.accounting.entries, Unreconciled);
    CountsPartition(r.accounting.entries);
    if r.status == Reconciled {
      ReconciledEntriesArePriced(r.accounting.entries, expected.pricing);
      CeilingsOvershootBelowOnePerRequest(r.accounting.entries, expected.pricing);
    }
  }

  lemma ReconciledEntriesArePriced(entries: seq<Entry>, pricing: Pricing)
    requires EntriesValid(entries, pricing)
    requires forall i :: 0 <= i < |entries| ==> entries[i].status == Reconciled
    ensures forall i :: 0 <= i < |entries| ==>
      var a := entries[i].buckets.actual; a.costMicroCny == TokenCost(a.inputTokens, a.outputTokens, pricing)
  {
    forall i | 0 <= i < |entries|
      ensures var a := entries[i].buckets.actual;
        a.costMicroCny == TokenCost(a.inputTokens, a.outputTokens, pricing)
    {
      assert EntryValid(entries[i], i + 1, pricing);
    }
  }
}
