/** From provider usage to reported usage: what a run's settlements bill, what a receipt says, what the agent reports;
    and why a reservation priced by the body's size is enough for an honest provider. */
module GatewayUsage {
  import opened Options
  import opened Accounting
  import opened Receipt
  import opened Estimator
  import opened GatewayLedger
  import opened GatewayInvariant
  import opened GatewayReach
  import opened GatewayFinality
  import opened GatewayRuns
  import opened UsageReport

  // ---- The bill of a run ----

  // The parsed usage of every settlement of one trial, each priced and rounded up on its own.
  function Billed(s: Ledger, events: seq<Event>, id: string): Bucket
    decreases |events|
  {
    if events == [] then ZERO
    else
      var e := events[0];
      var rest := Billed(Step(s, e).0, events[1..], id);
      if SettlesFor(s, e, id) then Usage(s.config.pricing, e.inputTokens, e.outputTokens).Plus(rest) else rest
  }

  function ActualOf(s: Ledger, id: string): Bucket
  {
    if id in s.trials then s.trials[id].accounting.totals.actual else ZERO
  }

  lemma StepBills(s: Ledger, e: Event, id: string)
    ensures SettlesFor(s, e, id) ==> e.Settle?
    ensures ActualOf(Step(s, e).0, id) ==
            if SettlesFor(s, e, id) then ActualOf(s, id).Plus(Usage(s.config.pricing, e.inputTokens, e.outputTokens))
            else ActualOf(s, id)
  {
    if e.Settle? {
      SettlementBills(s, e, id);
    } else if e.Fail? {
      hide StepFail, RequestsOf;
      FailReach(s, e);
    } else if e.Admit? {
      hide StepAdmit, RequestsOf;
      AdmitReach(s, e);
    } else {
      OtherStepsBillNothing(s, e, id);
    }
  }

  lemma OtherStepsBillNothing(s: Ledger, e: Event, id: string)
    requires !e.Settle? && !e.Fail? && !e.Admit?
    ensures ActualOf(Step(s, e).0, id) == ActualOf(s, id)
  {
    hide FrozenReceipt;
  }

  lemma SettlementBills(s: Ledger, e: Event, id: string)
    requires e.Settle?
    ensures ActualOf(StepSettle(s, e).0, id) ==
            if SettlesFor(s, e, id) then ActualOf(s, id).Plus(Usage(s.config.pricing, e.inputTokens, e.outputTokens))
            else ActualOf(s, id)
  {
    hide Usage, OverQuota, ReconciledEntry;
  }

  lemma PlusAssociates(a: Bucket, b: Bucket, c: Bucket)
    ensures a.Plus(b).Plus(c) == a.Plus(b.Plus(c))
    ensures a.Plus(ZERO) == a
  {
  }

  lemma {:induction false} RunBills(s: Ledger, events: seq<Event>, id: string)
    ensures ActualOf(Run(s, events), id) == ActualOf(s, id).Plus(Billed(s, events, id))
    decreases |events|
  {
    hide Step, SettlesFor, ActualOf, Usage, Bucket.Plus;
    if events != [] {
      var s' := Step(s, events[0]).0;
      StepBills(s, events[0], id);
      RunBills(s', events[1..], id);
      if events[0].Settle? {
        PlusAssociates(ActualOf(s, id), Usage(s.config.pricing, events[0].inputTokens, events[0].outputTokens),
                       Billed(s', events[1..], id));
      }
    } else {
      PlusAssociates(ActualOf(s, id), ZERO, ZERO);
    }
  }

  predicate QuotaBounds(used: Bucket)
  {
    && 0 <= used.inputTokens <= MAX_INPUT_TOKENS
    && 0 <= used.outputTokens <= MAX_OUTPUT_TOKENS
    && 0 <= used.costMicroCny <= MAX_COST_MICRO_CNY
  }

  lemma ConservedBounds(t: Trial)
    requires Conserved(t) && t.remaining.Nonnegative()
    requires Balanced(t.accounting.totals) && t.accounting.totals.Nonnegative()
    requires t.accounting.totals.unreconciledReservation == ZERO
    ensures QuotaBounds(t.accounting.totals.actual)
  {
  }

  lemma WithinQuota(t: Trial, config: Config, id: string)
    requires TrialInv(t, config, id) && t.active == {} && t.withinBudget
    ensures QuotaBounds(t.accounting.totals.actual)
  {
    hide Sum, Count, EntriesInv, EntriesValid, Conserved, QuotaBounds, Balanced, ReceiptInv;
    SettledEntriesValid(t.accounting.entries, config.pricing);
    UnreconciledTotalZero(t.accounting, config.pricing);
    ConservedBounds(t);
  }

  lemma UnreconciledTotalZero(a: Accounting, pricing: Pricing)
    requires EntriesValid(a.entries, pricing)
    ensures Count(a.entries, Unreconciled) == 0 ==> Sum(a.entries).unreconciledReservation == ZERO
  {
    if Count(a.entries, Unreconciled) == 0 {
      CountZeroIffAbsent(a.entries, Unreconciled);
      NothingUnreconciled(a.entries, pricing);
    }
  }

  lemma {:induction false} NothingUnreconciled(entries: seq<Entry>, pricing: Pricing)
    requires EntriesValid(entries, pricing)
    requires forall i :: 0 <= i < |entries| ==> entries[i].status != Unreconciled
    ensures Sum(entries).unreconciledReservation == ZERO
  {
    if entries != [] {
      var last := |entries| - 1;
      NothingUnreconciled(entries[..last], pricing);
      assert EntryValid(entries[last], last + 1, pricing);
      hide Balanced, TokenCost;
    }
  }

  /** End to end: if a run froze a receipt for a trial and the agent's accounting of that receipt returns normally, the
      tokens then in its context are exactly the parsed provider usage of that trial's settled requests and the cost in
      its metadata is the sum of their individual ceilings; all three are within the trial's quota, and the cost exceeds
      the exact price by less than one micro-unit a request. */
  lemma ReportedUsageIsBilledUsage(config: Config, events: seq<Event>, id: string, v: RuntimeView)
    requires ConfigValid(config)
    requires var s := Run(Init(config), events);
      && id in s.trials && s.trials[id].receipt.Some?
      && OutcomeOf(v, s.trials[id].receipt.value) == Returned
    ensures var r := Run(Init(config), events).trials[id].receipt.value;
      var billed, context := Billed(Init(config), events, id), Reported(v, r);
      && context.inputTokens == Some(billed.inputTokens) && context.outputTokens == Some(billed.outputTokens)
      && context.cost == Amount(CostCny(billed.costMicroCny))
      && Valid(r, IdentityOf(config, id))
      && r.accounting.totals.actual == billed
      && r.costCny == CostCny(billed.costMicroCny)
      && QuotaBounds(billed)
      && ExactCost(billed, config.pricing) <= 1_000_000 * billed.costMicroCny
      && 1_000_000 * billed.costMicroCny - ExactCost(billed, config.pricing) <= 999_999 * r.accounting.attempted
  {
    ReportedTokens(v, Run(Init(config), events).trials[id].receipt.value);
    hide Reported, OutcomeOf;
    BilledUsage(config, events, id, v);
  }

  // A call that returns leaves the receipt's usage in the context.
  lemma ReportedTokens(v: RuntimeView, r: Receipt)
    requires OutcomeOf(v, r) == Returned
    ensures Accepts(v, r) && Matches(Reported(v, r), r.accounting.totals.actual)
    ensures Reported(v, r).cost == Amount(r.costCny)
  {
    hide MayReportSigned, CostCny;
  }

  lemma BilledUsage(config: Config, events: seq<Event>, id: string, v: RuntimeView)
    requires ConfigValid(config)
    requires var s := Run(Init(config), events);
      && id in s.trials && s.trials[id].receipt.Some?
      && Accepts(v, s.trials[id].receipt.value)
    ensures var r := Run(Init(config), events).trials[id].receipt.value;
      var billed := Billed(Init(config), events, id);
      && Valid(r, IdentityOf(config, id))
      && r.accounting.totals.actual == billed
      && r.costCny == CostCny(billed.costMicroCny)
      && QuotaBounds(billed)
      && ExactCost(billed, config.pricing) <= 1_000_000 * billed.costMicroCny
      && 1_000_000 * billed.costMicroCny - ExactCost(billed, config.pricing) <= 999_999 * r.accounting.attempted
  {
    var s := Run(Init(config), events);
    InitInv(config);
    RunKeeps(Init(config), events);
    hide LedgerInv, TrialInv, Run, Valid, MayReportSigned, Billed, ExactCost, QuotaBounds, FrozenReceipt, CostCny,
         Bucket.Plus, Matches;
    FrozenReceiptsAreAccepted(config, events, id);
    RunBills(Init(config), events, id);
    FromNothing(Billed(Init(config), events, id));
    ReceiptReadsTrial(s, id, s.trials[id].receipt.value);
    AcceptedReceiptMeaning(s.trials[id].receipt.value, IdentityOf(config, id));
  }

  lemma FromNothing(b: Bucket)
    ensures ZERO.Plus(b) == b
  {
  }

  lemma ReceiptReadsTrial(s: Ledger, id: string, r: Receipt)
    requires LedgerInv(s) && GatewayFinality.Frozen(s, id, r)
    ensures r.accounting == s.trials[id].accounting && r.withinBudget == s.trials[id].withinBudget
    ensures r.costCny == CostCny(r.accounting.totals.actual.costMicroCny)
    ensures r.withinBudget ==> QuotaBounds(r.accounting.totals.actual)
  {
    FrozenTrialFacts(s, id, r);
    ReachedTrial(s, id);
    hide LedgerInv, TrialInv, QuotaBounds;
    if r.withinBudget {
      WithinQuota(s.trials[id], s.config, id);
    }
  }

  lemma ReachedTrial(s: Ledger, id: string)
    requires LedgerInv(s) && id in s.trials
    ensures TrialInv(s.trials[id], s.config, id)
  {
    TrialFacts(s, id);
  }

  // ---- Cost reservations are enough ----

  // The provider bills at most a token a byte of body plus the margin, and respects the output cap.
  predicate BillsWithinBody(s: Ledger, e: Event)
  {
    e.Settle? && e.request in s.threads ==>
      var th := s.threads[e.request];
      && e.inputTokens <= th.bodyBytes + INPUT_RESERVATION_MARGIN_TOKENS
      && e.outputTokens <= th.reservation.outputTokens
  }

  predicate HonestRun(s: Ledger, events: seq<Event>)
    decreases |events|
  {
    events == [] || (BillsWithinBody(s, events[0]) && HonestRun(Step(s, events[0]).0, events[1..]))
  }

  predicate NoCostSupplement(entries: seq<Entry>)
  {
    forall i :: 0 <= i < |entries| ==> entries[i].buckets.supplement.costMicroCny == 0
  }

  predicate PricedByBody(th: Thread, pricing: Pricing)
  {
    th.reservation.costMicroCny
    == TokenCost(th.bodyBytes + INPUT_RESERVATION_MARGIN_TOKENS, th.reservation.outputTokens, pricing)
  }

  predicate Covered(s: Ledger)
  {
    && !s.runClosed && s.runRemaining >= 0
    && (forall r :: r in s.threads ==> PricedByBody(s.threads[r], s.config.pricing))
    && (forall id :: id in s.trials ==> NoCostSupplement(s.trials[id].accounting.entries))
  }

  lemma CoveredSettle(s: Ledger, e: Event)
    requires e.Settle? && Covered(s) && BillsWithinBody(s, e)
    requires e.request in s.threads ==> ThreadInv(s.threads[e.request], e.request, s.trials)
    ensures Covered(StepSettle(s, e).0)
  {
    if ThreadRunning(s, e.request) && !s.threads[e.request].settled {
      var th := s.threads[e.request];
      var used := Usage(s.config.pricing, e.inputTokens, e.outputTokens);
      assert PricedByBody(th, s.config.pricing);
      TokenCostMonotone(e.inputTokens, e.outputTokens, th.bodyBytes + INPUT_RESERVATION_MARGIN_TOKENS,
                        th.reservation.outputTokens, s.config.pricing);
      assert used.costMicroCny <= th.reservation.costMicroCny;
      hide Usage, OverQuota, PricedByBody, TokenCost;
    }
  }

  lemma CoveredAdmit(s: Ledger, e: Event)
    requires e.Admit? && Covered(s)
    ensures Covered(StepAdmit(s, e).0)
  {
    var want := ReservationOf(s.config.pricing, e.body, OutputLimit(e.requestedOutput));
    assert PricedByBody(Thread(e.trialId, 0, |Utf8Encode(e.body)|, want, false), s.config.pricing);
    hide RequestRefusal, TokenCost, Utf8Encode, ReservationOf;
  }

  lemma CoveredFail(s: Ledger, e: Event)
    requires e.Fail? && Covered(s)
    ensures Covered(StepFail(s, e).0)
  {
    hide PricedByBody;
  }

  lemma CoveredStep(s: Ledger, e: Event)
    requires LedgerInv(s) && Covered(s) && BillsWithinBody(s, e)
    ensures Covered(Step(s, e).0)
  {
    if e.Settle? && e.request in s.threads {
      ThreadFacts(s, e.request);
    }
    hide LedgerInv, ThreadInv, Covered, BillsWithinBody;
    match e
    case Admit(_, _, _, _, _, _, _) => CoveredAdmit(s, e);
    case Settle(_, _, _) => CoveredSettle(s, e);
    case Fail(_) => CoveredFail(s, e);
    case _ => CoveredOther(s, e);
  }

  lemma CoveredOther(s: Ledger, e: Event)
    requires Covered(s) && !e.Admit? && !e.Settle? && !e.Fail?
    ensures Covered(Step(s, e).0)
  {
    hide PricedByBody, FrozenReceipt;
  }

  lemma {:induction false} CoveredRun(s: Ledger, events: seq<Event>)
    requires LedgerInv(s) && Covered(s) && HonestRun(s, events)
    ensures Covered(Run(s, events))
    decreases |events|
  {
    if events != [] {
      hide LedgerInv, Covered, Step, BillsWithinBody;
      CoveredStep(s, events[0]);
      StepKeeps(s, events[0]);
      CoveredRun(Step(s, events[0]).0, events[1..]);
    }
  }

  /** If the provider bills within the body's size and the output cap, no settled request of any run costs more than
      it reserved, so the run budget is never overdrawn and never closes. */
  lemma CostReservationDominates(config: Config, events: seq<Event>)
    requires HonestRun(Init(config), events)
    ensures var s := Run(Init(config), events);
      && !s.runClosed && s.runRemaining >= 0
      && forall id :: id in s.trials ==> NoCostSupplement(s.trials[id].accounting.entries)
  {
    InitInv(config);
    CoveredRun(Init(config), events);
  }

  /** The money reserved for a request also covers the price of the tokens reserved for it: the byte count of a
      nonempty body is never below its token estimate. */
  lemma CostReservationCoversTokenReservation(pricing: Pricing, body: seq<CodePoint>, outputLimit: nat)
    requires body != []
    ensures var want := ReservationOf(pricing, body, outputLimit);
      TokenCost(want.inputTokens, want.outputTokens, pricing) <= want.costMicroCny
  {
    EstimateWithinBody(body);
    TokenCostMonotone(Estimate(body) + INPUT_RESERVATION_MARGIN_TOKENS, outputLimit,
                      |Utf8Encode(body)| + INPUT_RESERVATION_MARGIN_TOKENS, outputLimit, pricing);
  }
}
