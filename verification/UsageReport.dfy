/** What the agent reports once it holds a validated receipt (pico_agent.py, `apply_gateway_accounting`). */
module UsageReport {
  import opened Options
  import opened Accounting
  import opened Receipt

  // A cost the runtime wrote into its metadata; Python numbers, booleans and anything else are told apart.
  datatype ReportedCost = Missing | Flag | NotFinite | Amount(value: real)

  datatype UsageSource = Runtime | SignedGateway | SignedGatewayUnconfirmed

  datatype Refusal = NotReconciled | OverBudget | TokensDiffer

  datatype Outcome = Returned | Raised(refusal: Refusal)

  // The context and the entries of its pico metadata that the accounting reads; an absent error code is "".
  datatype RuntimeView = RuntimeView(inputTokens: Option<int>, outputTokens: Option<int>,
                                     status: string, errorCode: string, terminationConfirmed: Option<bool>,
                                     signedUsageRequired: bool, cost: ReportedCost)

  const SHUTDOWN_UNCONFIRMED := ("timed_out", "SHUTDOWN_UNCONFIRMED")

  predicate Matches(v: RuntimeView, used: Bucket)
  {
    v.inputTokens == Some(used.inputTokens) && v.outputTokens == Some(used.outputTokens)
  }

  predicate ReportsNothing(v: RuntimeView)
  {
    v.inputTokens == Some(0) && v.outputTokens == Some(0) && v.cost == Amount(0.0)
  }

  predicate ShutdownUnconfirmed(v: RuntimeView)
  {
    (v.status, v.errorCode) == SHUTDOWN_UNCONFIRMED && v.terminationConfirmed == Some(false)
  }

  predicate Settled(r: Receipt)
  {
    r.status == Reconciled && r.withinBudget
  }

  // The three ways a runtime may be overruled: it asked for the signed usage, it ended in a confirmed failure
  // without reporting any, or its shutdown was never confirmed and every gateway request is accounted for.
  predicate MayReportSigned(v: RuntimeView, r: Receipt)
  {
    var used := r.accounting.totals.actual;
    || (v.signedUsageRequired && (v.status, v.errorCode) != SHUTDOWN_UNCONFIRMED)
    || (&& (v.status, v.errorCode) in {("failed", "RUNTIME_FAILED"), ("timed_out", "TIMEOUT")}
        && v.terminationConfirmed == Some(true)
        && ReportsNothing(v)
        && used.inputTokens + used.outputTokens > 0)
    || UnconfirmedFallback(v, r)
  }

  predicate UnconfirmedFallback(v: RuntimeView, r: Receipt)
  {
    var a := r.accounting;
    && ShutdownUnconfirmed(v)
    && v.signedUsageRequired
    && ReportsNothing(v)
    && a.totals.actual.inputTokens + a.totals.actual.outputTokens > 0
    && a.totals.actual.costMicroCny > 0
    && r.costCny > 0.0
    && 0 <= a.attempted == a.reconciled && a.unreconciled == 0
  }

  predicate Accepts(v: RuntimeView, r: Receipt)
  {
    Settled(r) && (Matches(v, r.accounting.totals.actual) || MayReportSigned(v, r))
  }

  // Whether the runtime's usage is to be replaced, on the next call too.
  predicate SignedUsageRequired(v: RuntimeView, r: Receipt)
  {
    && !Matches(v, r.accounting.totals.actual)
    && ((v.signedUsageRequired && (v.status, v.errorCode) != SHUTDOWN_UNCONFIRMED) ||
        (Settled(r) && MayReportSigned(v, r)))
  }

  function OutcomeOf(v: RuntimeView, r: Receipt): Outcome
  {
    if r.status != Reconciled then Raised(NotReconciled)
    else if !r.withinBudget then Raised(OverBudget)
    else if !Accepts(v, r) then Raised(TokensDiffer)
    else Returned
  }

  // The context after the call.
  function Reported(v: RuntimeView, r: Receipt): RuntimeView
  {
    var used := r.accounting.totals.actual;
    var written := v.(cost := Amount(r.costCny), signedUsageRequired := SignedUsageRequired(v, r));
    if Settled(r) && !Matches(v, used) && MayReportSigned(v, r) then
      written.(inputTokens := Some(used.inputTokens), outputTokens := Some(used.outputTokens))
    else written
  }

  /** The call returns exactly if the receipt is reconciled and within budget and the runtime's tokens are its tokens, or
      the runtime may be overruled: it asked for the signed usage and did not end in an unconfirmed shutdown; or it ended in
      a confirmed failure or timeout, reported nothing at all, and the gateway saw tokens; or its shutdown was not confirmed,
      it asked for the signed usage, reported nothing at all, and every request the gateway made is reconciled and was paid
      for. */
  lemma ReturnsExactly(v: RuntimeView, r: Receipt)
    ensures var used := r.accounting.totals.actual;
      var silent := v.inputTokens == Some(0) && v.outputTokens == Some(0) && v.cost == Amount(0.0);
      var unconfirmed := v.status == "timed_out" && v.errorCode == "SHUTDOWN_UNCONFIRMED";
      var seen := used.inputTokens + used.outputTokens > 0;
      OutcomeOf(v, r) == Returned <==>
      && r.status == Reconciled && r.withinBudget
      && (|| (v.inputTokens == Some(used.inputTokens) && v.outputTokens == Some(used.outputTokens))
          || (v.signedUsageRequired && !unconfirmed)
          || (&& ((v.status == "failed" && v.errorCode == "RUNTIME_FAILED") ||
                  (v.status == "timed_out" && v.errorCode == "TIMEOUT"))
              && v.terminationConfirmed == Some(true) && silent && seen)
          || (&& unconfirmed && v.terminationConfirmed == Some(false) && v.signedUsageRequired && silent && seen
              && used.costMicroCny > 0 && r.costCny > 0.0
              && 0 <= r.accounting.attempted == r.accounting.reconciled && r.accounting.unreconciled == 0))
  {
  }

  /** Applying the same receipt again changes nothing any more: a call that returned returns again and reports the same. A
      runtime that asked for the signed usage and was refused for the receipt's sake keeps its claim. */
  lemma ApplyingAgainIsStable(v: RuntimeView, r: Receipt)
    ensures OutcomeOf(v, r) == Returned ==>
      var w := Reported(v, r);
      && OutcomeOf(w, r) == Returned
      && Reported(w, r).inputTokens == w.inputTokens && Reported(w, r).outputTokens == w.outputTokens
      && Reported(w, r).cost == w.cost
    ensures v.signedUsageRequired && (v.status, v.errorCode) != ("timed_out", "SHUTDOWN_UNCONFIRMED")
            && OutcomeOf(v, r) != Returned && !Matches(v, r.accounting.totals.actual) ==>
      forall r': Receipt :: r'.status == Reconciled && r'.withinBudget ==> OutcomeOf(Reported(v, r), r') == Returned
  {
  }

  // Python compares the runtime's (status, errorCode) pair and counts; only tokens and metadata are written.
  class AgentContext {
    var inputTokens: Option<int>
    var outputTokens: Option<int>
    var status: string
    var errorCode: string
    var terminationConfirmed: Option<bool>
    var signedUsageRequired: bool
    var cost: ReportedCost
    var runtimeReportedCost: ReportedCost
    var usageSource: UsageSource

    ghost function View(): RuntimeView
      reads this
    {
      RuntimeView(inputTokens, outputTokens, status, errorCode, terminationConfirmed, signedUsageRequired, cost)
    }

    constructor (v: RuntimeView)
      ensures View() == v
    {
      inputTokens, outputTokens := v.inputTokens, v.outputTokens;
      status, errorCode, terminationConfirmed := v.status, v.errorCode, v.terminationConfirmed;
      signedUsageRequired, cost := v.signedUsageRequired, v.cost;
      runtimeReportedCost, usageSource := Missing, Runtime;
    }

    // Which signed usage, if any, replaces the runtime's own.
    method ClassifySignedUsage(r: Receipt) returns (useSigned: bool, unconfirmed: bool, required: bool)
      ensures useSigned <==>
              Settled(r) && !Matches(View(), r.accounting.totals.actual) && MayReportSigned(View(), r)
      ensures unconfirmed <==>
              Settled(r) && !Matches(View(), r.accounting.totals.actual) && UnconfirmedFallback(View(), r)
      ensures required <==> SignedUsageRequired(View(), r)
    {
      var a := r.accounting;
      var runtimeUsageMatches := inputTokens == Some(a.totals.actual.inputTokens) &&
                                 outputTokens == Some(a.totals.actual.outputTokens);
      var unconfirmedShutdownError := status == "timed_out" && errorCode == "SHUTDOWN_UNCONFIRMED";
      var unconfirmedShutdownRuntime := unconfirmedShutdownError && terminationConfirmed == Some(false);
      var runtimeReportsNothing := inputTokens == Some(0) && outputTokens == Some(0) && cost == Amount(0.0);
      var someUsage := a.totals.actual.inputTokens + a.totals.actual.outputTokens > 0;
      var terminalZeroUsageFallback :=
        && !unconfirmedShutdownRuntime && !runtimeUsageMatches
        && r.status == Reconciled && r.withinBudget
        && ((status == "failed" && errorCode == "RUNTIME_FAILED") || (status == "timed_out" && errorCode == "TIMEOUT"))
        && terminationConfirmed == Some(true)
        && runtimeReportsNothing && someUsage;
      unconfirmed :=
        && !runtimeUsageMatches
        && r.status == Reconciled && r.withinBudget
        && unconfirmedShutdownRuntime && signedUsageRequired
        && runtimeReportsNothing && someUsage
        && a.totals.actual.costMicroCny > 0 && r.costCny > 0.0
        && a.attempted >= 0 && a.attempted == a.reconciled && a.unreconciled == 0;
      var signedGatewayUsageEligible :=
        (signedUsageRequired && !unconfirmedShutdownError) || terminalZeroUsageFallback;
      required := (signedGatewayUsageEligible && !runtimeUsageMatches) || unconfirmed;
      useSigned := required && r.status == Reconciled && r.withinBudget;
    }

    /** Returns normally exactly when the receipt is settled and the runtime either agrees with it or may be
        overruled; the tokens then reported are the gateway's. A refusal leaves the tokens alone. */
    method ApplyGatewayAccounting(r: Receipt) returns (outcome: Outcome)
      modifies this
      ensures View() == Reported(old(View()), r) && outcome == OutcomeOf(old(View()), r)
      ensures outcome == Raised(NotReconciled) <==> r.status != Reconciled
      ensures outcome == Raised(OverBudget) <==> r.status == Reconciled && !r.withinBudget
      ensures outcome == Returned <==> Accepts(old(View()), r)
      ensures outcome == Returned ==> Matches(View(), r.accounting.totals.actual)
      ensures outcome != Returned ==> inputTokens == old(inputTokens) && outputTokens == old(outputTokens)
      ensures cost == Amount(r.costCny) && runtimeReportedCost == old(cost)
      ensures outcome == Returned ==>
              (usageSource == Runtime <==> Matches(old(View()), r.accounting.totals.actual))
      ensures outcome == Returned ==>
              (usageSource == SignedGatewayUnconfirmed <==>
               !Matches(old(View()), r.accounting.totals.actual) && UnconfirmedFallback(old(View()), r))
    {
      var used := r.accounting.totals.actual;
      var runtimeUsageMatches := inputTokens == Some(used.inputTokens) && outputTokens == Some(used.outputTokens);
      var useSigned, unconfirmed, required := ClassifySignedUsage(r);
      runtimeReportedCost := cost;
      cost := Amount(r.costCny);
      signedUsageRequired := required;
      usageSource := if unconfirmed then SignedGatewayUnconfirmed
                     else if useSigned then SignedGateway
                     else Runtime;
      if r.status != Reconciled {
        return Raised(NotReconciled);
      }
      if !r.withinBudget {
        return Raised(OverBudget);
      }
      if !runtimeUsageMatches && !useSigned {
        return Raised(TokensDiffer);
      }
      if useSigned {
        inputTokens := Some(used.inputTokens);
        outputTokens := Some(used.outputTokens);
      }
      return Returned;
    }
  }
}
