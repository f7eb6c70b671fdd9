/** Theorems about whole runs of the gateway ledger: any sequence of critical sections, in any order. */
module GatewayRuns {
  import opened Options
  import opened Accounting
  import opened Receipt
  import opened Estimator
  import opened GatewayLedger
  import opened GatewayInvariant
  import opened GatewayReach
  import opened UsageReport

  // The route contract guarantees a named model route.
  predicate ConfigValid(config: Config)
  {
    config.modelRouteId != ""
  }

  // ---- Every receipt the gateway freezes is one the agent accepts ----

  lemma SettledEntryValid(e: Entry, sequence: int, pricing: Pricing)
    requires EntryInv(e, sequence, pricing) && e.status != Pending
    ensures EntryValid(e, sequence, pricing) && e.buckets.Nonnegative() && Balanced(e.buckets)
  {
  }

  lemma SettledEntriesValid(entries: seq<Entry>, pricing: Pricing)
    requires EntriesInv(entries, pricing)
    requires entries != [] ==> entries[|entries| - 1].status != Pending
    ensures EntriesValid(entries, pricing)
    ensures Sum(entries).Nonnegative() && Balanced(Sum(entries))
    ensures Count(entries, Reconciled) + Count(entries, Unreconciled) == |entries|
  {
    hide EntryInv, EntryValid, Balanced, Sum, Count;
    forall i | 0 <= i < |entries|
      ensures EntryValid(entries[i], i + 1, pricing)
      ensures entries[i].buckets.Nonnegative() && Balanced(entries[i].buckets) && entries[i].status != Pending
    {
      SettledEntryValid(entries[i], i + 1, pricing);
    }
    SumNonnegative(entries);
    BalancedEntriesBalance(entries);
    CountsPartition(entries);
    CountZeroIffAbsent(entries, Pending);
  }

  lemma QuietAccountingValid(a: Accounting, pricing: Pricing)
    requires AccountingInv(a, pricing) && !LastPending(a)
    ensures CountsAgree(a) && Balanced(a.totals) && EntriesValid(a.entries, pricing)
    ensures a.reconciled == Count(a.entries, Reconciled) && a.unreconciled == Count(a.entries, Unreconciled)
    ensures a.totals == Sum(a.entries)
  {
    hide Sum, Count, EntriesInv, EntriesValid, Balanced;
    SettledEntriesValid(a.entries, pricing);
  }

  lemma QuietTrialFreezesValid(t: Trial, config: Config, id: string)
    requires ConfigValid(config) && TrialInv(t, config, id) && t.active == {}
    ensures Valid(FrozenReceipt(config, id, t), IdentityOf(config, id))
  {
    hide AccountingInv, CountsAgree, EntriesValid, Sum, Count, Balanced, Conserved, BudgetFlagInv;
    QuietAccountingValid(t.accounting, config.pricing);
  }

  /** Whatever the interleaving, a receipt that exists passes every check the agent makes. */
  lemma FrozenReceiptsAreAccepted(config: Config, events: seq<Event>, id: string)
    requires ConfigValid(config)
    requires var s := Run(Init(config), events);
      id in s.trials && s.trials[id].receipt.Some?
    ensures Valid(Run(Init(config), events).trials[id].receipt.value, IdentityOf(config, id))
  {
    InitInv(config);
    RunKeeps(Init(config), events);
    var s := Run(Init(config), events);
    TrialFacts(s, id);
    QuietTrialFreezesValid(s.trials[id], s.config, id);
  }

  /** Whatever the interleaving, the agent that expects another run, trial, protocol or price refuses the receipt. */
  lemma FrozenReceiptsAreNobodyElses(config: Config, events: seq<Event>, id: string, expected: Identity)
    requires ConfigValid(config)
    requires var s := Run(Init(config), events);
      id in s.trials && s.trials[id].receipt.Some?
    ensures Valid(Run(Init(config), events).trials[id].receipt.value, expected) <==>
            && expected.runId == config.runId && expected.trialId == id
            && expected.protocol == config.protocol && expected.pricing == config.pricing
  {
    FrozenReceiptsAreAccepted(config, events, id);
    hide Run, Valid;
    ReceiptIsOfOneIdentity(Run(Init(config), events).trials[id].receipt.value, IdentityOf(config, id));
  }

  // ---- Quotas and the run budget are conserved ----

  /** What each trial may still spend is its quota less its reservations, plus refunds, less supplements; a trial
      still within budget owes nothing; at most one request is active, and it is the one pending entry. */
  lemma TrialQuotasConserved(config: Config, events: seq<Event>, id: string)
    requires id in Run(Init(config), events).trials
    ensures var t := Run(Init(config), events).trials[id];
      && Conserved(t)
      && (t.withinBudget ==>
            && t.remaining.Nonnegative()
            && (forall i :: 0 <= i < |t.accounting.entries| ==> t.accounting.entries[i].status != Unreconciled)
            && NoOutputSupplement(t.accounting.entries))
      && (forall r, q :: r in t.active && q in t.active ==> r == q)
      && (forall i :: 0 <= i < |t.accounting.entries| ==>
            (t.accounting.entries[i].status == Pending <==> t.active != {} && i == |t.accounting.entries| - 1))
  {
    InitInv(config);
    RunKeeps(Init(config), events);
    var s := Run(Init(config), events);
    TrialFacts(s, id);
    CountZeroIffAbsent(s.trials[id].accounting.entries, Unreconciled);
    hide Sum, Count, QuotaFrom, ReceiptInv, EntryInv;
  }

  lemma RequestsConstantStep(s: Ledger, e: Event, id: string)
    requires id in s.trials
    ensures id in Step(s, e).0.trials && RequestsOf(Step(s, e).0.trials[id]) == RequestsOf(s.trials[id])
  {
    hide FrozenReceipt, StepAdmit, StepSettle, StepFail, UsedBy;
    if e.Settle? {
      SettleReach(s, e);
    } else if e.Fail? {
      FailReach(s, e);
    } else if e.Admit? {
      AdmitReach(s, e);
    }
  }

  lemma {:induction false} QuotaKept(s: Ledger, events: seq<Event>, id: string)
    requires LedgerInv(s) && id in s.trials && QuotaFrom(s.trials[id], MAX_REQUESTS, QUOTA)
    ensures var s' := Run(s, events); id in s'.trials && QuotaFrom(s'.trials[id], MAX_REQUESTS, QUOTA)
    decreases |events|
  {
    if events != [] {
      var s' := Step(s, events[0]).0;
      RequestsConstantStep(s, events[0], id);
      assert RequestsOf(s.trials[id]) == MAX_REQUESTS;
      hide Step, LedgerInv;
      StepKeeps(s, events[0]);
      TrialFacts(s', id);
      hide TrialInv, AccountingInv;
      QuotaKept(s', events[1..], id);
    }
  }

  /** A trial that was registered conserves its full quota for good, whatever happens: attempts plus requests left are
      always 128, and each quota left is its initial value less reservations, plus refunds, less supplements. */
  lemma RegisteredTrialConserved(config: Config, events: seq<Event>, register: Event, more: seq<Event>)
    requires register.Register? && Step(Run(Init(config), events), register).1 == Registered
    ensures var s := Run(Step(Run(Init(config), events), register).0, more);
      && register.trialId in s.trials
      && QuotaFrom(s.trials[register.trialId], MAX_REQUESTS, QUOTA)
      && s.trials[register.trialId].requestsRemaining + s.trials[register.trialId].accounting.attempted == 128
  {
    var s := Run(Init(config), events);
    InitInv(config);
    RunKeeps(Init(config), events);
    StepKeeps(s, register);
    hide LedgerInv, Run, FrozenReceipt;
    assert QuotaFrom(Step(s, register).0.trials[register.trialId], MAX_REQUESTS, QUOTA);
    QuotaKept(Step(s, register).0, more, register.trialId);
  }

  // What an entry takes out of the run budget: its price once known, its reservation otherwise.
  function EntryCharge(e: Entry): int
  {
    if e.status == Reconciled then e.buckets.actual.costMicroCny else e.buckets.reservation.costMicroCny
  }

  function Charge(entries: seq<Entry>): int
  {
    if entries == [] then 0 else Charge(entries[..|entries| - 1]) + EntryCharge(entries[|entries| - 1])
  }

  ghost function TotalCharge(trials: map<string, Trial>): int
    decreases |trials|
  {
    if |trials| == 0 then 0
    else
      var id :| id in trials;
      Charge(trials[id].accounting.entries) + TotalCharge(trials - {id})
  }

  lemma TotalChargeUnfolds(trials: map<string, Trial>) returns (first: string)
    requires trials != map[]
    ensures first in trials
    ensures TotalCharge(trials) == Charge(trials[first].accounting.entries) + TotalCharge(trials - {first})
  {
    hide Charge;
    assert |trials| != 0;
    first :| first in trials &&
      TotalCharge(trials) == Charge(trials[first].accounting.entries) + TotalCharge(trials - {first});
  }

  lemma {:induction false} TotalChargeSplits(trials: map<string, Trial>, id: string)
    requires id in trials
    ensures TotalCharge(trials) == Charge(trials[id].accounting.entries) + TotalCharge(trials - {id})
    decreases |trials|
  {
    hide Charge, TotalCharge;
    var first := TotalChargeUnfolds(trials);
    if first != id {
      assert |trials - {first}| < |trials| && |trials - {id}| < |trials|;
      TotalChargeSplits(trials - {first}, id);
      TotalChargeSplits(trials - {id}, first);
      assert trials - {first} - {id} == trials - {id} - {first};
    }
  }

  lemma PutCharge(trials: map<string, Trial>, id: string, t: Trial)
    ensures TotalCharge(trials[id := t]) == TotalCharge(trials) + Charge(t.accounting.entries)
            - (if id in trials then Charge(trials[id].accounting.entries) else 0)
  {
    hide Charge, TotalCharge;
    TotalChargeSplits(trials[id := t], id);
    assert trials[id := t] - {id} == trials - {id};
    if id in trials {
      TotalChargeSplits(trials, id);
    } else {
      assert trials - {id} == trials;
    }
  }

  predicate ClosedIfOverdrawn(s: Ledger)
  {
    s.runRemaining < 0 ==> s.runClosed
  }

  ghost predicate BudgetInv(s: Ledger)
  {
    s.runRemaining == s.config.maxRunCost - TotalCharge(s.trials) && ClosedIfOverdrawn(s)
  }

  lemma ChargeReplacesLast(entries: seq<Entry>, e: Entry)
    requires entries != []
    ensures Charge(entries[|entries| - 1 := e]) ==
            Charge(entries) - EntryCharge(entries[|entries| - 1]) + EntryCharge(e)
  {
    assert entries[|entries| - 1 := e][..|entries| - 1] == entries[..|entries| - 1];
  }

  lemma AdmitKeepsBudget(s: Ledger, e: Event)
    requires e.Admit? && BudgetInv(s)
    ensures BudgetInv(StepAdmit(s, e).0)
  {
    hide TotalCharge, ReservationOf, RequestRefusal;
    var s' := StepAdmit(s, e).0;
    if s' != s {
      var before, after := s.trials[e.trialId].accounting.entries, s'.trials[e.trialId].accounting.entries;
      PutCharge(s.trials, e.trialId, s'.trials[e.trialId]);
      assert after != before ==> after[..|before|] == before;
    }
  }

  lemma SettleKeepsBudget(s: Ledger, e: Event)
    requires e.Settle? && LedgerInv(s) && BudgetInv(s)
    ensures BudgetInv(StepSettle(s, e).0)
  {
    hide TotalCharge, TrialInv, TrialsInv, ThreadsInv, Usage;
    if ThreadRunning(s, e.request) && !s.threads[e.request].settled {
      var th := s.threads[e.request];
      var s' := StepSettle(s, e).0;
      ThreadFacts(s, e.request);
      PendingWhileActive(s, th.trialId);
      var entries := s.trials[th.trialId].accounting.entries;
      var used := Usage(s.config.pricing, e.inputTokens, e.outputTokens);
      ChargeReplacesLast(entries, ReconciledEntry(entries[th.entry], used));
      PutCharge(s.trials, th.trialId, s'.trials[th.trialId]);
    }
  }

  lemma PendingWhileActive(s: Ledger, id: string)
    requires TrialsInv(s) && id in s.trials && s.trials[id].active != {}
    ensures PendingLast(s.trials[id].accounting.entries)
  {
    TrialFacts(s, id);
    BusyTrialPendsLast(s.trials[id], s.config, id);
  }

  lemma FailKeepsBudget(s: Ledger, e: Event)
    requires e.Fail? && LedgerInv(s) && BudgetInv(s)
    ensures BudgetInv(StepFail(s, e).0)
  {
    hide TotalCharge, TrialInv, TrialsInv, ThreadsInv;
    if ThreadRunning(s, e.request) && e.request in s.trials[s.threads[e.request].trialId].active {
      var th := s.threads[e.request];
      ThreadFacts(s, e.request);
      PendingWhileActive(s, th.trialId);
      var entries := s.trials[th.trialId].accounting.entries;
      ChargeReplacesLast(entries, UnreconciledEntry(entries[th.entry]));
      PutCharge(s.trials, th.trialId, StepFail(s, e).0.trials[th.trialId]);
    }
  }

  lemma OtherStepsKeepBudget(s: Ledger, e: Event)
    requires BudgetInv(s) && !e.Admit? && !e.Settle? && !e.Fail?
    ensures BudgetInv(Step(s, e).0)
  {
    hide TotalCharge, FrozenReceipt;
    var s' := Step(s, e).0;
    match e
    case Register(id, _, _, _, _, _) => if s' != s { PutCharge(s.trials, id, s'.trials[id]); }
    case RevokeMark(id) => if s' != s { PutCharge(s.trials, id, s'.trials[id]); }
    case RevokeFreeze(id) => if s' != s { PutCharge(s.trials, id, s'.trials[id]); }
    case _ =>
  }

  lemma {:induction false} RunKeepsBudget(s: Ledger, events: seq<Event>)
    requires LedgerInv(s) && BudgetInv(s)
    ensures BudgetInv(Run(s, events))
    decreases |events|
  {
    if events != [] {
      hide LedgerInv, BudgetInv, Step;
      var e := events[0];
      StepBudget(s, e);
      StepKeeps(s, e);
      RunKeepsBudget(Step(s, e).0, events[1..]);
    }
  }

  lemma StepBudget(s: Ledger, e: Event)
    requires LedgerInv(s) && BudgetInv(s)
    ensures BudgetInv(Step(s, e).0)
  {
    hide LedgerInv, BudgetInv;
    match e
    case Admit(_, _, _, _, _, _, _) => AdmitKeepsBudget(s, e);
    case Settle(_, _, _) => SettleKeepsBudget(s, e);
    case Fail(_) => FailKeepsBudget(s, e);
    case _ => OtherStepsKeepBudget(s, e);
  }

  /** The run budget left is its maximum less, over all trials and entries, the price of every reconciled request
      and the reservation of every other; an overdrawn run is closed. */
  lemma RunBudgetConserved(config: Config, events: seq<Event>)
    ensures var s := Run(Init(config), events);
      && s.runRemaining == config.maxRunCost - TotalCharge(s.trials)
      && (s.runRemaining < 0 ==> s.runClosed)
  {
    InitInv(config);
    RunKeeps(Init(config), events);
    RunKeepsBudget(Init(config), events);
  }
}
