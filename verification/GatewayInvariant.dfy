/** What every critical section of the gateway ledger keeps. */
module GatewayInvariant {
  import opened Options
  import opened Accounting
  import opened Receipt
  import opened Estimator
  import opened GatewayLedger

  // ---- One entry, one trial ----

  predicate EntryInv(e: Entry, sequence: int, pricing: Pricing)
  {
    match e.status
    case Pending => e == PendingEntry(sequence, e.buckets.reservation) && e.buckets.reservation.Nonnegative()
    case Reconciled =>
      && EntryValid(e, sequence, pricing)
      && e.buckets.refund == e.buckets.reservation.Beyond(e.buckets.actual)
      && e.buckets.supplement == e.buckets.actual.Beyond(e.buckets.reservation)
    case Unreconciled => EntryValid(e, sequence, pricing)
  }

  predicate EntriesInv(entries: seq<Entry>, pricing: Pricing)
  {
    && (forall i :: 0 <= i < |entries| ==> EntryInv(entries[i], i + 1, pricing))
    && (forall i :: 0 <= i < |entries| - 1 ==> entries[i].status != Pending)
  }

  predicate AccountingInv(a: Accounting, pricing: Pricing)
  {
    && EntriesInv(a.entries, pricing)
    && a.attempted == |a.entries|
    && a.totals == Sum(a.entries)
    && a.reconciled == Count(a.entries, Reconciled)
    && a.unreconciled == Count(a.entries, Unreconciled)
  }

  predicate LastPending(a: Accounting)
  {
    a.entries != [] && a.entries[|a.entries| - 1].status == Pending
  }

  // Quota left is the initial quota less what is reserved, plus refunds, less supplements.
  predicate Left(remaining: int, quota: int, reserved: int, refunded: int, supplemented: int)
  {
    remaining == quota - reserved + refunded - supplemented
  }

  predicate QuotaFrom(t: Trial, requests: int, quota: Bucket)
  {
    var totals := t.accounting.totals;
    && t.requestsRemaining + t.accounting.attempted == requests
    && Left(t.remaining.inputTokens, quota.inputTokens, totals.reservation.inputTokens,
            totals.refund.inputTokens, totals.supplement.inputTokens)
    && Left(t.remaining.outputTokens, quota.outputTokens, totals.reservation.outputTokens,
            totals.refund.outputTokens, totals.supplement.outputTokens)
    && Left(t.remaining.costMicroCny, quota.costMicroCny, totals.reservation.costMicroCny,
            totals.refund.costMicroCny, totals.supplement.costMicroCny)
  }

  predicate Conserved(t: Trial)
  {
    || QuotaFrom(t, MAX_REQUESTS, QUOTA)
    || (QuotaFrom(t, 0, ZERO) && t.accounting == NEW_ACCOUNTING && t.revoked)
  }

  predicate NoOutputSupplement(entries: seq<Entry>)
  {
    forall i :: 0 <= i < |entries| ==> entries[i].buckets.supplement.outputTokens == 0
  }

  predicate BudgetFlagInv(t: Trial)
  {
    if t.withinBudget then
      t.remaining.Nonnegative() && t.accounting.unreconciled == 0 && NoOutputSupplement(t.accounting.entries)
    else t.revoked && t.active == {}
  }

  predicate ReceiptInv(t: Trial, config: Config, id: string)
  {
    t.receipt.Some? ==> t.revoked && t.active == {} && t.receipt.value == FrozenReceipt(config, id, t)
  }

  predicate TrialInv(t: Trial, config: Config, id: string)
  {
    && AccountingInv(t.accounting, config.pricing)
    && (LastPending(t.accounting) <==> t.active != {})
    && (forall r, q :: r in t.active && q in t.active ==> r == q)
    && t.requestsRemaining >= 0
    && Conserved(t)
    && BudgetFlagInv(t)
    && ReceiptInv(t, config, id)
  }

  // ---- The trial transitions keep it ----

  lemma AppendKeepsEntries(entries: seq<Entry>, e: Entry, pricing: Pricing)
    requires EntriesInv(entries, pricing) && EntryInv(e, |entries| + 1, pricing)
    requires entries != [] ==> entries[|entries| - 1].status != Pending
    ensures EntriesInv(entries + [e], pricing)
  {
    hide EntryInv;
    forall i | 0 <= i < |entries + [e]|
      ensures EntryInv((entries + [e])[i], i + 1, pricing)
    {
    }
  }

  lemma AppendReservation(entries: seq<Entry>, sequence: int, want: Bucket)
    ensures var e := PendingEntry(sequence, want);
      Sum(entries + [e]) == Sum(entries).(reservation := Sum(entries).reservation.Plus(want))
  {
    SumSnoc(entries, PendingEntry(sequence, want));
  }

  lemma AdmitKeepsAccounting(t: Trial, pricing: Pricing, request: nat, want: Bucket)
    requires AccountingInv(t.accounting, pricing) && !LastPending(t.accounting) && want.Nonnegative()
    ensures var a := AdmittedTrial(t, request, want).accounting;
      AccountingInv(a, pricing) && LastPending(a)
  {
    var a, e := t.accounting, PendingEntry(t.accounting.attempted + 1, want);
    hide Sum, Count;
    AppendReservation(a.entries, a.attempted + 1, want);
    SumSnoc(a.entries, e);
    AppendKeepsEntries(a.entries, e, pricing);
    hide EntriesInv;
  }

  lemma AdmitKeepsQuota(t: Trial, request: nat, want: Bucket)
    requires Conserved(t) && !t.revoked
    ensures Conserved(AdmittedTrial(t, request, want))
  {
  }

  lemma AdmitKeepsTrial(t: Trial, config: Config, id: string, request: nat, want: Bucket)
    requires TrialInv(t, config, id) && !t.revoked && t.active == {} && t.requestsRemaining > 0
    requires want.Nonnegative() && t.remaining.Minus(want).Nonnegative()
    ensures TrialInv(AdmittedTrial(t, request, want), config, id)
  {
    hide AccountingInv, Conserved;
    AdmitKeepsAccounting(t, config.pricing, request, want);
    AdmitKeepsQuota(t, request, want);
  }

  // Settlement and failure both rewrite the last entry, the only one that can be pending.
  lemma ReplaceLastKeepsEntries(entries: seq<Entry>, e: Entry, pricing: Pricing)
    requires entries != [] && EntriesInv(entries, pricing) && EntryInv(e, |entries|, pricing)
    ensures EntriesInv(entries[|entries| - 1 := e], pricing)
  {
    hide EntryInv;
    var replaced := entries[|entries| - 1 := e];
    forall i | 0 <= i < |replaced|
      ensures EntryInv(replaced[i], i + 1, pricing)
    {
    }
  }

  lemma ReplaceLastSum(entries: seq<Entry>, e: Entry)
    requires entries != []
    ensures var init, last := entries[..|entries| - 1], entries[|entries| - 1];
      && Sum(entries) == Sum(init).Plus(last.buckets)
      && Sum(entries[|entries| - 1 := e]) == Sum(init).Plus(e.buckets)
    ensures forall status :: Count(entries[|entries| - 1 := e], status) == Count(entries, status)
                             - (if entries[|entries| - 1].status == status then 1 else 0)
                             + (if e.status == status then 1 else 0)
  {
    assert entries[|entries| - 1 := e][..|entries| - 1] == entries[..|entries| - 1];
  }

  predicate PendingLast(entries: seq<Entry>)
  {
    && entries != []
    && entries[|entries| - 1] == PendingEntry(|entries|, entries[|entries| - 1].buckets.reservation)
    && entries[|entries| - 1].buckets.reservation.Nonnegative()
  }

  lemma SettledPlus(before: Totals, sequence: int, r: Bucket, used: Bucket)
    ensures var pending := PendingEntry(sequence, r);
      var reserved := before.Plus(pending.buckets);
      before.Plus(ReconciledEntry(pending, used).buckets) ==
      reserved.(actual := reserved.actual.Plus(used),
                refund := reserved.refund.Plus(r.Beyond(used)),
                supplement := reserved.supplement.Plus(used.Beyond(r)))
  {
  }

  lemma FailedPlus(before: Totals, sequence: int, r: Bucket)
    ensures var pending := PendingEntry(sequence, r);
      var reserved := before.Plus(pending.buckets);
      before.Plus(UnreconciledEntry(pending).buckets) ==
      reserved.(unreconciledReservation := reserved.unreconciledReservation.Plus(r))
  {
  }

  lemma SettleTotals(entries: seq<Entry>, used: Bucket)
    requires PendingLast(entries)
    ensures var last := |entries| - 1;
      var r := entries[last].buckets.reservation;
      Sum(entries[last := ReconciledEntry(entries[last], used)]) ==
      Sum(entries).(actual := Sum(entries).actual.Plus(used),
                    refund := Sum(entries).refund.Plus(r.Beyond(used)),
                    supplement := Sum(entries).supplement.Plus(used.Beyond(r)))
  {
    var last := |entries| - 1;
    hide Sum;
    ReplaceLastSum(entries, ReconciledEntry(entries[last], used));
    SettledPlus(Sum(entries[..last]), |entries|, entries[last].buckets.reservation, used);
  }

  lemma FailTotals(entries: seq<Entry>)
    requires PendingLast(entries)
    ensures var last := |entries| - 1;
      var r := entries[last].buckets.reservation;
      Sum(entries[last := UnreconciledEntry(entries[last])]) ==
      Sum(entries).(unreconciledReservation := Sum(entries).unreconciledReservation.Plus(r))
  {
    var last := |entries| - 1;
    hide Sum;
    ReplaceLastSum(entries, UnreconciledEntry(entries[last]));
    FailedPlus(Sum(entries[..last]), |entries|, entries[last].buckets.reservation);
  }

  lemma SettledEntryInv(sequence: int, reservation: Bucket, pricing: Pricing, inputTokens: nat, outputTokens: nat)
    requires reservation.Nonnegative()
    ensures EntryInv(ReconciledEntry(PendingEntry(sequence, reservation), Usage(pricing, inputTokens, outputTokens)),
                     sequence, pricing)
  {
    TokenCostMonotone(0, 0, inputTokens, outputTokens, pricing);
  }

  lemma SettleKeepsAccounting(t: Trial, pricing: Pricing, request: nat, inputTokens: nat, outputTokens: nat)
    requires AccountingInv(t.accounting, pricing) && PendingLast(t.accounting.entries)
    ensures var last := |t.accounting.entries| - 1;
      var a := SettledTrial(t, request, last, t.accounting.entries[last].buckets.reservation,
                            Usage(pricing, inputTokens, outputTokens)).accounting;
      AccountingInv(a, pricing) && !LastPending(a)
  {
    var a, last := t.accounting, |t.accounting.entries| - 1;
    var used := Usage(pricing, inputTokens, outputTokens);
    SettledEntryInv(last + 1, a.entries[last].buckets.reservation, pricing, inputTokens, outputTokens);
    hide Sum, Count, EntryInv, Usage;
    SettleTotals(a.entries, used);
    ReplaceLastSum(a.entries, ReconciledEntry(a.entries[last], used));
    ReplaceLastKeepsEntries(a.entries, ReconciledEntry(a.entries[last], used), pricing);
    hide EntriesInv;
  }

  lemma FailKeepsAccounting(t: Trial, pricing: Pricing, request: nat)
    requires AccountingInv(t.accounting, pricing) && PendingLast(t.accounting.entries)
    ensures var last := |t.accounting.entries| - 1;
      var a := FailedTrial(t, request, last, t.accounting.entries[last].buckets.reservation).accounting;
      AccountingInv(a, pricing) && !LastPending(a)
  {
    var a, last := t.accounting, |t.accounting.entries| - 1;
    var e := UnreconciledEntry(a.entries[last]);
    assert EntryInv(e, last + 1, pricing);
    hide Sum, Count, EntryInv;
    FailTotals(a.entries);
    ReplaceLastSum(a.entries, e);
    ReplaceLastKeepsEntries(a.entries, e, pricing);
    hide EntriesInv;
  }

  lemma BusyTrialPendsLast(t: Trial, config: Config, id: string)
    requires TrialInv(t, config, id) && t.active != {}
    ensures PendingLast(t.accounting.entries)
    ensures QuotaFrom(t, MAX_REQUESTS, QUOTA)
  {
    var last := |t.accounting.entries| - 1;
    assert EntryInv(t.accounting.entries[last], last + 1, config.pricing);
  }

  lemma SettleKeepsQuota(t: Trial, request: nat, entry: nat, reservation: Bucket, used: Bucket)
    requires entry < |t.accounting.entries| && QuotaFrom(t, MAX_REQUESTS, QUOTA)
    ensures QuotaFrom(SettledTrial(t, request, entry, reservation, used), MAX_REQUESTS, QUOTA)
  {
  }

  function FlagIf(t: Trial, over: bool): Trial
  {
    if over then t.(revoked := true, withinBudget := false) else t
  }

  lemma SettleKeepsBudgetFlag(t: Trial, request: nat, reservation: Bucket, used: Bucket, runRemaining: int)
    requires PendingLast(t.accounting.entries)
    requires t.accounting.entries[|t.accounting.entries| - 1].buckets.reservation == reservation
    requires BudgetFlagInv(t) && t.active == {request}
    ensures var t' := SettledTrial(t, request, |t.accounting.entries| - 1, reservation, used);
      BudgetFlagInv(FlagIf(t', OverQuota(t', reservation, used, runRemaining)))
  {
  }

  lemma SettleKeepsTrial(t: Trial, config: Config, id: string, request: nat, reservation: Bucket,
                         inputTokens: nat, outputTokens: nat, runRemaining: int)
    requires TrialInv(t, config, id) && t.active == {request}
    requires t.accounting.entries != []
    requires t.accounting.entries[|t.accounting.entries| - 1].buckets.reservation == reservation
    ensures var used := Usage(config.pricing, inputTokens, outputTokens);
      var t' := SettledTrial(t, request, |t.accounting.entries| - 1, reservation, used);
      TrialInv(FlagIf(t', OverQuota(t', reservation, used, runRemaining)), config, id)
  {
    BusyTrialPendsLast(t, config, id);
    var used, last := Usage(config.pricing, inputTokens, outputTokens), |t.accounting.entries| - 1;
    hide AccountingInv, BudgetFlagInv, QuotaFrom, Usage, PendingLast, OverQuota;
    SettleKeepsAccounting(t, config.pricing, request, inputTokens, outputTokens);
    SettleKeepsQuota(t, request, last, reservation, used);
    SettleKeepsBudgetFlag(t, request, reservation, used, runRemaining);
    var t' := SettledTrial(t, request, last, reservation, used);
    FlagKeepsQuota(t', OverQuota(t', reservation, used, runRemaining));
  }

  lemma FlagKeepsQuota(t: Trial, over: bool)
    requires QuotaFrom(t, MAX_REQUESTS, QUOTA)
    ensures QuotaFrom(FlagIf(t, over), MAX_REQUESTS, QUOTA)
  {
  }

  lemma FailKeepsTrial(t: Trial, config: Config, id: string, request: nat, reservation: Bucket)
    requires TrialInv(t, config, id) && t.active == {request}
    requires t.accounting.entries != []
    requires t.accounting.entries[|t.accounting.entries| - 1].buckets.reservation == reservation
    ensures TrialInv(FailedTrial(t, request, |t.accounting.entries| - 1, reservation), config, id)
  {
    BusyTrialPendsLast(t, config, id);
    FailKeepsAccounting(t, config.pricing, request);
    assert QuotaFrom(FailedTrial(t, request, |t.accounting.entries| - 1, reservation), MAX_REQUESTS, QUOTA);
    hide AccountingInv, QuotaFrom, PendingLast;
  }

  lemma NewAccountingInv(pricing: Pricing)
    ensures AccountingInv(NEW_ACCOUNTING, pricing)
  {
  }

  lemma NewTrialInv(expiresAt: real, deadline: real, config: Config, id: string)
    ensures TrialInv(NewTrial(expiresAt, deadline, MAX_REQUESTS, QUOTA, false), config, id)
  {
    hide AccountingInv;
    NewAccountingInv(config.pricing);
  }

  lemma TombstoneConserved()
    ensures Conserved(TOMBSTONE)
  {
    assert QuotaFrom(TOMBSTONE, 0, ZERO);
  }

  lemma TombstoneInv(config: Config, id: string)
    ensures TrialInv(TOMBSTONE, config, id)
  {
    hide AccountingInv, Conserved, ReceiptInv;
    NewAccountingInv(config.pricing);
    TombstoneConserved();
    assert ReceiptInv(TOMBSTONE, config, id) by {
      NoReceiptInv(TOMBSTONE, config, id);
    }
  }

  lemma NoReceiptInv(t: Trial, config: Config, id: string)
    requires t.receipt == None
    ensures ReceiptInv(t, config, id)
  {
  }

  // A trial may be marked revoked at any time, and over budget as long as no receipt is frozen.
  lemma MarkKeepsTrial(t: Trial, config: Config, id: string)
    requires TrialInv(t, config, id)
    ensures TrialInv(t.(revoked := true), config, id)
    ensures t.receipt == None && t.active == {} ==> TrialInv(t.(revoked := true, withinBudget := false), config, id)
  {
    hide AccountingInv;
  }

  lemma FreezeKeepsTrial(t: Trial, config: Config, id: string)
    requires TrialInv(t, config, id) && t.revoked && t.active == {}
    ensures TrialInv(t.(receipt := Some(FrozenReceipt(config, id, t))), config, id)
  {
    hide AccountingInv;
  }

  // ---- The whole ledger ----

  predicate TrialsInv(s: Ledger)
  {
    forall id :: id in s.trials ==>
      && ValidTrialId(id)
      && TrialInv(s.trials[id], s.config, id)
      && forall r :: r in s.trials[id].active ==> r < s.created
  }

  // An unsettled thread is the one active request of its trial, and owns its last entry.
  predicate ThreadInv(th: Thread, request: nat, trials: map<string, Trial>)
  {
    && th.trialId in trials
    && var t := trials[th.trialId];
       && th.entry < |t.accounting.entries|
       && if th.settled then request !in t.active
          else t.active == {request} && OwnsLastEntry(th, t.accounting.entries)
  }

  predicate OwnsLastEntry(th: Thread, entries: seq<Entry>)
  {
    entries != [] && th.entry == |entries| - 1 && entries[th.entry].buckets.reservation == th.reservation
  }

  predicate ThreadsInv(s: Ledger)
  {
    forall r :: r in s.threads ==> r < s.created && ThreadInv(s.threads[r], r, s.trials)
  }

  predicate RevokersInv(s: Ledger)
  {
    forall id :: id in s.revokers ==> id in s.trials && s.trials[id].revoked
  }

  predicate LedgerInv(s: Ledger)
  {
    TrialsInv(s) && ThreadsInv(s) && RevokersInv(s)
  }

  lemma InitInv(config: Config)
    ensures LedgerInv(Init(config))
  {
  }

  lemma TrialFacts(s: Ledger, id: string)
    requires TrialsInv(s) && id in s.trials
    ensures ValidTrialId(id) && TrialInv(s.trials[id], s.config, id)
    ensures forall r :: r in s.trials[id].active ==> r < s.created
    ensures s.trials[id].receipt.Some? ==> s.trials[id].revoked && s.trials[id].active == {}
  {
    hide AccountingInv, Conserved, BudgetFlagInv;
  }

  // Storing one good trial keeps the others good.
  lemma PutTrial(s: Ledger, s': Ledger, id: string, t: Trial)
    requires TrialsInv(s) && s'.config == s.config && s'.created >= s.created
    requires s'.trials == s.trials[id := t] && ValidTrialId(id) && TrialInv(t, s.config, id)
    requires forall r :: r in t.active ==> r < s'.created
    ensures TrialsInv(s')
  {
    hide TrialInv;
  }

  // A trial whose active requests and number of entries are unchanged looks the same to every thread.
  lemma ThreadsUnmoved(s: Ledger, s': Ledger, id: string, t: Trial)
    requires ThreadsInv(s) && s'.created == s.created
    requires s'.trials == s.trials[id := t]
    requires s'.threads == s.threads
    requires id in s.trials ==>
             t.active == s.trials[id].active && t.accounting.entries == s.trials[id].accounting.entries
    ensures ThreadsInv(s')
  {
  }

  lemma RegisterKeeps(s: Ledger, e: Event)
    requires e.Register? && LedgerInv(s)
    ensures LedgerInv(StepRegister(s, e).0)
  {
    hide TrialInv, TrialsInv, ThreadsInv;
    var s' := StepRegister(s, e).0;
    if s' != s {
      NewTrialInv(e.now + e.ttl.value, e.deadline.value, s.config, e.trialId);
      PutTrial(s, s', e.trialId, s'.trials[e.trialId]);
      ThreadsUnmoved(s, s', e.trialId, s'.trials[e.trialId]);
    }
  }

  lemma ReservationNonnegative(pricing: Pricing, body: seq<CodePoint>, outputLimit: int)
    requires outputLimit >= 0
    ensures ReservationOf(pricing, body, outputLimit).Nonnegative()
  {
    TokenCostMonotone(0, 0, |Utf8Encode(body)| + INPUT_RESERVATION_MARGIN_TOKENS, outputLimit, pricing);
    EstimateWithinBody(body);
  }

  lemma RunExhaustedKeeps(s: Ledger, id: string)
    requires LedgerInv(s) && id in s.trials && !s.trials[id].revoked && s.trials[id].active == {}
    ensures LedgerInv(s.(trials := s.trials[id := s.trials[id].(revoked := true, withinBudget := false)]))
  {
    hide TrialInv, TrialsInv, ThreadsInv;
    TrialFacts(s, id);
    var t := s.trials[id];
    var t' := t.(revoked := true, withinBudget := false);
    MarkKeepsTrial(t, s.config, id);
    PutTrial(s, s.(trials := s.trials[id := t']), id, t');
    ThreadsUnmoved(s, s.(trials := s.trials[id := t']), id, t');
  }

  // Admitting a request adds one thread, to a trial no unsettled thread can belong to.
  lemma AdmittedThreads(s: Ledger, s': Ledger, id: string, t: Trial, th: Thread)
    requires ThreadsInv(s) && id in s.trials && s.trials[id].active == {}
    requires s'.trials == s.trials[id := t] && s'.created == s.created + 1
    requires s'.threads == s.threads[s.created := th]
    requires t.active == {s.created} && |s.trials[id].accounting.entries| < |t.accounting.entries|
    requires th.trialId == id && !th.settled && OwnsLastEntry(th, t.accounting.entries)
    ensures ThreadsInv(s')
  {
    forall r | r in s'.threads
      ensures r < s'.created && ThreadInv(s'.threads[r], r, s'.trials)
    {
      if r != s.created {
        assert r in s.threads && ThreadInv(s.threads[r], r, s.trials);
      }
    }
  }

  lemma AdmissionKeeps(s: Ledger, s': Ledger, id: string, want: Bucket, bodyBytes: nat)
    requires LedgerInv(s) && id in s.trials && want.Nonnegative()
    requires var t := s.trials[id];
      && !t.revoked && t.active == {} && t.requestsRemaining > 0 && t.remaining.Minus(want).Nonnegative()
      && s'.config == s.config && s'.revokers == s.revokers && s'.created == s.created + 1
      && s'.trials == s.trials[id := AdmittedTrial(t, s.created, want)]
      && s'.threads == s.threads[s.created := Thread(id, |t.accounting.entries|, bodyBytes, want, false)]
    ensures LedgerInv(s')
  {
    hide TrialInv, TrialsInv, ThreadsInv;
    TrialFacts(s, id);
    var t := AdmittedTrial(s.trials[id], s.created, want);
    AdmitKeepsTrial(s.trials[id], s.config, id, s.created, want);
    PutTrial(s, s', id, t);
    AdmittedThreads(s, s', id, t, Thread(id, |s.trials[id].accounting.entries|, bodyBytes, want, false));
  }

  // What an accepted admission must have passed, in any order.
  lemma AdmittedMeans(s: Ledger, e: Event)
    requires e.Admit?
    ensures var want := ReservationOf(s.config.pricing, e.body, OutputLimit(e.requestedOutput));
      StepAdmit(s, e).1.Admitted? <==>
      && RequestRefusal(s.config, e) == None
      && e.trialId in s.trials
      && var t := s.trials[e.trialId];
         && e.admissionNow < t.admissionDeadline && e.expiryNow < t.expiresAt
         && !t.revoked && t.active == {} && t.requestsRemaining > 0
         && t.remaining.Minus(want).Nonnegative()
         && !s.runClosed && want.costMicroCny <= s.runRemaining
  {
    hide ReservationOf, RequestRefusal;
  }

  lemma AdmitKeeps(s: Ledger, e: Event)
    requires e.Admit? && LedgerInv(s)
    ensures LedgerInv(StepAdmit(s, e).0)
  {
    var s' := StepAdmit(s, e).0;
    if s' != s {
      var want := ReservationOf(s.config.pricing, e.body, OutputLimit(e.requestedOutput));
      ReservationNonnegative(s.config.pricing, e.body, OutputLimit(e.requestedOutput));
      hide LedgerInv, ReservationOf, RequestRefusal;
      if StepAdmit(s, e).1.Admitted? {
        AdmissionKeeps(s, s', e.trialId, want, |Utf8Encode(e.body)|);
      } else {
        RunExhaustedKeeps(s, e.trialId);
      }
    }
  }

  // Settling or failing one request leaves every other thread's view of its trial intact.
  lemma ThreadsElsewhere(s: Ledger, s': Ledger, id: string, t: Trial, request: nat)
    requires ThreadsInv(s) && id in s.trials && s.trials[id].active == {request}
    requires request in s.threads && s.threads[request].trialId == id
    requires s'.trials == s.trials[id := t] && s'.created == s.created
    requires t.active == {} && |t.accounting.entries| == |s.trials[id].accounting.entries|
    requires || s'.threads == s.threads - {request}
             || s'.threads == s.threads[request := s.threads[request].(settled := true)]
    ensures ThreadsInv(s')
  {
    forall r | r in s'.threads
      ensures r < s'.created && ThreadInv(s'.threads[r], r, s'.trials)
    {
      assert r in s.threads && ThreadInv(s.threads[r], r, s.trials);
    }
  }

  lemma ThreadFacts(s: Ledger, request: nat)
    requires ThreadsInv(s) && request in s.threads
    ensures ThreadInv(s.threads[request], request, s.trials)
    ensures ThreadRunning(s, request)
  {
  }

  lemma RetireKeeps(s: Ledger, s': Ledger, request: nat, t: Trial)
    requires LedgerInv(s) && request in s.threads
    requires var id := s.threads[request].trialId;
      && id in s.trials && s.trials[id].active == {request}
      && s'.config == s.config && s'.revokers == s.revokers && s'.created == s.created
      && s'.trials == s.trials[id := t] && TrialInv(t, s.config, id)
      && t.active == {} && |t.accounting.entries| == |s.trials[id].accounting.entries|
      && (s.trials[id].revoked ==> t.revoked)
      && (|| s'.threads == s.threads - {request}
          || s'.threads == s.threads[request := s.threads[request].(settled := true)])
    ensures LedgerInv(s')
  {
    hide TrialInv, TrialsInv, ThreadsInv;
    var id := s.threads[request].trialId;
    TrialFacts(s, id);
    PutTrial(s, s', id, t);
    ThreadsElsewhere(s, s', id, t, request);
  }

  lemma SettledShape(t: Trial, request: nat, entry: nat, reservation: Bucket, used: Bucket, over: bool)
    requires entry < |t.accounting.entries|
    ensures var t' := FlagIf(SettledTrial(t, request, entry, reservation, used), over);
      && t'.active == t.active - {request}
      && |t'.accounting.entries| == |t.accounting.entries|
      && t'.revoked == (t.revoked || over)
  {
  }

  // The trial a settlement leaves behind.
  function AfterSettle(s: Ledger, e: Event): Trial
    requires e.Settle? && ThreadRunning(s, e.request)
  {
    var th, used := s.threads[e.request], Usage(s.config.pricing, e.inputTokens, e.outputTokens);
    var t := SettledTrial(s.trials[th.trialId], e.request, th.entry, th.reservation, used);
    FlagIf(t, OverQuota(t, th.reservation, used, s.runRemaining + th.reservation.costMicroCny - used.costMicroCny))
  }

  lemma SettleEffect(s: Ledger, e: Event)
    requires e.Settle? && ThreadRunning(s, e.request) && !s.threads[e.request].settled
    ensures var s', th := StepSettle(s, e).0, s.threads[e.request];
      && s'.config == s.config && s'.revokers == s.revokers && s'.created == s.created
      && s'.trials == s.trials[th.trialId := AfterSettle(s, e)]
      && (|| s'.threads == s.threads - {e.request}
          || s'.threads == s.threads[e.request := th.(settled := true)])
  {
    hide SettledTrial, Usage, OverQuota;
  }

  lemma SettleKeeps(s: Ledger, e: Event)
    requires e.Settle? && LedgerInv(s)
    ensures LedgerInv(StepSettle(s, e).0)
  {
    if ThreadRunning(s, e.request) && !s.threads[e.request].settled {
      hide TrialInv, TrialsInv, ThreadsInv, Usage, OverQuota, SettledTrial, StepSettle;
      var th, used := s.threads[e.request], Usage(s.config.pricing, e.inputTokens, e.outputTokens);
      SettleEffect(s, e);
      ThreadFacts(s, e.request);
      TrialFacts(s, th.trialId);
      var runRemaining := s.runRemaining + th.reservation.costMicroCny - used.costMicroCny;
      SettleKeepsTrial(s.trials[th.trialId], s.config, th.trialId, e.request, th.reservation,
                       e.inputTokens, e.outputTokens, runRemaining);
      var t := SettledTrial(s.trials[th.trialId], e.request, th.entry, th.reservation, used);
      SettledShape(s.trials[th.trialId], e.request, th.entry, th.reservation, used,
                   OverQuota(t, th.reservation, used, runRemaining));
      RetireKeeps(s, StepSettle(s, e).0, e.request, AfterSettle(s, e));
    }
  }

  lemma FailKeeps(s: Ledger, e: Event)
    requires e.Fail? && LedgerInv(s)
    ensures LedgerInv(StepFail(s, e).0)
  {
    hide TrialInv, TrialsInv, ThreadsInv;
    if ThreadRunning(s, e.request) {
      var th := s.threads[e.request];
      ThreadFacts(s, e.request);
      TrialFacts(s, th.trialId);
      if e.request in s.trials[th.trialId].active {
        var s' := StepFail(s, e).0;
        FailKeepsTrial(s.trials[th.trialId], s.config, th.trialId, e.request, th.reservation);
        RetireKeeps(s, s', e.request, s'.trials[th.trialId]);
      } else {
        ThreadGone(s, e.request);
      }
    }
  }

  lemma ThreadGone(s: Ledger, request: nat)
    requires LedgerInv(s)
    ensures LedgerInv(s.(threads := s.threads - {request}))
  {
    hide TrialInv;
    assert TrialsInv(s.(threads := s.threads - {request}));
  }

  lemma RevokeMarkKeeps(s: Ledger, e: Event)
    requires e.RevokeMark? && LedgerInv(s)
    ensures LedgerInv(StepRevokeMark(s, e).0)
  {
    hide TrialInv, TrialsInv, ThreadsInv;
    var s' := StepRevokeMark(s, e).0;
    if s' != s {
      if e.trialId in s.trials {
        TrialFacts(s, e.trialId);
        MarkKeepsTrial(s.trials[e.trialId], s.config, e.trialId);
      } else {
        TombstoneInv(s.config, e.trialId);
      }
      PutTrial(s, s', e.trialId, s'.trials[e.trialId]);
      ThreadsUnmoved(s, s', e.trialId, s'.trials[e.trialId]);
    }
  }

  lemma RevokeFreezeKeeps(s: Ledger, e: Event)
    requires e.RevokeFreeze? && LedgerInv(s)
    ensures LedgerInv(StepRevokeFreeze(s, e).0)
  {
    hide TrialInv, TrialsInv, ThreadsInv, FrozenReceipt;
    var s' := StepRevokeFreeze(s, e).0;
    if s' != s {
      TrialFacts(s, e.trialId);
      FreezeKeepsTrial(s.trials[e.trialId], s.config, e.trialId);
      PutTrial(s, s', e.trialId, s'.trials[e.trialId]);
      ThreadsUnmoved(s, s', e.trialId, s'.trials[e.trialId]);
    }
  }

  /** Every critical section, enabled or not, keeps the ledger invariant. */
  lemma StepKeeps(s: Ledger, e: Event)
    requires LedgerInv(s)
    ensures LedgerInv(Step(s, e).0)
    ensures Step(s, e).0.config == s.config
  {
    hide LedgerInv;
    match e
    case Register(_, _, _, _, _, _) => RegisterKeeps(s, e);
    case Admit(_, _, _, _, _, _, _) => AdmitKeeps(s, e);
    case Settle(_, _, _) => SettleKeeps(s, e);
    case Fail(_) => FailKeeps(s, e);
    case FailUnconfirmed(request) => ThreadGone(s, request);
    case RevokeMark(_) => RevokeMarkKeeps(s, e);
    case RevokeFreeze(_) => RevokeFreezeKeeps(s, e);
    case RevokeAbandon(_) => AbandonKeeps(s, e);
  }

  lemma AbandonKeeps(s: Ledger, e: Event)
    requires e.RevokeAbandon? && LedgerInv(s)
    ensures LedgerInv(StepRevokeAbandon(s, e).0)
  {
    hide TrialInv;
  }

  lemma {:induction false} RunKeeps(s: Ledger, events: seq<Event>)
    requires LedgerInv(s)
    ensures LedgerInv(Run(s, events)) && Run(s, events).config == s.config
    decreases |events|
  {
    if events != [] {
      StepKeeps(s, events[0]);
      RunKeeps(Step(s, events[0]).0, events[1..]);
    }
  }
}
