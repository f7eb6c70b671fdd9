/** What the gateway answers and what each answer leaves behind, in the amounts and conditions of
    gateway_supervisor.py rather than in terms of the step functions. */
module GatewayAnswers {
  import opened Options
  import opened Accounting
  import opened Receipt
  import opened Estimator
  import opened GatewayLedger
  import opened GatewayInvariant
  import opened GatewayReach
  import opened GatewayFinality
  import opened GatewayRuns
  import opened GatewayUsage

  // ---- Settlement ----

  // A request whose proxy call may still settle it.
  predicate Unsettled(s: Ledger, request: nat)
  {
    ThreadRunning(s, request) && !s.threads[request].settled
  }

  // The usage is beyond the fixed input limit or the request's output cap, or its trial or the run cannot pay for it
  // out of what is left and what the request had reserved.
  predicate Exceeds(t: Trial, reserved: Bucket, runRemaining: int, inputTokens: nat, outputTokens: nat, cost: int)
  {
    || inputTokens > 1_000_000
    || outputTokens > reserved.outputTokens
    || t.remaining.inputTokens + reserved.inputTokens < inputTokens
    || t.remaining.outputTokens + reserved.outputTokens < outputTokens
    || t.remaining.costMicroCny + reserved.costMicroCny < cost
    || runRemaining + reserved.costMicroCny < cost
  }

  predicate ExceedsAt(s: Ledger, e: Event)
    requires e.Settle? && Unsettled(s, e.request)
  {
    var th := s.threads[e.request];
    Exceeds(s.trials[th.trialId], th.reservation, s.runRemaining, e.inputTokens, e.outputTokens,
            TokenCost(e.inputTokens, e.outputTokens, s.config.pricing))
  }

  /** A settlement is refused exactly when the usage exceeds what could be paid; it returns the response exactly when
      it does not and nobody revoked the trial meanwhile. Only the refusal revokes the trial and breaks its budget. */
  lemma SettlementAnswer(s: Ledger, e: Event)
    requires e.Settle? && Unsettled(s, e.request)
    ensures var id := s.threads[e.request].trialId;
      var (s', reply) := Step(s, e);
      && (reply == UsageExceedsQuota <==> ExceedsAt(s, e))
      && (reply == Responded <==> !ExceedsAt(s, e) && !s.trials[id].revoked)
      && (reply == RevokedDuringRequest <==> !ExceedsAt(s, e) && s.trials[id].revoked)
      && id in s'.trials
      && (s'.trials[id].revoked <==> s.trials[id].revoked || ExceedsAt(s, e))
      && (s'.trials[id].withinBudget <==> s.trials[id].withinBudget && !ExceedsAt(s, e))
  {
    hide TokenCost, ReconciledEntry;
  }

  // The provider bills no more than the request reserved, and no more than its body can hold.
  predicate BillsWithinReservation(s: Ledger, e: Event)
  {
    BillsWithinBody(s, e) &&
    (e.Settle? && e.request in s.threads ==> e.inputTokens <= s.threads[e.request].reservation.inputTokens)
  }

  predicate ReservedRun(s: Ledger, events: seq<Event>)
    decreases |events|
  {
    events == [] || (BillsWithinReservation(s, events[0]) && ReservedRun(Step(s, events[0]).0, events[1..]))
  }

  // Nothing is owed before a request settles: what is left and what the request reserved are within the quota.
  predicate Solvent(t: Trial, reserved: Bucket)
  {
    t.remaining.Nonnegative() && t.remaining.inputTokens + reserved.inputTokens <= 1_000_000
  }

  lemma PendingTrialSolvent(t: Trial, config: Config, id: string)
    requires TrialInv(t, config, id) && t.active != {}
    ensures t.accounting.entries != []
    ensures Solvent(t, t.accounting.entries[|t.accounting.entries| - 1].buckets.reservation)
  {
    var entries, last := t.accounting.entries, |t.accounting.entries| - 1;
    BusyTrialPendsLast(t, config, id);
    SettledBefore(entries, config.pricing);
    hide Sum, Count, EntriesInv, ReceiptInv, Conserved, NoOutputSupplement;
    assert t.remaining.Nonnegative();
    InputLeft(t, entries[..last], entries[last]);
  }

  lemma SettledBefore(entries: seq<Entry>, pricing: Pricing)
    requires EntriesInv(entries, pricing) && entries != []
    ensures var settled := Sum(entries[..|entries| - 1]);
      && settled.Nonnegative() && Balanced(settled)
      && Sum(entries) == settled.Plus(entries[|entries| - 1].buckets)
  {
    hide EntryInv;
    SettledEntriesValid(entries[..|entries| - 1], pricing);
  }

  lemma InputLeft(t: Trial, settled: seq<Entry>, last: Entry)
    requires QuotaFrom(t, MAX_REQUESTS, QUOTA)
    requires t.accounting.totals == Sum(settled).Plus(last.buckets)
    requires Sum(settled).Nonnegative() && Balanced(Sum(settled))
    requires last == PendingEntry(last.sequence, last.buckets.reservation)
    ensures t.remaining.inputTokens + last.buckets.reservation.inputTokens <= 1_000_000
  {
    hide Sum;
  }

  lemma UnsettledSolvent(s: Ledger, request: nat)
    requires LedgerInv(s) && Unsettled(s, request)
    ensures var th := s.threads[request];
      s.trials[th.trialId].active == {request} && Solvent(s.trials[th.trialId], th.reservation)
  {
    hide TrialInv, Solvent;
    var th := s.threads[request];
    ThreadFacts(s, request);
    TrialFacts(s, th.trialId);
    PendingTrialSolvent(s.trials[th.trialId], s.config, th.trialId);
  }

  /** In every reachable state, whatever the other trials did: usage within what the request reserved is refused only
      because the run itself is overdrawn beyond what this request gives back, and otherwise leaves its trial's standing
      alone. */
  lemma ReservedUsageIsPaid(config: Config, events: seq<Event>, e: Event)
    requires e.Settle? && Unsettled(Run(Init(config), events), e.request)
    requires var s := Run(Init(config), events);
      var reserved, cost := s.threads[e.request].reservation, TokenCost(e.inputTokens, e.outputTokens, config.pricing);
      e.inputTokens <= reserved.inputTokens && e.outputTokens <= reserved.outputTokens && cost <= reserved.costMicroCny
    ensures var s, cost := Run(Init(config), events), TokenCost(e.inputTokens, e.outputTokens, config.pricing);
      var th := s.threads[e.request];
      var (s', reply) := Step(s, e);
      && (reply == UsageExceedsQuota <==> s.runRemaining + th.reservation.costMicroCny < cost)
      && (reply != UsageExceedsQuota ==>
            && reply == (if s.trials[th.trialId].revoked then RevokedDuringRequest else Responded)
            && th.trialId in s'.trials
            && s'.trials[th.trialId].revoked == s.trials[th.trialId].revoked
            && s'.trials[th.trialId].withinBudget == s.trials[th.trialId].withinBudget)
  {
    var s := Run(Init(config), events);
    InitInv(config);
    RunKeeps(Init(config), events);
    UnsettledSolvent(s, e.request);
    SettlementAnswer(s, e);
    hide LedgerInv, Run, Step, TokenCost;
  }

  lemma {:induction false} ReservedPrefix(s: Ledger, events: seq<Event>, i: nat)
    requires i < |events| && ReservedRun(s, events)
    ensures HonestRun(s, events[..i])
    ensures BillsWithinReservation(Run(s, events[..i]), events[i])
    decreases i
  {
    hide BillsWithinBody, Step;
    if i > 0 {
      ReservedPrefix(Step(s, events[0]).0, events[1..], i - 1);
      assert events[..i][1..] == events[1..][..i - 1];
    }
  }

  lemma ReservedCost(s: Ledger, e: Event)
    requires e.Settle? && Unsettled(s, e.request) && Covered(s) && BillsWithinReservation(s, e)
    ensures var th := s.threads[e.request];
      && e.inputTokens <= th.reservation.inputTokens && e.outputTokens <= th.reservation.outputTokens
      && TokenCost(e.inputTokens, e.outputTokens, s.config.pricing) <= th.reservation.costMicroCny
      && s.runRemaining >= 0
  {
    var th := s.threads[e.request];
    assert PricedByBody(th, s.config.pricing);
    TokenCostMonotone(e.inputTokens, e.outputTokens, th.bodyBytes + INPUT_RESERVATION_MARGIN_TOKENS,
                      th.reservation.outputTokens, s.config.pricing);
    hide TokenCost;
  }

  // No trial changes its standing.
  predicate SameStanding(s: Ledger, s': Ledger)
  {
    && s'.trials.Keys == s.trials.Keys
    && forall id :: id in s.trials ==>
         s'.trials[id].revoked == s.trials[id].revoked && s'.trials[id].withinBudget == s.trials[id].withinBudget
  }

  lemma ReservedSettlement(s: Ledger, e: Event)
    requires e.Settle? && LedgerInv(s) && Covered(s) && BillsWithinReservation(s, e)
    ensures Step(s, e).1 != UsageExceedsQuota && SameStanding(s, Step(s, e).0)
  {
    hide LedgerInv, Covered, BillsWithinReservation, TokenCost, RequestsOf;
    SettleReach(s, e);
    if Unsettled(s, e.request) {
      ReservedCost(s, e);
      UnsettledSolvent(s, e.request);
      SettlementAnswer(s, e);
      hide StepSettle;
    }
  }

  /** Over every interleaving: if the provider never bills more than the requests reserved, no settlement is refused
      and none revokes a trial, breaks its budget or closes the run. */
  lemma ReservedProviderNeverRevokes(config: Config, events: seq<Event>, i: nat)
    requires ReservedRun(Init(config), events)
    requires i < |events| && events[i].Settle?
    ensures var s := Run(Init(config), events[..i]);
      var (s', reply) := Step(s, events[i]);
      reply != UsageExceedsQuota && SameStanding(s, s') && !s'.runClosed
  {
    var s := Run(Init(config), events[..i]);
    ReservedPrefix(Init(config), events, i);
    InitInv(config);
    RunKeeps(Init(config), events[..i]);
    assert Covered(Init(config));
    CoveredRun(Init(config), events[..i]);
    hide LedgerInv, Run, Step, SameStanding, BillsWithinReservation, BillsWithinBody;
    CoveredStep(s, events[i]);
    ReservedSettlement(s, events[i]);
  }

  // ---- Failure ----

  /** A failed call whose cancel was confirmed ends its thread. If its request was still active, the request becomes
      unreconciled, its reservation is kept from the trial and the run, and the trial is revoked and out of budget; if it
      had settled, nothing else changes. */
  lemma FailureAnswer(s: Ledger, request: nat)
    requires ThreadRunning(s, request)
    ensures var (s', reply) := Step(s, Fail(request));
      var th := s.threads[request];
      && reply == Failed && s'.threads == s.threads - {request} && th.trialId in s'.trials
      && s'.runRemaining == s.runRemaining && s'.runClosed == s.runClosed
      && var t, t' := s.trials[th.trialId], s'.trials[th.trialId];
         if request in t.active then
           && t'.revoked && !t'.withinBudget && t'.active == t.active - {request} && t'.remaining == t.remaining
           && t'.accounting.unreconciled == t.accounting.unreconciled + 1
           && t'.accounting.entries[..th.entry] == t.accounting.entries[..th.entry]
           && |t'.accounting.entries| == |t.accounting.entries|
           && t'.accounting.entries[th.entry].status == Unreconciled
         else s'.trials == s.trials
  {
    hide Bucket.Plus;
  }

  // ---- Registration ----

  predicate UntouchedButFor(s: Ledger, s': Ledger, id: string)
  {
    && (forall k :: k in s'.trials ==> k == id || k in s.trials)
    && (forall k :: k in s.trials && k != id ==> k in s'.trials && s'.trials[k] == s.trials[k])
    && s' == s.(trials := s'.trials)
  }

  /** A registration succeeds exactly for a new, well-formed id on the right route with a lifetime of at most 12000
      seconds and a deadline within it; the trial then starts with every quota full. Otherwise nothing changes. */
  lemma RegistrationAnswer(s: Ledger, e: Event)
    requires e.Register?
    ensures var (s', reply) := Step(s, e);
      && (reply == Registered <==>
            && 1 <= |e.trialId| <= 128 && e.trialId !in s.trials && e.protocol == s.config.protocol
            && e.ttl.Some? && 0.0 < e.ttl.value <= 12_000.0
            && e.deadline.Some? && e.received < e.deadline.value <= e.received + e.ttl.value)
      && (reply != Registered ==> s' == s && reply.Refused?)
      && (reply == Registered ==>
            && UntouchedButFor(s, s', e.trialId) && e.trialId in s'.trials
            && var t := s'.trials[e.trialId];
               && t.expiresAt == e.now + e.ttl.value && t.admissionDeadline == e.deadline.value
               && t.requestsRemaining == 128 && t.remaining == Bucket(1_000_000, 65_536, 250_000_000)
               && !t.revoked && t.active == {} && t.withinBudget && t.receipt == None && t.accounting.entries == [])
  {
  }

  // ---- Admission ----

  // The first half of `proxy`, before it looks at the trial.
  predicate Presentable(config: Config, e: Event)
    requires e.Admit?
  {
    && 1 <= |e.trialId| <= 128 && e.protocol == config.protocol
    && e.rawBytes <= 1_000_000 && |Utf8Encode(e.body)| <= 1_000_000
    && e.requestedOutput >= 1 && (config.strictOutputLimit ==> e.requestedOutput <= 8_192)
  }

  // What a request asks for: the estimate and 1024 tokens, at most 8192 tokens of output, and the price of the body's
  // bytes and 1024 tokens with that output.
  function Wanted(config: Config, e: Event): Bucket
    requires e.Admit?
  {
    var output := if e.requestedOutput <= 8_192 then e.requestedOutput else 8_192;
    Bucket(Estimate(e.body) + 1_024, output, TokenCost(|Utf8Encode(e.body)| + 1_024, output, config.pricing))
  }

  predicate Affords(remaining: Bucket, want: Bucket)
  {
    && want.inputTokens <= remaining.inputTokens
    && want.outputTokens <= remaining.outputTokens
    && want.costMicroCny <= remaining.costMicroCny
  }

  predicate TrialAdmits(t: Trial, e: Event, want: Bucket)
    requires e.Admit?
  {
    && e.admissionNow < t.admissionDeadline && !t.revoked && e.expiryNow < t.expiresAt
    && t.requestsRemaining > 0 && Affords(t.remaining, want) && t.active == {}
  }

  /** A request is admitted exactly when it is presentable, its trial is registered and admits it, and the open run can
      pay for it; it then takes the same amounts out of the trial and the run and into its thread and one pending entry. A
      trial that would have been admitted but for the run is revoked; every other refusal changes nothing. */
  lemma AdmissionAnswer(s: Ledger, e: Event)
    requires e.Admit?
    ensures var (s', reply) := Step(s, e);
      var (id, want) := (e.trialId, Wanted(s.config, e));
      var admits := Presentable(s.config, e) && id in s.trials && TrialAdmits(s.trials[id], e, want);
      var pays := !s.runClosed && want.costMicroCny <= s.runRemaining;
      && (reply.Admitted? <==> admits && pays)
      && (reply == Refused(RunCostQuota) <==> admits && !pays)
      && (reply.Refused? && reply != Refused(RunCostQuota) ==> s' == s)
      && (reply == Refused(RunCostQuota) ==>
            && UntouchedButFor(s, s', id) && id in s'.trials
            && s'.trials[id] == s.trials[id].(revoked := true, withinBudget := false))
      && (reply.Admitted? ==>
            && reply.request == s.created && s'.created == s.created + 1
            && s'.runRemaining == s.runRemaining - want.costMicroCny
            && s'.threads == s.threads[s.created := s'.threads[s.created]]
            && s'.threads[s.created].reservation == want && !s'.threads[s.created].settled
            && s'.threads[s.created].bodyBytes == |Utf8Encode(e.body)|
            && id in s'.trials
            && s'.trials[id].remaining == s.trials[id].remaining.Minus(want)
            && s'.trials[id].requestsRemaining == s.trials[id].requestsRemaining - 1)
  {
    hide TokenCost, Utf8Encode, Estimate;
  }

  datatype Check = Check(passes: bool, refusal: Refusal)

  // What a request must pass, in the order in which it is checked.
  function Checks(s: Ledger, e: Event): seq<Check>
    requires e.Admit?
  {
    var want, known := Wanted(s.config, e), e.trialId in s.trials;
    var t := if known then s.trials[e.trialId] else TOMBSTONE;
    [ Check(1 <= |e.trialId| <= 128, InvalidIdentity),
      Check(e.protocol == s.config.protocol, RouteMismatch),
      Check(e.rawBytes <= 1_000_000, BodyTooLarge),
      Check(e.requestedOutput >= 1 && (s.config.strictOutputLimit ==> e.requestedOutput <= 8_192), InvalidOutputLimit),
      Check(|Utf8Encode(e.body)| <= 1_000_000, BodyTooLarge),
      Check(known, NotRegistered),
      Check(e.admissionNow < t.admissionDeadline, AdmissionClosed),
      Check(!t.revoked, TrialRevoked),
      Check(e.expiryNow < t.expiresAt, TrialExpired),
      Check(t.requestsRemaining > 0, RequestQuota),
      Check(want.inputTokens <= t.remaining.inputTokens, InputQuota),
      Check(want.outputTokens <= t.remaining.outputTokens, OutputQuota),
      Check(want.costMicroCny <= t.remaining.costMicroCny, CostQuota),
      Check(t.active == {}, RequestInFlight),
      Check(!s.runClosed && want.costMicroCny <= s.runRemaining, RunCostQuota) ]
  }

  /** The first check that fails decides the refusal. */
  lemma FirstFailingCheckDecides(s: Ledger, e: Event, k: nat)
    requires e.Admit? && k < |Checks(s, e)|
    requires forall i :: 0 <= i < k ==> Checks(s, e)[i].passes
    requires !Checks(s, e)[k].passes
    ensures Step(s, e).1 == Refused(Checks(s, e)[k].refusal)
  {
    hide TokenCost, Utf8Encode, Estimate;
    var checks := Checks(s, e);
    assert
      && (k > 0 ==> checks[0].passes) && (k > 1 ==> checks[1].passes) && (k > 2 ==> checks[2].passes)
      && (k > 3 ==> checks[3].passes) && (k > 4 ==> checks[4].passes) && (k > 5 ==> checks[5].passes)
      && (k > 6 ==> checks[6].passes) && (k > 7 ==> checks[7].passes) && (k > 8 ==> checks[8].passes)
      && (k > 9 ==> checks[9].passes) && (k > 10 ==> checks[10].passes) && (k > 11 ==> checks[11].passes)
      && (k > 12 ==> checks[12].passes) && (k > 13 ==> checks[13].passes);
  }

  // ---- Revocation ----

  // The trial's active request, if any, still has its proxy call to end it.
  predicate Endable(s: Ledger, id: string)
  {
    id in s.trials ==> forall r :: r in s.trials[id].active ==> r in s.threads && s.threads[r].trialId == id
  }

  predicate HasReceipt(s: Ledger, id: string)
  {
    id in s.trials && s.trials[id].receipt.Some?
  }

  // Marking revokes a valid id whatever it was, and waits unless a receipt already exists.
  lemma MarkAnswer(s: Ledger, id: string)
    requires 1 <= |id| <= 128
    ensures var (s', reply) := Step(s, RevokeMark(id));
      && id in s'.trials && s'.trials[id].revoked
      && UntouchedButFor(s, s'.(revokers := s.revokers), id) && Endable(s, id) == Endable(s', id)
      && (if HasReceipt(s, id) then
            reply == Reply.Frozen(s.trials[id].receipt.value) && s'.trials[id].receipt == s.trials[id].receipt
          else reply == Waiting && id in s'.revokers && !HasReceipt(s', id))
      && (if id in s.trials then s'.trials[id].active == s.trials[id].active
          else s'.trials[id].active == {} && s'.trials[id].requestsRemaining == 0 && s'.trials[id].remaining == ZERO)
  {
  }

  lemma FreezeAnswer(s: Ledger, id: string)
    requires id in s.revokers && id in s.trials && s.trials[id].active == {}
    ensures var (s', reply) := Step(s, RevokeFreeze(id));
      HasReceipt(s', id) && reply == Reply.Frozen(s'.trials[id].receipt.value)
  {
    hide FrozenReceipt;
  }

  // Failing the active request empties the trial without disturbing the waiting revoke.
  lemma FailureFrees(s: Ledger, id: string, request: nat)
    requires ThreadRunning(s, request) && s.threads[request].trialId == id && s.trials[id].active == {request}
    ensures var (s', reply) := Step(s, Fail(request));
      reply == Failed && s'.revokers == s.revokers && id in s'.trials && s'.trials[id].active == {}
  {
    hide UnreconciledEntry, Bucket.Plus;
  }

  // A thread ends the request it was started for: no other trial has it active.
  predicate OwnActive(s: Ledger)
  {
    forall id, r :: id in s.trials && r in s.trials[id].active && r in s.threads ==> s.threads[r].trialId == id
  }

  lemma OwnActiveStep(s: Ledger, e: Event)
    requires TrialsInv(s) && OwnActive(s)
    ensures OwnActive(Step(s, e).0)
  {
    hide FrozenReceipt, StepAdmit, StepSettle, StepFail, RequestsOf, UsedBy, SettlementReply, TrialInv;
    if e.Settle? {
      SettleReach(s, e);
    } else if e.Fail? {
      FailReach(s, e);
    } else if e.Admit? {
      AdmitReach(s, e);
    }
  }

  lemma {:induction false} OwnActiveRun(s: Ledger, events: seq<Event>)
    requires LedgerInv(s) && OwnActive(s)
    ensures OwnActive(Run(s, events))
    decreases |events|
  {
    if events != [] {
      hide TrialsInv, ThreadsInv, RevokersInv, OwnActive, Step;
      OwnActiveStep(s, events[0]);
      StepKeeps(s, events[0]);
      OwnActiveRun(Step(s, events[0]).0, events[1..]);
    }
  }

  lemma RunSteps(s: Ledger, a: Event, b: Event, c: Event)
    ensures Run(s, [a, b]) == Step(Step(s, a).0, b).0
    ensures Run(s, [a, b, c]) == Step(Step(Step(s, a).0, b).0, c).0
  {
    hide Step;
    var s', s'' := Step(s, a).0, Step(Step(s, a).0, b).0;
    assert [a, b][1..] == [b] && [a, b, c][1..] == [b, c] && [b, c][1..] == [c];
    assert Run(s'', []) == s'' && Run(s'', [c]) == Run(Step(s'', c).0, []);
    assert Run(s', [b]) == Run(s'', []) && Run(s', [b, c]) == Run(s'', [c]);
  }

  lemma EndableFreezes(s: Ledger, id: string) returns (more: seq<Event>)
    requires LedgerInv(s) && 1 <= |id| <= 128 && Endable(s, id)
    ensures HasReceipt(Run(s, more), id)
  {
    if HasReceipt(s, id) {
      more := [];
    } else {
      var s' := Step(s, RevokeMark(id)).0;
      MarkAnswer(s, id);
      StepKeeps(s, RevokeMark(id));
      TrialFacts(s', id);
      if s'.trials[id].active == {} {
        hide LedgerInv, Step, TrialInv;
        more := [RevokeMark(id), RevokeFreeze(id)];
        FreezeAnswer(s', id);
        RunSteps(s, RevokeMark(id), RevokeFreeze(id), RevokeFreeze(id));
      } else {
        var r :| r in s'.trials[id].active;
        ThreadFacts(s', r);
        hide LedgerInv, Step, AccountingInv, Conserved, BudgetFlagInv, ReceiptInv;
        assert s'.trials[id].active == {r};
        hide TrialInv;
        more := [RevokeMark(id), Fail(r), RevokeFreeze(id)];
        FailureFrees(s', id, r);
        FreezeAnswer(Step(s', Fail(r)).0, id);
        RunSteps(s, RevokeMark(id), Fail(r), RevokeFreeze(id));
      }
    }
  }

  lemma UnendableIsOrphaned(s: Ledger, id: string) returns (request: nat)
    requires LedgerInv(s) && OwnActive(s) && !Endable(s, id)
    ensures Orphaned(s, id, request)
  {
    TrialFacts(s, id);
    hide AccountingInv, Conserved, BudgetFlagInv, FrozenReceipt, TrialsInv, ThreadsInv, RevokersInv;
    request :| request in s.trials[id].active && !(request in s.threads && s.threads[request].trialId == id);
  }

  /** From every reachable state, some continuation freezes a receipt for an id if and only if the id is a valid one and
      its active request, if it has any, still has the proxy call that ends it: an unconfirmed cancellation is the one
      thing that costs a trial its receipt. */
  lemma ReceiptStillPossibleExactly(config: Config, events: seq<Event>, id: string)
    ensures var s := Run(Init(config), events);
      (exists more: seq<Event> :: HasReceipt(Run(s, more), id)) <==> 1 <= |id| <= 128 && Endable(s, id)
  {
    var s := Run(Init(config), events);
    InitInv(config);
    RunKeeps(Init(config), events);
    OwnActiveRun(Init(config), events);
    hide LedgerInv, Run, OwnActive, Endable, Orphaned;
    if 1 <= |id| <= 128 && Endable(s, id) {
      var more := EndableFreezes(s, id);
    } else {
      forall more: seq<Event>
        ensures !HasReceipt(Run(s, more), id)
      {
        NeverFreezes(s, id, more);
      }
    }
  }

  lemma NeverFreezes(s: Ledger, id: string, more: seq<Event>)
    requires LedgerInv(s) && OwnActive(s) && !(1 <= |id| <= 128 && Endable(s, id))
    ensures !HasReceipt(Run(s, more), id)
  {
    hide TrialInv, ThreadsInv, RevokersInv, Endable, OwnActive, Run;
    RunKeeps(s, more);
    if 1 <= |id| <= 128 {
      var request := UnendableIsOrphaned(s, id);
      OrphanedRun(s, more, id, request);
    }
  }
}
