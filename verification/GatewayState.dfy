/** `GatewayState` itself: the fields the supervisor updates in place, one method for every critical section, each
    proved to be the corresponding step of the ledger (gateway_supervisor.py). */
module GatewayState {
  import opened Options
  import opened Accounting
  import opened Receipt
  import opened Estimator
  import opened GatewayLedger

  class GatewayState {
    const config: Config
    var trials: map<string, Trial>
    var runCostRemaining: int
    var runBudgetClosed: bool
    var created: nat  // upstream requests constructed so far; each is its own identity
    ghost var threads: map<nat, Thread>  // the local variables of proxy calls that have not returned
    ghost var revokers: multiset<string>  // revoke calls that have released the lock to cancel and wait

    ghost function View(): Ledger
      reads this
    {
      Ledger(config, trials, runCostRemaining, runBudgetClosed, threads, revokers, created)
    }

    constructor (config: Config)
      ensures View() == Init(config)
    {
      this.config := config;
      trials, runCostRemaining, runBudgetClosed, created := map[], config.maxRunCost, false, 0;
      threads, revokers := map[], multiset{};
    }

    method Register(trialId: string, protocol: string, ttl: Option<real>, deadline: Option<real>,
                    received: real, now: real) returns (reply: Reply)
      modifies this
      ensures (View(), reply) == Step(old(View()), Event.Register(trialId, protocol, ttl, deadline, received, now))
    {
      if |trialId| == 0 || |trialId| > 128 {
        return Refused(InvalidIdentity);
      }
      if protocol != config.protocol || ttl == None || ttl.value <= 0.0 || ttl.value > MAX_TRIAL_TTL_SEC ||
         deadline == None || deadline.value <= received || deadline.value > received + ttl.value {
        return Refused(RouteMismatch);
      }
      if trialId in trials {
        return Refused(AlreadyRegistered);
      }
      trials := trials[trialId := NewTrial(now + ttl.value, deadline.value, MAX_REQUESTS, QUOTA, false)];
      return Registered;
    }

    // The checks of `proxy` before it takes the lock.
    method PrepareRequest(trialId: string, protocol: string, rawBytes: nat, body: seq<CodePoint>,
                          requestedOutput: int) returns (refused: Option<Refusal>, want: Bucket)
      ensures forall a: real, x: real ::
        refused == RequestRefusal(config, Event.Admit(trialId, protocol, rawBytes, body, requestedOutput, a, x))
      ensures refused == None ==> want == ReservationOf(config.pricing, body, OutputLimit(requestedOutput))
    {
      want := ZERO;
      if |trialId| == 0 || |trialId| > 128 {
        return Some(InvalidIdentity), want;
      }
      if protocol != config.protocol {
        return Some(RouteMismatch), want;
      }
      if rawBytes > MAX_REQUEST_BODY_BYTES {
        return Some(BodyTooLarge), want;
      }
      if requestedOutput < 1 || (config.strictOutputLimit && requestedOutput > MAX_REQUEST_OUTPUT_TOKENS) {
        return Some(InvalidOutputLimit), want;
      }
      var bytes := |Utf8Encode(body)|;
      if bytes > MAX_REQUEST_BODY_BYTES {
        return Some(BodyTooLarge), want;
      }
      var outputLimit := if requestedOutput > MAX_REQUEST_OUTPUT_TOKENS then MAX_REQUEST_OUTPUT_TOKENS
                         else requestedOutput;
      var estimated := EstimateRequestInputTokens(body);
      want := Bucket(estimated + INPUT_RESERVATION_MARGIN_TOKENS, outputLimit,
                     TokenCost(bytes + INPUT_RESERVATION_MARGIN_TOKENS, outputLimit, config.pricing));
      refused := None;
    }

    method Admit(trialId: string, protocol: string, rawBytes: nat, body: seq<CodePoint>, requestedOutput: int,
                 admissionNow: real, expiryNow: real) returns (reply: Reply)
      modifies this
      ensures (View(), reply) == Step(old(View()), Event.Admit(trialId, protocol, rawBytes, body, requestedOutput,
                                                               admissionNow, expiryNow))
    {
      hide TokenCost, Estimate, Utf8Encode, RequestRefusal, ReservationOf;
      var refused, want := PrepareRequest(trialId, protocol, rawBytes, body, requestedOutput);
      if refused.Some? {
        return Refused(refused.value);
      }
      if trialId !in trials {
        return Refused(NotRegistered);
      }
      var trial := trials[trialId];
      if admissionNow >= trial.admissionDeadline {
        return Refused(AdmissionClosed);
      }
      var inputReservation := if trial.remaining.inputTokens < want.inputTokens then trial.remaining.inputTokens
                              else want.inputTokens;
      if trial.revoked {
        return Refused(TrialRevoked);
      }
      if expiryNow >= trial.expiresAt {
        return Refused(TrialExpired);
      }
      if trial.requestsRemaining <= 0 {
        return Refused(RequestQuota);
      }
      if inputReservation < want.inputTokens {
        return Refused(InputQuota);
      }
      if trial.remaining.outputTokens < want.outputTokens {
        return Refused(OutputQuota);
      }
      if trial.remaining.costMicroCny < want.costMicroCny {
        return Refused(CostQuota);
      }
      if trial.active != {} {
        return Refused(RequestInFlight);
      }
      if runBudgetClosed || runCostRemaining < want.costMicroCny {
        trials := trials[trialId := trial.(revoked := true, withinBudget := false)];
        return Refused(RunCostQuota);
      }
      var request := created;
      created := created + 1;
      trial := trial.(requestsRemaining := trial.requestsRemaining - 1);
      trial := trial.(remaining := trial.remaining.Minus(want));
      runCostRemaining := runCostRemaining - want.costMicroCny;
      trial := trial.(active := trial.active + {request});
      var accounting := trial.accounting;
      accounting := accounting.(attempted := accounting.attempted + 1);
      accounting := accounting.(entries := accounting.entries + [PendingEntry(accounting.attempted, want)]);
      accounting := accounting.(totals := accounting.totals.(reservation := accounting.totals.reservation.Plus(want)));
      threads := threads[request := Thread(trialId, |trial.accounting.entries|, |Utf8Encode(body)|, want, false)];
      trials := trials[trialId := trial.(accounting := accounting)];
      return Admitted(request);
    }

    // `thread` is the call's own local state; `entry` is its reference to the entry it appended.
    method Settle(request: nat, thread: Thread, inputTokens: nat, outputTokens: nat) returns (reply: Reply)
      requires ThreadRunning(View(), request) && threads[request] == thread && !thread.settled
      modifies this
      ensures (View(), reply) == Step(old(View()), Event.Settle(request, inputTokens, outputTokens))
    {
      hide TokenCost;
      var trial, reserved := trials[thread.trialId], thread.reservation;
      var used := Bucket(inputTokens, outputTokens, TokenCost(inputTokens, outputTokens, config.pricing));
      trial := trial.(remaining := trial.remaining.Plus(reserved.Minus(used)));
      runCostRemaining := runCostRemaining + reserved.costMicroCny - used.costMicroCny;
      var accounting := trial.accounting;
      accounting := accounting.(reconciled := accounting.reconciled + 1);
      var entry := accounting.entries[thread.entry];
      entry := entry.(status := Reconciled);
      entry := entry.(buckets := entry.buckets.(actual := used));
      entry := entry.(buckets := entry.buckets.(refund := entry.buckets.reservation.Beyond(used)));
      entry := entry.(buckets := entry.buckets.(supplement := used.Beyond(entry.buckets.reservation)));
      accounting := accounting.(entries := accounting.entries[thread.entry := entry]);
      var totals := accounting.totals;
      totals := totals.(actual := totals.actual.Plus(used));
      totals := totals.(refund := totals.refund.Plus(reserved.Beyond(used)));
      totals := totals.(supplement := totals.supplement.Plus(used.Beyond(reserved)));
      trial := trial.(accounting := accounting.(totals := totals));
      var overrun := runCostRemaining < 0;
      if overrun {
        runBudgetClosed := true;
      }
      var overQuota := inputTokens > MAX_INPUT_TOKENS || outputTokens > reserved.outputTokens ||
                       trial.remaining.inputTokens < 0 || trial.remaining.outputTokens < 0 ||
                       trial.remaining.costMicroCny < 0 || overrun;
      if overQuota {
        trial := trial.(revoked := true, withinBudget := false);
      }
      trial := trial.(active := trial.active - {request});
      trials := trials[thread.trialId := trial];
      if overQuota {
        threads := threads[request := thread.(settled := true)];
        return UsageExceedsQuota;
      }
      if trial.revoked {
        threads := threads[request := thread.(settled := true)];
        return RevokedDuringRequest;
      }
      threads := threads - {request};
      return Responded;
    }

    // The except handler of `proxy`; `cancelled` tells whether cancelling the upstream request was confirmed.
    method Fail(request: nat, thread: Thread, cancelled: bool) returns (reply: Reply)
      requires ThreadRunning(View(), request) && threads[request] == thread
      modifies this
      ensures (View(), reply) ==
              Step(old(View()), if cancelled then Event.Fail(request) else Event.FailUnconfirmed(request))
    {
      threads := threads - {request};
      if !cancelled {
        return Unconfirmed;
      }
      var trial := trials[thread.trialId];
      if request in trial.active {
        var accounting := trial.accounting;
        accounting := accounting.(unreconciled := accounting.unreconciled + 1);
        var entry := accounting.entries[thread.entry].(status := Unreconciled);
        entry := entry.(buckets := entry.buckets.(unreconciledReservation := entry.buckets.reservation));
        accounting := accounting.(entries := accounting.entries[thread.entry := entry]);
        var totals := accounting.totals;
        totals := totals.(unreconciledReservation := totals.unreconciledReservation.Plus(thread.reservation));
        trial := trial.(accounting := accounting.(totals := totals));
        trial := trial.(revoked := true, withinBudget := false);
        trial := trial.(active := trial.active - {request});
        trials := trials[thread.trialId := trial];
      }
      return Failed;
    }

    // The first critical section of `revoke`.
    method RevokeMark(trialId: string) returns (reply: Reply)
      modifies this
      ensures (View(), reply) == Step(old(View()), Event.RevokeMark(trialId))
    {
      if |trialId| == 0 || |trialId| > 128 {
        return Refused(InvalidIdentity);
      }
      if trialId !in trials {
        trials := trials[trialId := NewTrial(0.0, 0.0, 0, ZERO, true)];
      }
      trials := trials[trialId := trials[trialId].(revoked := true)];
      var trial := trials[trialId];
      assert trials == old(trials)[trialId := trial];
      if trial.receipt.Some? {
        return Reply.Frozen(trial.receipt.value);
      }
      revokers := revokers + multiset{trialId};
      return Waiting;
    }

    // The second critical section of `revoke`, once the condition variable reports nothing active or the deadline
    // has passed.
    method RevokeFinish(trialId: string, expired: bool) returns (reply: Reply)
      requires trialId in revokers && trialId in trials
      requires !expired ==> trials[trialId].active == {}
      modifies this
      ensures (View(), reply) ==
              Step(old(View()), if expired then Event.RevokeAbandon(trialId) else Event.RevokeFreeze(trialId))
    {
      revokers := revokers - multiset{trialId};
      if expired {
        return Abandoned;
      }
      var trial := trials[trialId];
      var receipt := Freeze(Identity(config.runId, trialId, config.protocol, config.pricing), config.modelRouteId,
                            trial.accounting, trial.withinBudget);
      trials := trials[trialId := trial.(receipt := Some(receipt))];
      return Reply.Frozen(receipt);
    }
  }
}
