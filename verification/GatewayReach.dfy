/** How far one critical section of the gateway ledger reaches: what admitting, settling and failing a request can
    change, told without the amounts (gateway_supervisor.py). */
module GatewayReach {
  import opened Options
  import opened Accounting
  import opened Receipt
  import opened GatewayLedger

  // Requests attempted and requests left.
  function RequestsOf(t: Trial): int
  {
    t.requestsRemaining + t.accounting.attempted
  }

  function UsedBy(t: Trial): Bucket
  {
    t.accounting.totals.actual
  }

  predicate SettlementReply(reply: Reply)
  {
    reply.Responded? || reply.UsageExceedsQuota? || reply.RevokedDuringRequest?
  }

  // Ending a request leaves every other trial alone, and of its own trial the receipt; it can only take the request
  // out of the active set and revoke the trial.
  predicate EndsRequest(s: Ledger, s': Ledger, request: nat)
    requires request in s.threads
  {
    var id := s.threads[request].trialId;
    && s'.created == s.created && s'.revokers == s.revokers && s'.config == s.config
    && (s.runClosed ==> s'.runClosed)
    && s'.trials.Keys == s.trials.Keys
    && (forall k :: k in s.trials && k != id ==> s'.trials[k] == s.trials[k])
    && (id in s.trials ==>
          && s'.trials[id].active == s.trials[id].active - {request}
          && s'.trials[id].receipt == s.trials[id].receipt
          && (s.trials[id].revoked ==> s'.trials[id].revoked)
          && RequestsOf(s'.trials[id]) == RequestsOf(s.trials[id]))
    && (forall q :: q in s'.threads ==>
          q in s.threads && s'.threads[q].trialId == s.threads[q].trialId
          && (s.threads[q].settled ==> s'.threads[q].settled))
  }

  lemma SettleReach(s: Ledger, e: Event)
    requires e.Settle?
    ensures var (s', reply) := StepSettle(s, e);
      && (reply == Disabled ==> s' == s)
      && (reply != Disabled ==>
            SettlementReply(reply) && e.request in s.threads && !s.threads[e.request].settled
            && EndsRequest(s, s', e.request) && (e.request in s'.threads ==> s'.threads[e.request].settled))
  {
    hide TokenCost, OverQuota, Usage, ReconciledEntry;
  }

  predicate ActiveInItsTrial(s: Ledger, request: nat)
    requires request in s.threads
  {
    s.threads[request].trialId in s.trials && request in s.trials[s.threads[request].trialId].active
  }

  lemma FailReach(s: Ledger, e: Event)
    requires e.Fail?
    ensures var (s', reply) := StepFail(s, e);
      && (reply == Disabled ==> s' == s)
      && (reply != Disabled ==>
            reply == Failed && e.request in s.threads && EndsRequest(s, s', e.request) && e.request !in s'.threads
            && (!ActiveInItsTrial(s, e.request) ==> s'.trials == s.trials)
            && (forall k :: k in s.trials ==> UsedBy(s'.trials[k]) == UsedBy(s.trials[k])))
  {
    hide UnreconciledEntry;
  }

  // What an admission leaves of the trial: the new request is all that is active.
  predicate AdmitsInto(t: Trial, t': Trial, request: nat)
  {
    && !t.revoked && t.active == {} && t'.active == {request} && t'.receipt == t.receipt
    && RequestsOf(t') == RequestsOf(t) && UsedBy(t') == UsedBy(t)
  }

  lemma AdmitReach(s: Ledger, e: Event)
    requires e.Admit?
    ensures var (s', reply) := StepAdmit(s, e);
      match reply
      case Refused(_) =>
        || s' == s
        || (e.trialId in s.trials && !s.trials[e.trialId].revoked && s.trials[e.trialId].active == {}
            && s' == s.(trials := s.trials[e.trialId := s.trials[e.trialId].(revoked := true, withinBudget := false)]))
      case Admitted(request) =>
        && request == s.created && e.trialId in s.trials && !s.runClosed
        && e.trialId in s'.trials && request in s'.threads
        && s' == s.(trials := s.trials[e.trialId := s'.trials[e.trialId]], runRemaining := s'.runRemaining,
                    threads := s.threads[request := s'.threads[request]], created := s.created + 1)
        && s'.threads[request].trialId == e.trialId
        && AdmitsInto(s.trials[e.trialId], s'.trials[e.trialId], request)
      case _ => false
  {
    hide ReservationOf, RequestRefusal, Bucket.Plus, Bucket.Minus;
  }
}
