/** The gateway's reserve-and-settle ledger (gateway_supervisor.py, `GatewayState`): one run budget, many trials,
    and proxy and revoke threads that release the lock while they call upstream. Every step below is one critical
    section; a run is any sequence of them. */
module GatewayLedger {
  import opened Options
  import opened Accounting
  import opened Receipt
  import opened Estimator

  const MAX_REQUEST_BODY_BYTES := 1_000_000
  const MAX_TRIAL_TTL_SEC := 12_000.0
  const MAX_REQUESTS := 128
  const MAX_INPUT_TOKENS := 1_000_000
  const MAX_OUTPUT_TOKENS := 65_536
  const MAX_REQUEST_OUTPUT_TOKENS := 8_192
  const MAX_COST_MICRO_CNY := 250_000_000
  const INPUT_RESERVATION_MARGIN_TOKENS := 1_024

  const QUOTA := Bucket(MAX_INPUT_TOKENS, MAX_OUTPUT_TOKENS, MAX_COST_MICRO_CNY)

  datatype Config = Config(runId: string, protocol: string, modelRouteId: string, pricing: Pricing,
                           maxRunCost: nat, strictOutputLimit: bool)

  datatype Trial = Trial(expiresAt: real, admissionDeadline: real, requestsRemaining: int, remaining: Bucket,
                         revoked: bool, active: set<nat>, accounting: Accounting, withinBudget: bool,
                         receipt: Option<Receipt>)

  // A proxy thread between admission and its return: its local variables, and whether it has already settled.
  datatype Thread = Thread(trialId: string, entry: nat, bodyBytes: nat, reservation: Bucket, settled: bool)

  // `revokers` holds the trial of every revoke call that has marked it and is still waiting to freeze.
  datatype Ledger = Ledger(config: Config, trials: map<string, Trial>, runRemaining: int, runClosed: bool,
                           threads: map<nat, Thread>, revokers: multiset<string>, created: nat)

  datatype Event =
    | Register(trialId: string, protocol: string, ttl: Option<real>, deadline: Option<real>, received: real, now: real)
    | Admit(trialId: string, protocol: string, rawBytes: nat, body: seq<CodePoint>, requestedOutput: int,
            admissionNow: real, expiryNow: real)
    | Settle(request: nat, inputTokens: nat, outputTokens: nat)
    | Fail(request: nat)
    | FailUnconfirmed(request: nat)
    | RevokeMark(trialId: string)
    | RevokeFreeze(trialId: string)
    | RevokeAbandon(trialId: string)

  datatype Refusal =
    | InvalidIdentity | RouteMismatch | AlreadyRegistered | BodyTooLarge | InvalidOutputLimit | NotRegistered
    | AdmissionClosed | TrialRevoked | TrialExpired | RequestQuota | InputQuota | OutputQuota | CostQuota
    | RequestInFlight | RunCostQuota

  datatype Reply =
    | Registered
    | Refused(why: Refusal)
    | Admitted(request: nat)
    | Responded | UsageExceedsQuota | RevokedDuringRequest
    | Failed | Unconfirmed
    | Waiting | Frozen(receipt: Receipt) | Abandoned
    | Disabled

  function Init(config: Config): Ledger
  {
    Ledger(config, map[], config.maxRunCost, false, map[], multiset{}, 0)
  }

  predicate ValidTrialId(id: string)
  {
    0 < |id| <= 128
  }

  function NewTrial(expiresAt: real, deadline: real, requests: int, quota: Bucket, revoked: bool): Trial
  {
    Trial(expiresAt, deadline, requests, quota, revoked, {}, NEW_ACCOUNTING, true, None)
  }

  const TOMBSTONE := NewTrial(0.0, 0.0, 0, ZERO, true)

  function IdentityOf(config: Config, id: string): Identity
  {
    Identity(config.runId, id, config.protocol, config.pricing)
  }

  function FrozenReceipt(config: Config, id: string, t: Trial): Receipt
  {
    Freeze(IdentityOf(config, id), config.modelRouteId, t.accounting, t.withinBudget)
  }

  // ---- Registration ----

  predicate RegistrationWellFormed(config: Config, protocol: string, ttl: Option<real>, deadline: Option<real>,
                                   received: real)
  {
    && protocol == config.protocol
    && ttl.Some? && 0.0 < ttl.value <= MAX_TRIAL_TTL_SEC
    && deadline.Some? && received < deadline.value <= received + ttl.value
  }

  function StepRegister(s: Ledger, e: Event): (Ledger, Reply)
    requires e.Register?
  {
    if !ValidTrialId(e.trialId) then (s, Refused(InvalidIdentity))
    else if !RegistrationWellFormed(s.config, e.protocol, e.ttl, e.deadline, e.received) then
      (s, Refused(RouteMismatch))
    else if e.trialId in s.trials then (s, Refused(AlreadyRegistered))
    else
      var t := NewTrial(e.now + e.ttl.value, e.deadline.value, MAX_REQUESTS, QUOTA, false);
      (s.(trials := s.trials[e.trialId := t]), Registered)
  }

  // ---- Admission ----

  function OutputLimit(requested: int): int
  {
    if requested <= MAX_REQUEST_OUTPUT_TOKENS then requested else MAX_REQUEST_OUTPUT_TOKENS
  }

  predicate OutputLimitAllowed(config: Config, requested: int)
  {
    requested >= 1 && (config.strictOutputLimit ==> requested <= MAX_REQUEST_OUTPUT_TOKENS)
  }

  // Tokens are reserved from the estimate, money from the transport size.
  function ReservationOf(pricing: Pricing, body: seq<CodePoint>, outputLimit: int): Bucket
  {
    Bucket(Estimate(body) + INPUT_RESERVATION_MARGIN_TOKENS, outputLimit,
           TokenCost(|Utf8Encode(body)| + INPUT_RESERVATION_MARGIN_TOKENS, outputLimit, pricing))
  }

  function RequestRefusal(config: Config, e: Event): Option<Refusal>
    requires e.Admit?
  {
    if !ValidTrialId(e.trialId) then Some(InvalidIdentity)
    else if e.protocol != config.protocol then Some(RouteMismatch)
    else if e.rawBytes > MAX_REQUEST_BODY_BYTES then Some(BodyTooLarge)
    else if !OutputLimitAllowed(config, e.requestedOutput) then Some(InvalidOutputLimit)
    else if |Utf8Encode(e.body)| > MAX_REQUEST_BODY_BYTES then Some(BodyTooLarge)
    else None
  }

  function TrialRefusal(t: Trial, e: Event, want: Bucket): Option<Refusal>
    requires e.Admit?
  {
    if e.admissionNow >= t.admissionDeadline then Some(AdmissionClosed)
    else if t.revoked then Some(TrialRevoked)
    else if e.expiryNow >= t.expiresAt then Some(TrialExpired)
    else if t.requestsRemaining <= 0 then Some(RequestQuota)
    else if t.remaining.inputTokens < want.inputTokens then Some(InputQuota)
    else if t.remaining.outputTokens < want.outputTokens then Some(OutputQuota)
    else if t.remaining.costMicroCny < want.costMicroCny then Some(CostQuota)
    else if t.active != {} then Some(RequestInFlight)
    else None
  }

  function PendingEntry(sequence: int, reservation: Bucket): Entry
  {
    Entry(sequence, Pending, NO_TOTALS.(reservation := reservation))
  }

  function AdmittedTrial(t: Trial, request: nat, want: Bucket): Trial
  {
    var a := t.accounting;
    t.(requestsRemaining := t.requestsRemaining - 1,
       remaining := t.remaining.Minus(want),
       active := t.active + {request},
       accounting := a.(attempted := a.attempted + 1,
                        entries := a.entries + [PendingEntry(a.attempted + 1, want)],
                        totals := a.totals.(reservation := a.totals.reservation.Plus(want))))
  }

  function StepAdmit(s: Ledger, e: Event): (Ledger, Reply)
    requires e.Admit?
  {
    var refused := RequestRefusal(s.config, e);
    if refused.Some? then (s, Refused(refused.value))
    else if e.trialId !in s.trials then (s, Refused(NotRegistered))
    else
      var t := s.trials[e.trialId];
      var want := ReservationOf(s.config.pricing, e.body, OutputLimit(e.requestedOutput));
      var denied := TrialRefusal(t, e, want);
      if denied.Some? then (s, Refused(denied.value))
      else if s.runClosed || s.runRemaining < want.costMicroCny then
        (s.(trials := s.trials[e.trialId := t.(revoked := true, withinBudget := false)]), Refused(RunCostQuota))
      else
        (s.(trials := s.trials[e.trialId := AdmittedTrial(t, s.created, want)],
            runRemaining := s.runRemaining - want.costMicroCny,
            threads := s.threads[s.created := Thread(e.trialId, |t.accounting.entries|, |Utf8Encode(e.body)|, want, false)],
            created := s.created + 1),
         Admitted(s.created))
  }

  // ---- Settlement ----

  function ReconciledEntry(e: Entry, used: Bucket): Entry
  {
    e.(status := Reconciled,
       buckets := e.buckets.(actual := used,
                             refund := e.buckets.reservation.Beyond(used),
                             supplement := used.Beyond(e.buckets.reservation)))
  }

  function SettledTrial(t: Trial, request: nat, entry: nat, reservation: Bucket, used: Bucket): Trial
    requires entry < |t.accounting.entries|
  {
    var a := t.accounting;
    t.(remaining := t.remaining.Plus(reservation.Minus(used)),
       active := t.active - {request},
       accounting := a.(reconciled := a.reconciled + 1,
                        entries := a.entries[entry := ReconciledEntry(a.entries[entry], used)],
                        totals := a.totals.(actual := a.totals.actual.Plus(used),
                                            refund := a.totals.refund.Plus(reservation.Beyond(used)),
                                            supplement := a.totals.supplement.Plus(used.Beyond(reservation)))))
  }

  predicate OverQuota(settled: Trial, reservation: Bucket, used: Bucket, runRemaining: int)
  {
    || used.inputTokens > MAX_INPUT_TOKENS
    || used.outputTokens > reservation.outputTokens
    || !settled.remaining.Nonnegative()
    || runRemaining < 0
  }

  predicate ThreadRunning(s: Ledger, request: nat)
  {
    && request in s.threads
    && s.threads[request].trialId in s.trials
    && s.threads[request].entry < |s.trials[s.threads[request].trialId].accounting.entries|
  }

  function Usage(pricing: Pricing, inputTokens: nat, outputTokens: nat): Bucket
  {
    Bucket(inputTokens, outputTokens, TokenCost(inputTokens, outputTokens, pricing))
  }

  function StepSettle(s: Ledger, e: Event): (Ledger, Reply)
    requires e.Settle?
  {
    if !ThreadRunning(s, e.request) || s.threads[e.request].settled then (s, Disabled)
    else
      var th := s.threads[e.request];
      var used := Usage(s.config.pricing, e.inputTokens, e.outputTokens);
      var t := SettledTrial(s.trials[th.trialId], e.request, th.entry, th.reservation, used);
      var runRemaining := s.runRemaining + th.reservation.costMicroCny - used.costMicroCny;
      var over := OverQuota(t, th.reservation, used, runRemaining);
      var t' := if over then t.(revoked := true, withinBudget := false) else t;
      var s' := s.(trials := s.trials[th.trialId := t'],
                   runRemaining := runRemaining,
                   runClosed := s.runClosed || runRemaining < 0);
      if over then (s'.(threads := s.threads[e.request := th.(settled := true)]), UsageExceedsQuota)
      else if t'.revoked then (s'.(threads := s.threads[e.request := th.(settled := true)]), RevokedDuringRequest)
      else (s'.(threads := s.threads - {e.request}), Responded)
  }

  function UnreconciledEntry(e: Entry): Entry
  {
    e.(status := Unreconciled, buckets := e.buckets.(unreconciledReservation := e.buckets.reservation))
  }

  function FailedTrial(t: Trial, request: nat, entry: nat, reservation: Bucket): Trial
    requires entry < |t.accounting.entries|
  {
    var a := t.accounting;
    t.(revoked := true,
       withinBudget := false,
       active := t.active - {request},
       accounting := a.(unreconciled := a.unreconciled + 1,
                        entries := a.entries[entry := UnreconciledEntry(a.entries[entry])],
                        totals := a.totals.(unreconciledReservation :=
                                              a.totals.unreconciledReservation.Plus(reservation))))
  }

  // The except handler after a confirmed cancel; a thread that already settled finds itself inactive.
  function StepFail(s: Ledger, e: Event): (Ledger, Reply)
    requires e.Fail?
  {
    if !ThreadRunning(s, e.request) then (s, Disabled)
    else
      var th := s.threads[e.request];
      var t := s.trials[th.trialId];
      var s' := s.(threads := s.threads - {e.request});
      if e.request in t.active then
        (s'.(trials := s.trials[th.trialId := FailedTrial(t, e.request, th.entry, th.reservation)]), Failed)
      else (s', Failed)
  }

  // The except handler when the cancel itself raises: the thread is gone and the ledger never hears of it.
  function StepFailUnconfirmed(s: Ledger, e: Event): (Ledger, Reply)
    requires e.FailUnconfirmed?
  {
    if !ThreadRunning(s, e.request) then (s, Disabled)
    else (s.(threads := s.threads - {e.request}), Unconfirmed)
  }

  // ---- Revocation ----

  function StepRevokeMark(s: Ledger, e: Event): (Ledger, Reply)
    requires e.RevokeMark?
  {
    if !ValidTrialId(e.trialId) then (s, Refused(InvalidIdentity))
    else
      var t := (if e.trialId in s.trials then s.trials[e.trialId] else TOMBSTONE).(revoked := true);
      var s' := s.(trials := s.trials[e.trialId := t]);
      if t.receipt.Some? then (s', Frozen(t.receipt.value))
      else (s'.(revokers := s.revokers + multiset{e.trialId}), Waiting)
  }

  function StepRevokeFreeze(s: Ledger, e: Event): (Ledger, Reply)
    requires e.RevokeFreeze?
  {
    if e.trialId !in s.revokers || e.trialId !in s.trials || s.trials[e.trialId].active != {} then (s, Disabled)
    else
      var t := s.trials[e.trialId];
      var receipt := FrozenReceipt(s.config, e.trialId, t);
      (s.(trials := s.trials[e.trialId := t.(receipt := Some(receipt))],
          revokers := s.revokers - multiset{e.trialId}),
       Frozen(receipt))
  }

  // The deadline passed with a request still active, or cancelling that request raised.
  function StepRevokeAbandon(s: Ledger, e: Event): (Ledger, Reply)
    requires e.RevokeAbandon?
  {
    if e.trialId !in s.revokers then (s, Disabled)
    else (s.(revokers := s.revokers - multiset{e.trialId}), Abandoned)
  }

  function Step(s: Ledger, e: Event): (Ledger, Reply)
  {
    match e
    case Register(_, _, _, _, _, _) => StepRegister(s, e)
    case Admit(_, _, _, _, _, _, _) => StepAdmit(s, e)
    case Settle(_, _, _) => StepSettle(s, e)
    case Fail(_) => StepFail(s, e)
    case FailUnconfirmed(_) => StepFailUnconfirmed(s, e)
    case RevokeMark(_) => StepRevokeMark(s, e)
    case RevokeFreeze(_) => StepRevokeFreeze(s, e)
    case RevokeAbandon(_) => StepRevokeAbandon(s, e)
  }

  function Run(s: Ledger, events: seq<Event>): Ledger
    decreases |events|
  {
    if events == [] then s else Run(Step(s, events[0]).0, events[1..])
  }

  function ReplyAt(s: Ledger, events: seq<Event>, i: nat): Reply
    requires i < |events|
    decreases i
  {
    if i == 0 then Step(s, events[0]).1 else ReplyAt(Step(s, events[0]).0, events[1..], i - 1)
  }
}
