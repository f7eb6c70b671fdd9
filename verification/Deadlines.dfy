/** Nested time budgets of one Terminal-Bench agent run (pico_agent.py, runtime_limits.py): the retry loop inside the
    headless deadline inside the cleanup deadline inside the benchmark's own timeout, and the cutoff for provider requests,
    which is handed to a supervisor that reads another clock. Seconds are reals, milliseconds are integers. */
module Deadlines {
  import opened Options
  import opened GatewayLedger
  import opened GatewayInvariant

  const MIN_RUNTIME_RETRY_EXECUTION_MS := 30_000
  const HEADLESS_ADAPTER_MARGIN_MS := 5_000
  const VERIFIER_SERVICE_MARGIN_MS := 15_000
  const UPSTREAM_HTTP_TIMEOUT_SEC := 300
  const UPSTREAM_WORKER_TIMEOUT_SEC := UPSTREAM_HTTP_TIMEOUT_SEC + 10
  const PROXY_SUPERVISOR_TIMEOUT_SEC := UPSTREAM_WORKER_TIMEOUT_SEC + 10
  const PROVIDER_TIMEOUT_MS := PROXY_SUPERVISOR_TIMEOUT_SEC * 1_000 + 10_000
  const ADMISSION_JITTER_SEC := 2
  const ADMISSION_LEAD_SEC := Sec(PROVIDER_TIMEOUT_MS) + ADMISSION_JITTER_SEC as real
  const DISPATCH_MARGIN_MS := 1_000

  datatype Margins = Margins(shutdownGraceMs: nat, resultFlushMs: nat, adapterCleanupMs: nat)

  function Sec(ms: int): real
  {
    ms as real / 1000.0
  }

  // Python's int() on a float truncates towards zero.
  function Truncate(x: real): int
  {
    if x >= 0.0 then x.Floor else -((-x).Floor)
  }

  function RemainingBudget(deadline: real, now: real): Option<real>
  {
    if deadline - now <= 0.0 then None else Some(deadline - now)
  }

  function HeadlessDeadline(outer: real, m: Margins): real
  {
    outer - Sec(m.adapterCleanupMs) - Sec(VERIFIER_SERVICE_MARGIN_MS)
  }

  datatype RunDeadlines = RunDeadlines(headless: real, cleanup: real)

  function ReserveAgentRunDeadlines(outer: real, now: real, m: Margins): Option<RunDeadlines>
  {
    var cleanup := outer - Sec(m.adapterCleanupMs);
    var headless := cleanup - Sec(VERIFIER_SERVICE_MARGIN_MS);
    assert headless == HeadlessDeadline(outer, m);
    if headless <= now then None else Some(RunDeadlines(headless, cleanup))
  }

  function HeadlessExecutionTimeoutMs(remaining: real, m: Margins): Option<int>
  {
    var timeout := Truncate(remaining * 1000.0 - m.shutdownGraceMs as real - m.resultFlushMs as real
                            - HEADLESS_ADAPTER_MARGIN_MS as real - VERIFIER_SERVICE_MARGIN_MS as real
                            - m.adapterCleanupMs as real);
    if timeout < 1_000 then None else Some(timeout)
  }

  // What one headless attempt reported.
  datatype AttemptResult = AttemptResult(status: string, errorCode: Option<string>, terminationConfirmed: bool)

  predicate IsTerminalPolicyBlock(r: AttemptResult)
  {
    r.status == "policy_blocked" || r.errorCode == Some("POLICY_BLOCKED")
  }

  predicate RetryableFailure(r: AttemptResult)
  {
    r.status == "failed" && r.errorCode == Some("RUNTIME_FAILED") && r.terminationConfirmed && !IsTerminalPolicyBlock(r)
  }

  function RequiredRemainingMs(m: Margins): int
  {
    m.shutdownGraceMs + m.resultFlushMs + HEADLESS_ADAPTER_MARGIN_MS + VERIFIER_SERVICE_MARGIN_MS + m.adapterCleanupMs
    + MIN_RUNTIME_RETRY_EXECUTION_MS
  }

  predicate ShouldRetry(r: AttemptResult, retriesUsed: int, retryLimit: nat, remaining: real, m: Margins)
  {
    retriesUsed < retryLimit && RetryableFailure(r) && remaining * 1000.0 >= RequiredRemainingMs(m) as real
  }

  /** Deadlines are reserved exactly if more time is left than the verifier's fifteen seconds and the cleanup margin. */
  lemma DeadlinesReservedExactly(outer: real, now: real, m: Margins)
    ensures var d := ReserveAgentRunDeadlines(outer, now, m);
      && (d.Some? <==> outer - now > 15.0 + m.adapterCleanupMs as real / 1000.0)
      && (d.Some? ==> d.value.cleanup == outer - m.adapterCleanupMs as real / 1000.0
                      && d.value.headless == d.value.cleanup - 15.0)
  {
  }

  /** An attempt is made exactly if, after every margin, a whole second of execution is left; it may use all that is left,
      in whole milliseconds. */
  lemma TimeoutGrantedExactly(remaining: real, m: Margins)
    ensures var timeout := HeadlessExecutionTimeoutMs(remaining, m);
      var left := remaining * 1000.0 - (m.shutdownGraceMs + m.resultFlushMs + m.adapterCleanupMs + 20_000) as real;
      && (timeout.Some? <==> left >= 1000.0)
      && (timeout.Some? ==> timeout.value as real <= left < timeout.value as real + 1.0)
  {
  }

  /** A retry is granted exactly if one is left, the attempt failed in the runtime with its termination confirmed, and
      after every margin thirty seconds of execution are left. */
  lemma RetryGrantedExactly(r: AttemptResult, retriesUsed: int, retryLimit: nat, remaining: real, m: Margins)
    ensures ShouldRetry(r, retriesUsed, retryLimit, remaining, m) <==>
      && retriesUsed < retryLimit
      && r.status == "failed" && r.errorCode == Some("RUNTIME_FAILED") && r.terminationConfirmed
      && remaining * 1000.0 >= (m.shutdownGraceMs + m.resultFlushMs + m.adapterCleanupMs + 50_000) as real
  {
  }

  // ---- The retry loop ----

  // The world the loop runs in: when attempt `i` starts and ends on the loop's clock, and what it reports; an attempt
  // without a result raised.
  datatype World = World(start: nat -> real, end: nat -> real, result: nat -> Option<AttemptResult>)

  ghost predicate ClockMonotone(w: World)
  {
    forall i: nat :: w.start(i) <= w.end(i) <= w.start(i + 1)
  }

  datatype Attempt = Attempt(start: real, innerTimeoutMs: int)

  datatype Outcome = Finished(result: AttemptResult) | BudgetViolation | AttemptRaised

  // The latest moment the attempt's process can end, with the adapter's own margin on top.
  function EndOfAttempt(a: Attempt, m: Margins): real
  {
    a.start + Sec(a.innerTimeoutMs) + Sec(m.shutdownGraceMs) + Sec(m.resultFlushMs) + Sec(HEADLESS_ADAPTER_MARGIN_MS)
  }

  // The time left when a retry is decided: never negative.
  function TimeLeft(outer: real, now: real): real
  {
    if outer - now > 0.0 then outer - now else 0.0
  }

  lemma TimeoutFits(outer: real, now: real, m: Margins, timeout: int)
    requires HeadlessExecutionTimeoutMs(outer - now, m) == Some(timeout)
    ensures timeout >= 1_000
    ensures EndOfAttempt(Attempt(now, timeout), m) <= HeadlessDeadline(outer, m)
            < EndOfAttempt(Attempt(now, timeout), m) + 0.001
  {
  }

  // Attempt `i`, a repetition, follows a confirmed failure and has the minimum execution time, less the time that
  // passed between the decision to retry and its start.
  predicate EarnsRetry(w: World, i: nat, timeout: int)
    requires i >= 1
  {
    && w.result(i - 1).Some? && RetryableFailure(w.result(i - 1).value)
    && Sec(timeout) > Sec(MIN_RUNTIME_RETRY_EXECUTION_MS) - (w.start(i) - w.end(i - 1)) - 0.001
    && (w.start(i) == w.end(i - 1) ==> timeout >= MIN_RUNTIME_RETRY_EXECUTION_MS)
  }

  lemma RetryLeavesTime(w: World, i: nat, outer: real, m: Margins, limit: nat, timeout: int)
    requires ClockMonotone(w) && i >= 1 && w.result(i - 1).Some?
    requires ShouldRetry(w.result(i - 1).value, i - 1, limit, TimeLeft(outer, w.end(i - 1)), m)
    requires HeadlessExecutionTimeoutMs(outer - w.start(i), m) == Some(timeout)
    ensures i <= limit && EarnsRetry(w, i, timeout)
  {
    var end, next := w.end(i - 1), w.start(i);
    assert w.end(i - 1) <= w.start((i - 1) + 1);
    assert (outer - next) * 1000.0 == (outer - end) * 1000.0 - (next - end) * 1000.0;
  }

  // What is true of the attempts made so far.
  ghost predicate AttemptsNest(attempts: seq<Attempt>, w: World, outer: real, m: Margins)
  {
    forall i :: 0 <= i < |attempts| ==>
      && attempts[i].start == w.start(i) && attempts[i].innerTimeoutMs >= 1_000
      && EndOfAttempt(attempts[i], m) <= HeadlessDeadline(outer, m)
  }

  ghost predicate RetriesEarned(attempts: seq<Attempt>, w: World)
  {
    forall i :: 1 <= i < |attempts| ==> EarnsRetry(w, i, attempts[i].innerTimeoutMs)
  }

  // The loop stopped after `n` attempts because the last one reported `r` and is not to be repeated.
  ghost predicate StopsWith(w: World, n: nat, r: AttemptResult, outer: real, m: Margins, limit: nat)
  {
    n >= 1 && w.result(n - 1) == Some(r) && !ShouldRetry(r, n - 1, limit, TimeLeft(outer, w.end(n - 1)), m)
  }

  /** The retry loop of `_run_with_gateway`. Every attempt, with its shutdown grace, its flush and the adapter's margin,
      ends by the headless deadline. An attempt is repeated only after a failure that confirmed termination, at most
      `retryLimit` times, and a repetition started at once has at least the minimum execution time. */
  method RunAttempts(outer: real, m: Margins, retryLimit: nat, w: World) returns (attempts: seq<Attempt>, out: Outcome)
    requires ClockMonotone(w)
    ensures |attempts| <= retryLimit + 1
    ensures AttemptsNest(attempts, w, outer, m) && RetriesEarned(attempts, w)
    ensures match out
      case Finished(r) => StopsWith(w, |attempts|, r, outer, m, retryLimit)
      case AttemptRaised => attempts != [] && w.result(|attempts| - 1) == None
      case BudgetViolation =>
        && |attempts| <= retryLimit
        && (RemainingBudget(outer, w.start(|attempts|)) == None ||
            HeadlessExecutionTimeoutMs(outer - w.start(|attempts|), m) == None)
  {
    hide HeadlessExecutionTimeoutMs, ShouldRetry, EndOfAttempt, HeadlessDeadline, EarnsRetry, TimeLeft, ClockMonotone;
    attempts := [];
    var attempt := 1;
    out := BudgetViolation;
    while attempt <= retryLimit + 1
      invariant 1 <= attempt <= retryLimit + 2 && |attempts| == attempt - 1
      invariant AttemptsNest(attempts, w, outer, m) && RetriesEarned(attempts, w)
      invariant attempt > 1 ==> w.result(attempt - 2).Some? &&
                                ShouldRetry(w.result(attempt - 2).value, attempt - 2, retryLimit,
                                            TimeLeft(outer, w.end(attempt - 2)), m)
    {
      var now := w.start(attempt - 1);
      var remaining := RemainingBudget(outer, now);
      if remaining == None {
        return attempts, BudgetViolation;
      }
      var timeout := HeadlessExecutionTimeoutMs(remaining.value, m);
      if timeout == None {
        return attempts, BudgetViolation;
      }
      TimeoutFits(outer, now, m, timeout.value);
      if attempt > 1 {
        RetryLeavesTime(w, attempt - 1, outer, m, retryLimit, timeout.value);
      }
      attempts := attempts + [Attempt(now, timeout.value)];
      var result := w.result(attempt - 1);
      if result == None {
        return attempts, AttemptRaised;
      }
      if !ShouldRetry(result.value, attempt - 1, retryLimit, TimeLeft(outer, w.end(attempt - 1)), m) {
        return attempts, Finished(result.value);
      }
      attempt := attempt + 1;
    }
    RetryLimitReached(w, retryLimit, outer, m);
    assert false;
  }

  // A retry is never asked for after the last permitted attempt, so the loop always leaves by a break or an error.
  lemma RetryLimitReached(w: World, limit: nat, outer: real, m: Margins)
    requires w.result(limit).Some?
    ensures !ShouldRetry(w.result(limit).value, limit, limit, TimeLeft(outer, w.end(limit)), m)
  {
  }

  /** The attempt's process is started by a command that is cut off at the headless deadline, some time after the
      attempt's timeout was computed. That command outlasts the process, its grace and its flush exactly when the delay
      is within the adapter margin (and the fraction of a millisecond lost to truncation). */
  lemma AdapterMarginIsTheSlack(outer: real, start: real, exec: real, m: Margins, timeout: int)
    requires HeadlessExecutionTimeoutMs(outer - start, m) == Some(timeout) && start <= exec
    ensures var headless := HeadlessDeadline(outer, m);
      var needed := Sec(timeout) + Sec(m.shutdownGraceMs) + Sec(m.resultFlushMs);
      && (exec - start <= Sec(HEADLESS_ADAPTER_MARGIN_MS) ==> exec + needed <= headless)
      && (exec - start >= Sec(HEADLESS_ADAPTER_MARGIN_MS) + 0.001 ==> exec + needed > headless)
  {
    TimeoutFits(outer, start, m, timeout);
  }

  // ---- Provider requests ----

  datatype Admission = Admission(gatewayMonotonic: real, headlessWallMs: int)

  function ProviderAdmissionDeadlines(headless: real, loopNow: real, gatewayNow: real, wallNow: real): Option<Admission>
  {
    var remaining := headless - loopNow - ADMISSION_LEAD_SEC;
    if remaining <= 0.0 then None
    else
      var wallMs := Truncate((wallNow + remaining) * 1000.0);
      if wallMs < 1 then None else Some(Admission(gatewayNow + remaining, wallMs))
  }

  /** Provider requests are allowed at all exactly if more than 332 seconds are left before the headless deadline and the
      wall clock is past its first millisecond by then; the cutoff is 332 seconds before the deadline on either clock. */
  lemma AdmissionAllowedExactly(headless: real, loopNow: real, gatewayNow: real, wallNow: real)
    ensures var a, remaining := ProviderAdmissionDeadlines(headless, loopNow, gatewayNow, wallNow),
                                headless - loopNow - 332.0;
      && (a.Some? <==> remaining > 0.0 && (wallNow + remaining) * 1000.0 >= 1.0)
      && (a.Some? ==>
            && a.value.gatewayMonotonic == gatewayNow + remaining
            && a.value.headlessWallMs as real <= (wallNow + remaining) * 1000.0 < a.value.headlessWallMs as real + 1.0)
  {
    assert ADMISSION_LEAD_SEC == 332.0;
  }

  // Three clocks that run at the same rate; the fields are what each shows at time zero.
  datatype Clocks = Clocks(loop: real, monotonic: real, wall: real)

  // The cutoffs the adapter computes when it reads the gateway's clock, then the loop's, then the wall clock.
  function CutoffsReadAt(c: Clocks, headless: real, gatewayRead: real, loopRead: real, wallRead: real): Option<Admission>
  {
    ProviderAdmissionDeadlines(headless, c.loop + loopRead, c.monotonic + gatewayRead, c.wall + wallRead)
  }

  /** A request the ledger admits before the gateway's cutoff has its whole settlement chain, 330 seconds, end at least
      two seconds before the headless deadline, provided the gateway's clock was read no later than the loop's; the time
      between the two reads only makes the cutoff earlier. */
  lemma AdmittedRequestSettlesInTime(c: Clocks, headless: real, gatewayRead: real, loopRead: real, wallRead: real,
                                     s: Ledger, e: Event, t: real)
    requires gatewayRead <= loopRead
    requires CutoffsReadAt(c, headless, gatewayRead, loopRead, wallRead).Some?
    requires e.Admit? && e.trialId in s.trials && e.admissionNow == c.monotonic + t
    requires s.trials[e.trialId].admissionDeadline
      == CutoffsReadAt(c, headless, gatewayRead, loopRead, wallRead).value.gatewayMonotonic
    requires StepAdmit(s, e).1.Admitted?
    ensures (c.loop + t) + Sec(PROVIDER_TIMEOUT_MS) + ADMISSION_JITTER_SEC as real < headless - (loopRead - gatewayRead)
    ensures PROVIDER_TIMEOUT_MS == 330_000
      && UPSTREAM_HTTP_TIMEOUT_SEC < UPSTREAM_WORKER_TIMEOUT_SEC < PROXY_SUPERVISOR_TIMEOUT_SEC
      && PROXY_SUPERVISOR_TIMEOUT_SEC * 1_000 < PROVIDER_TIMEOUT_MS
  {
    AdmittedMeans(s, e);
  }

  predicate GatewayAdmits(c: Clocks, a: Admission, t: real)
  {
    c.monotonic + t < a.gatewayMonotonic
  }

  // Every moment the gateway still admits leaves the chain and the jitter allowance before the headless deadline.
  ghost predicate GatewayCutoffSafe(c: Clocks, headless: real, a: Admission)
  {
    forall t: real :: GatewayAdmits(c, a, t) ==> (c.loop + t) + ADMISSION_LEAD_SEC < headless
  }

  /** The order of the two reads is what makes the cutoff safe: it is, exactly when the gateway's clock was read first. */
  lemma ReadOrderDecides(c: Clocks, headless: real, gatewayRead: real, loopRead: real, wallRead: real)
    requires CutoffsReadAt(c, headless, gatewayRead, loopRead, wallRead).Some?
    ensures GatewayCutoffSafe(c, headless, CutoffsReadAt(c, headless, gatewayRead, loopRead, wallRead).value)
      <==> gatewayRead <= loopRead
  {
    var a := CutoffsReadAt(c, headless, gatewayRead, loopRead, wallRead).value;
    if gatewayRead > loopRead {
      var t := headless - c.loop - ADMISSION_LEAD_SEC;
      assert GatewayAdmits(c, a, t) && (c.loop + t) + ADMISSION_LEAD_SEC >= headless;
    }
  }

  // A check against the wall-clock cutoff in whole milliseconds of the wall clock, with a margin.
  predicate BeforeCutoff(c: Clocks, a: Admission, t: real, marginMs: nat)
  {
    a.headlessWallMs - ((c.wall + t) * 1000.0).Floor > marginMs
  }

  // A request that passes the check would be admitted, if it reached the gateway at once.
  ghost predicate Conservative(c: Clocks, a: Admission, marginMs: nat)
  {
    forall t: real :: BeforeCutoff(c, a, t, marginMs) ==> GatewayAdmits(c, a, t)
  }

  // The wall-clock cutoff before it is cut to whole milliseconds, and what the cut takes away.
  function ExactWallMs(c: Clocks, headless: real, loopRead: real, wallRead: real): real
  {
    (c.wall + wallRead + (headless - (c.loop + loopRead) - ADMISSION_LEAD_SEC)) * 1000.0
  }

  function CutAway(exact: real): real
  {
    exact - exact.Floor as real
  }

  lemma ConservativeExactly(c: Clocks, headless: real, gatewayRead: real, loopRead: real, wallRead: real, marginMs: nat)
    requires CutoffsReadAt(c, headless, gatewayRead, loopRead, wallRead).Some?
    ensures Conservative(c, CutoffsReadAt(c, headless, gatewayRead, loopRead, wallRead).value, marginMs)
      <==> (wallRead - gatewayRead) * 1000.0
           <= marginMs as real + CutAway(ExactWallMs(c, headless, loopRead, wallRead))
  {
    var a := CutoffsReadAt(c, headless, gatewayRead, loopRead, wallRead).value;
    var exact := ExactWallMs(c, headless, loopRead, wallRead);
    var gatewayEnd := a.gatewayMonotonic - c.monotonic;  // the gateway admits up to here
    assert a.headlessWallMs == exact.Floor && (c.wall + gatewayEnd) * 1000.0 == exact - (wallRead - gatewayRead) * 1000.0;
    if (wallRead - gatewayRead) * 1000.0 <= marginMs as real + CutAway(exact) {
      forall t: real | BeforeCutoff(c, a, t, marginMs)
        ensures GatewayAdmits(c, a, t)
      {
        var nowMs := ((c.wall + t) * 1000.0).Floor;
        assert nowMs + 1 <= a.headlessWallMs - marginMs;
        assert (c.wall + t) * 1000.0 < (nowMs + 1) as real;
      }
    } else {
      assert (c.wall + gatewayEnd) * 1000.0 < (a.headlessWallMs - marginMs) as real;
      assert BeforeCutoff(c, a, gatewayEnd, marginMs) && !GatewayAdmits(c, a, gatewayEnd);
    }
  }

  /** The wall clock is read last. The wall-clock cutoff by itself is therefore conservative exactly when no more time
      passes between the gateway's read and the wall clock's than the cut to whole milliseconds takes away. */
  lemma CutoffIsConservative(c: Clocks, headless: real, gatewayRead: real, loopRead: real, wallRead: real)
    requires CutoffsReadAt(c, headless, gatewayRead, loopRead, wallRead).Some?
    ensures Conservative(c, CutoffsReadAt(c, headless, gatewayRead, loopRead, wallRead).value, 0)
      <==> (wallRead - gatewayRead) * 1000.0 <= CutAway(ExactWallMs(c, headless, loopRead, wallRead))
  {
    ConservativeExactly(c, headless, gatewayRead, loopRead, wallRead, 0);
  }

  /** So it errs late whenever a whole millisecond passes between the two reads. */
  lemma CutoffErrsLate(c: Clocks, headless: real, gatewayRead: real, loopRead: real, wallRead: real)
    requires CutoffsReadAt(c, headless, gatewayRead, loopRead, wallRead).Some?
    requires wallRead - gatewayRead >= 0.001
    ensures !Conservative(c, CutoffsReadAt(c, headless, gatewayRead, loopRead, wallRead).value, 0)
  {
    CutoffIsConservative(c, headless, gatewayRead, loopRead, wallRead);
  }

  /** An instance: with the wall clock read 0.002 seconds after the other two, 1000 seconds before the cutoff, the check
      without a margin still passes when the gateway has stopped admitting. */
  lemma CutoffErrsLateHere()
    ensures var c := Clocks(0.0, 0.0, 0.0);
      var a := CutoffsReadAt(c, 1332.0, 0.0, 0.0, 0.002);
      && a == Some(Admission(1000.0, 1_000_002))
      && BeforeCutoff(c, a.value, 1000.0, 0) && !GatewayAdmits(c, a.value, 1000.0)
  {
    assert ADMISSION_LEAD_SEC == 332.0;
    assert Truncate(1000002.0) == 1_000_002;
  }

  /** The headless process checks with a margin of one second. What it dispatches the gateway would admit, exactly when
      the time between the two reads is within that second and what the cut takes away. */
  lemma PrecheckIsConservative(c: Clocks, headless: real, gatewayRead: real, loopRead: real, wallRead: real)
    requires CutoffsReadAt(c, headless, gatewayRead, loopRead, wallRead).Some?
    ensures Conservative(c, CutoffsReadAt(c, headless, gatewayRead, loopRead, wallRead).value, DISPATCH_MARGIN_MS)
      <==> (wallRead - gatewayRead) * 1000.0 <= 1000.0 + CutAway(ExactWallMs(c, headless, loopRead, wallRead))
    ensures wallRead - gatewayRead <= 1.0 ==>
      Conservative(c, CutoffsReadAt(c, headless, gatewayRead, loopRead, wallRead).value, DISPATCH_MARGIN_MS)
  {
    ConservativeExactly(c, headless, gatewayRead, loopRead, wallRead, DISPATCH_MARGIN_MS);
  }

  /** The whole run: with the deadlines reserved at the start, every attempt of the loop ends by the headless deadline,
      which leaves the verifier's margin before cleanup and the cleanup margin before the benchmark's own timeout. */
  lemma DeadlinesNest(outer: real, now: real, m: Margins, d: RunDeadlines, attempts: seq<Attempt>, w: World)
    requires ReserveAgentRunDeadlines(outer, now, m) == Some(d) && AttemptsNest(attempts, w, outer, m)
    ensures forall i :: 0 <= i < |attempts| ==> EndOfAttempt(attempts[i], m) <= d.headless
    ensures now < d.headless && d.headless + 15.0 == d.cleanup && d.cleanup + Sec(m.adapterCleanupMs) == outer
  {
    forall i | 0 <= i < |attempts|
      ensures EndOfAttempt(attempts[i], m) <= d.headless
    {
      assert attempts[i].start == w.start(i);
    }
  }
}
