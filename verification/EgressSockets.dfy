/** The socket registry of the public egress proxy (public_egress.py, `PublicEgressProxy`). One step is one critical
    section of `_lock`; a close pass is a flag set in one step, a snapshot of the registry in a later one, and then one
    step for each socket it closes, so registrations of other threads may fall anywhere between them. */
module EgressSockets {
  import opened Options

  const MAX_AUDIT_DECISIONS := 256

  type Socket = nat

  datatype Limits = Limits(ttl: real, maxRequests: nat, maxTotalBytes: nat)

  datatype Reason = Stopped | Revoked | Ttl | RequestLimit | ByteLimit

  datatype Decision = Decision(host: string, allow: bool, reason: string, bytes: nat)

  // What the receipt reports.
  datatype Audit = Audit(allowed: nat, denied: nat, requestsAccepted: nat, clientToUpstream: nat,
                         upstreamToClient: nat, total: nat, decisions: seq<Decision>, truncated: nat)

  // A thread inside `revoke`, `stop` or the expiry timer: its flag is set; `todo` is what is left of its snapshot.
  datatype Pass = Pass(stop: bool, todo: Option<set<Socket>>, snapshots: nat)

  datatype Proxy = Proxy(
    limits: Limits,
    expires: Option<real>,
    stopping: bool, revoked: bool, expiredByTimer: bool,
    active: set<Socket>,
    audit: Audit,
    finalized: bool,
    passes: map<nat, Pass>,
    // History: the sockets ever registered, those discarded since, and those some pass has closed.
    ever: set<Socket>, released: set<Socket>, closed: set<Socket>)

  datatype Event =
    | Start
    | Register(socket: Socket)
    | Replace(previous: Socket, replacement: Socket)
    | Unregister(socket: Socket)
    | Accept
    | Charge(socket: Socket, upstream: bool, bytes: nat)  // `socket`: the upstream whose bytes these are
    | Record(decision: Decision)
    | Revoke(thread: nat)
    | Expire(thread: nat)
    | Stop(thread: nat)
    | Snapshot(thread: nat)
    | Close(thread: nat, socket: Socket)
    | Finish(thread: nat)

  // Off: the thread cannot take this step now. AlreadyStopping: the caller waits for the thread that is stopping.
  datatype Reply = Done | Refused(reason: Reason) | AlreadyStarted | AlreadyStopping | RetainedSockets | Off

  function Init(limits: Limits): Proxy
  {
    Proxy(limits, None, false, false, false, {}, Audit(0, 0, 0, 0, 0, 0, [], 0), false, map[], {}, {}, {})
  }

  function InactiveReason(p: Proxy, now: real): Option<Reason>
  {
    if p.stopping then Some(Stopped)
    else if p.revoked then Some(Revoked)
    else if p.expiredByTimer || p.expires == None || now >= p.expires.value then Some(Ttl)
    else None
  }

  function Discard(p: Proxy, s: Socket): Proxy
  {
    p.(active := p.active - {s}, released := p.released + p.active * {s})
  }

  function Add(p: Proxy, s: Socket): Proxy
  {
    p.(active := p.active + {s}, released := p.released - {s}, ever := p.ever + {s})
  }

  function AddIfActive(p: Proxy, s: Socket, now: real): (Proxy, Reply)
  {
    match InactiveReason(p, now)
    case Some(reason) => (p, Refused(reason))
    case None => (Add(p, s), Done)
  }

  function StepAccept(p: Proxy, now: real): (Proxy, Reply)
  {
    match InactiveReason(p, now)
    case Some(reason) => (p, Refused(reason))
    case None =>
      if p.audit.requestsAccepted >= p.limits.maxRequests then (p, Refused(RequestLimit))
      else (p.(audit := p.audit.(requestsAccepted := p.audit.requestsAccepted + 1)), Done)
  }

  function Charged(a: Audit, upstream: bool, bytes: nat): Audit
  {
    if upstream then a.(clientToUpstream := a.clientToUpstream + bytes, total := a.total + bytes)
    else a.(upstreamToClient := a.upstreamToClient + bytes, total := a.total + bytes)
  }

  function StepCharge(p: Proxy, upstream: bool, bytes: nat): (Proxy, Reply)
  {
    if p.audit.total + bytes > p.limits.maxTotalBytes then (p, Refused(ByteLimit))
    else (p.(audit := Charged(p.audit, upstream, bytes)), Done)
  }

  function Recorded(a: Audit, d: Decision): Audit
  {
    var counted := if d.allow then a.(allowed := a.allowed + 1) else a.(denied := a.denied + 1);
    if |a.decisions| < MAX_AUDIT_DECISIONS then counted.(decisions := a.decisions + [d])
    else counted.(truncated := a.truncated + 1)
  }

  function StepStart(p: Proxy, now: real): (Proxy, Reply)
  {
    if p.expires.Some? then (p, AlreadyStarted)
    else if p.stopping then (p, Refused(Stopped))
    else (p.(expires := Some(now + p.limits.ttl)), Done)
  }

  function Begin(p: Proxy, thread: nat, stop: bool): Proxy
  {
    p.(passes := p.passes[thread := Pass(stop, None, 0)])
  }

  // `stop` takes a second snapshot once the server's threads have been joined.
  predicate MaySnapshot(pass: Pass)
  {
    pass.todo == None || (pass.stop && pass.todo == Some({}) && pass.snapshots == 1)
  }

  function StepFinish(p: Proxy, pass: Pass): (Proxy, Reply)
  {
    if !(pass.stop && pass.todo == Some({}) && pass.snapshots == 2) then (p, Off)
    else if p.active != {} then (p, RetainedSockets)
    else (p.(finalized := true), Done)
  }

  function Step(p: Proxy, now: real, e: Event): (Proxy, Reply)
  {
    match e
    case Start => StepStart(p, now)
    case Register(s) => AddIfActive(p, s, now)
    case Replace(previous, replacement) => AddIfActive(Discard(p, previous), replacement, now)
    case Unregister(s) => (Discard(p, s), Done)
    case Accept => StepAccept(p, now)
    case Charge(_, upstream, bytes) => StepCharge(p, upstream, bytes)
    case Record(d) => (if p.finalized then p else p.(audit := Recorded(p.audit, d)), Done)
    case Revoke(t) =>
      if t in p.passes then (p, Off) else (Begin(p.(revoked := true), t, false), Done)
    case Expire(t) =>
      if t in p.passes || p.expires == None then (p, Off) else (Begin(p.(expiredByTimer := true), t, false), Done)
    case Stop(t) =>
      if t in p.passes then (p, Off)
      else if p.stopping then (p, AlreadyStopping)
      else (Begin(p.(stopping := true), t, true), Done)
    case Snapshot(t) =>
      if t in p.passes && MaySnapshot(p.passes[t]) then
        (p.(passes := p.passes[t := p.passes[t].(todo := Some(p.active), snapshots := p.passes[t].snapshots + 1)]),
         Done)
      else (p, Off)
    case Close(t, s) =>
      if t in p.passes && p.passes[t].todo.Some? && s in p.passes[t].todo.value then
        (p.(passes := p.passes[t := p.passes[t].(todo := Some(p.passes[t].todo.value - {s}))],
            closed := p.closed + {s}), Done)
      else (p, Off)
    case Finish(t) => if t in p.passes then StepFinish(p, p.passes[t]) else (p, Off)
  }

  datatype Timed = Timed(now: real, event: Event)

  // A trace under a clock that never runs backwards and starts at `from` or later.
  predicate Monotone(from: real, trace: seq<Timed>)
    decreases |trace|
  {
    trace == [] || (from <= trace[0].now && Monotone(trace[0].now, trace[1..]))
  }

  function EndOf(from: real, trace: seq<Timed>): real
    decreases |trace|
  {
    if trace == [] then from else EndOf(trace[0].now, trace[1..])
  }

  function Run(p: Proxy, trace: seq<Timed>): Proxy
    decreases |trace|
  {
    if trace == [] then p else Run(Step(p, trace[0].now, trace[0].event).0, trace[1..])
  }

  // ---- What every step keeps ----

  predicate FlagSet(p: Proxy)
  {
    p.stopping || p.revoked || p.expiredByTimer
  }

  predicate Registry(p: Proxy)
  {
    p.ever == p.active + p.released && p.active !! p.released
  }

  // Nothing is registered behind a snapshot: whatever is still in the registry is closed or about to be.
  predicate PassesCover(p: Proxy)
  {
    && (p.passes != map[] ==> FlagSet(p))
    && (forall t :: t in p.passes && p.passes[t].stop ==> p.stopping)
    && (forall t :: t in p.passes && p.passes[t].todo.Some? ==> p.active <= p.closed + p.passes[t].todo.value)
    && (p.finalized ==> p.stopping && p.active == {})
  }

  predicate AuditAddsUp(a: Audit, limits: Limits)
  {
    && a.requestsAccepted <= limits.maxRequests
    && a.total == a.clientToUpstream + a.upstreamToClient && a.total <= limits.maxTotalBytes
    && a.allowed + a.denied == |a.decisions| + a.truncated
    && |a.decisions| <= MAX_AUDIT_DECISIONS
    && (a.truncated > 0 ==> |a.decisions| == MAX_AUDIT_DECISIONS)
  }

  predicate WithinLimits(p: Proxy)
  {
    AuditAddsUp(p.audit, p.limits)
  }

  predicate Inv(p: Proxy)
  {
    Registry(p) && PassesCover(p) && WithinLimits(p)
  }

  lemma StepKeepsRegistry(p: Proxy, now: real, e: Event)
    requires Registry(p)
    ensures Registry(Step(p, now, e).0)
  {
    hide PassesCover, WithinLimits;
  }

  lemma StepKeepsPasses(p: Proxy, now: real, e: Event)
    requires PassesCover(p)
    ensures PassesCover(Step(p, now, e).0)
  {
    hide Registry, WithinLimits;
  }

  lemma StepKeepsLimits(p: Proxy, now: real, e: Event)
    requires WithinLimits(p)
    ensures WithinLimits(Step(p, now, e).0)
  {
    hide Registry, PassesCover;
  }

  lemma StepKeeps(p: Proxy, now: real, e: Event)
    requires Inv(p)
    ensures Inv(Step(p, now, e).0)
  {
    hide Step, Registry, PassesCover, WithinLimits;
    StepKeepsRegistry(p, now, e);
    StepKeepsPasses(p, now, e);
    StepKeepsLimits(p, now, e);
  }

  /** Over every interleaving, from a fresh proxy: the registry is exactly what was registered and not yet discarded,
      the request and byte limits hold, the two directions add up to the total, and the decisions are all counted. */
  lemma {:induction false} RunKeeps(p: Proxy, trace: seq<Timed>)
    requires Inv(p)
    ensures Inv(Run(p, trace))
    decreases |trace|
  {
    hide Inv, Step;
    if trace != [] {
      StepKeeps(p, trace[0].now, trace[0].event);
      RunKeeps(Step(p, trace[0].now, trace[0].event).0, trace[1..]);
    }
  }

  // ---- No socket escapes ----

  predicate CloseFinished(p: Proxy)
  {
    FlagSet(p) && p.active <= p.closed
  }

  lemma StepKeepsFinished(p: Proxy, now: real, e: Event)
    requires CloseFinished(p)
    ensures CloseFinished(Step(p, now, e).0)
  {
  }

  lemma {:induction false} RunKeepsFinished(p: Proxy, trace: seq<Timed>)
    requires CloseFinished(p)
    ensures CloseFinished(Run(p, trace))
    decreases |trace|
  {
    if trace != [] {
      StepKeepsFinished(p, trace[0].now, trace[0].event);
      RunKeepsFinished(Step(p, trace[0].now, trace[0].event).0, trace[1..]);
    }
  }

  /** Once one thread, whichever it is, has closed everything in its snapshot, every socket that was ever registered,
      before or after, has been closed or has left the registry; this stays so whatever happens next. */
  lemma NoSocketEscapes(limits: Limits, before: seq<Timed>, after: seq<Timed>, thread: nat)
    requires var p := Run(Init(limits), before); thread in p.passes && p.passes[thread].todo == Some({})
    ensures var q := Run(Run(Init(limits), before), after);
      forall s :: s in q.ever ==> s in q.closed || s in q.released
  {
    RunKeeps(Init(limits), before);
    var p := Run(Init(limits), before);
    assert CloseFinished(p);
    RunKeepsFinished(p, after);
    RunKeeps(p, after);
  }

  // ---- Inactivity is permanent ----

  // Inactive for a reason time cannot undo: a flag, or a deadline that has passed.
  predicate Over(p: Proxy, now: real)
  {
    FlagSet(p) || (p.expires.Some? && now >= p.expires.value)
  }

  lemma StepKeepsOver(p: Proxy, since: real, now: real, e: Event)
    requires Over(p, since) && since <= now
    ensures var q := Step(p, now, e).0;
      Over(q, now) && q.ever == p.ever && q.active <= p.active && q.audit.requestsAccepted == p.audit.requestsAccepted
  {
  }

  /** From the first moment the proxy is over, under a clock that never runs backwards, it reports itself inactive at
      every later moment and no step registers a socket or accepts a request. */
  lemma {:induction false} ShutdownIsFinal(p: Proxy, since: real, trace: seq<Timed>, later: real)
    requires Over(p, since) && Monotone(since, trace)
    requires later >= EndOf(since, trace)
    ensures var q := Run(p, trace);
      && InactiveReason(q, later).Some?
      && q.ever == p.ever && q.active <= p.active && q.audit.requestsAccepted == p.audit.requestsAccepted
    decreases |trace|
  {
    if trace != [] {
      StepKeepsOver(p, since, trace[0].now, trace[0].event);
      ShutdownIsFinal(Step(p, trace[0].now, trace[0].event).0, trace[0].now, trace[1..], later);
    }
  }

  // Whatever happens from `now` on, under a clock that never runs backwards, the proxy is inactive.
  ghost predicate NeverActiveAgain(p: Proxy, now: real)
  {
    forall trace: seq<Timed>, later ::
      Monotone(now, trace) && later >= EndOf(now, trace) ==>
        InactiveReason(Run(p, trace), later).Some?
  }

  /** An inactive proxy stays inactive exactly when a flag is set or it has been started; one that was never started
      reports itself expired and is active once started. */
  lemma InactivityIsPermanent(p: Proxy, now: real)
    requires InactiveReason(p, now).Some? && p.limits.ttl > 0.0
    ensures NeverActiveAgain(p, now) <==> FlagSet(p) || p.expires.Some?
  {
    if FlagSet(p) || p.expires.Some? {
      forall trace: seq<Timed>, later | Monotone(now, trace) && later >= EndOf(now, trace)
        ensures InactiveReason(Run(p, trace), later).Some?
      {
        ShutdownIsFinal(p, now, trace, later);
      }
    } else {
      var trace := [Timed(now, Start)];
      assert trace[1..] == [];
      assert Monotone(now, trace);
      var q := Step(p, now, Start).0;
      assert Run(p, trace) == Run(q, []) == q;
      assert InactiveReason(q, now) == None && EndOf(now, trace) == now;
    }
  }

  // ---- The final receipt ----

  // A handler charges bytes only between registering the upstream socket they move over and discarding it.
  predicate ChargesWhileRegistered(p: Proxy, trace: seq<Timed>)
    decreases |trace|
  {
    trace == [] ||
    ((trace[0].event.Charge? ==> trace[0].event.socket in p.active) &&
     ChargesWhileRegistered(Step(p, trace[0].now, trace[0].event).0, trace[1..]))
  }

  // The receipt without its byte counters.
  function WithoutBytes(a: Audit): Audit
  {
    a.(clientToUpstream := 0, upstreamToClient := 0, total := 0)
  }

  lemma StepKeepsAudit(p: Proxy, now: real, e: Event)
    requires PassesCover(p) && p.finalized
    ensures var q := Step(p, now, e).0;
      && WithoutBytes(q.audit) == WithoutBytes(p.audit) && q.finalized
      && ((e.Charge? ==> e.socket in p.active) ==> q.audit == p.audit)
  {
  }

  /** After `stop` has finalized the receipt the registry is empty for good, and no later step of any thread changes what
      the receipt reports, as long as bytes are charged only over registered sockets; without that, only the byte
      counters can still move. So every call of `stop` can hand out the same receipt. */
  lemma {:induction false} ReceiptIsFinal(p: Proxy, trace: seq<Timed>)
    requires Inv(p) && p.finalized
    ensures var q := Run(p, trace);
      && q.active == {} && WithoutBytes(q.audit) == WithoutBytes(p.audit)
      && (ChargesWhileRegistered(p, trace) ==> q.audit == p.audit)
    decreases |trace|
  {
    hide Step, WithoutBytes;
    if trace != [] {
      var q := Step(p, trace[0].now, trace[0].event).0;
      StepKeepsAudit(p, trace[0].now, trace[0].event);
      StepKeeps(p, trace[0].now, trace[0].event);
      ReceiptIsFinal(q, trace[1..]);
    }
  }
}
