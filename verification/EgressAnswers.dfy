/** What each call of the public egress proxy answers, what the receipt's counters count over a whole run, and that `stop`
    gets through (public_egress.py, `PublicEgressProxy`). */
module EgressAnswers {
  import opened Options
  import opened EgressSockets

  // ---- Answers ----

  // Started, before the deadline, with nothing set against it.
  predicate Serving(p: Proxy, now: real)
  {
    !p.stopping && !p.revoked && !p.expiredByTimer && p.expires.Some? && now < p.expires.value
  }

  // Why a call is refused: stopping before revocation before time.
  predicate RefusedFor(p: Proxy, now: real, reply: Reply)
  {
    !Serving(p, now) && reply == Refused(if p.stopping then Stopped else if p.revoked then Revoked else Ttl)
  }

  /** Starting works once and not while stopping, and sets the deadline its lifetime ahead. */
  lemma StartAnswer(p: Proxy, now: real)
    ensures var (q, reply) := Step(p, now, Start);
      && (reply == Done <==> p.expires == None && !p.stopping)
      && q == (if reply == Done then p.(expires := Some(now + p.limits.ttl)) else p)
      && (reply == AlreadyStarted <==> p.expires.Some?)
  {
  }

  /** A serving proxy registers every socket it is given and a proxy that is not serving none; replacing one discards the
      old socket in either case. */
  lemma RegistrationAnswer(p: Proxy, now: real, s: Socket, previous: Socket)
    ensures var (q, reply) := Step(p, now, Register(s));
      if Serving(p, now) then reply == Done && q.active == p.active + {s} && q.audit == p.audit
      else RefusedFor(p, now, reply) && q == p
    ensures var (q, reply) := Step(p, now, Replace(previous, s));
      if Serving(p, now) then reply == Done && q.active == p.active - {previous} + {s}
      else RefusedFor(p, now, reply) && q.active == p.active - {previous}
    ensures Step(p, now, Unregister(s)).0.active == p.active - {s}
  {
  }

  /** A serving proxy accepts requests up to its limit, the last one included, and then says so. */
  lemma AcceptanceAnswer(p: Proxy, now: real)
    ensures var (q, reply) := Step(p, now, Accept);
      && (reply == Done <==> Serving(p, now) && p.audit.requestsAccepted + 1 <= p.limits.maxRequests)
      && (reply == Refused(RequestLimit) <==> Serving(p, now) && p.audit.requestsAccepted >= p.limits.maxRequests)
      && (!Serving(p, now) ==> RefusedFor(p, now, reply))
      && (reply != Done ==> q == p)
  {
  }

  /** Bytes are charged as long as the total stays within its limit, the limit included, and none of them otherwise. */
  lemma ChargeAnswer(p: Proxy, now: real, s: Socket, upstream: bool, bytes: nat)
    ensures var (q, reply) := Step(p, now, Charge(s, upstream, bytes));
      if p.audit.total + bytes <= p.limits.maxTotalBytes then reply == Done
      else reply == Refused(ByteLimit) && q == p
  {
  }

  /** A decision is kept word for word while fewer than 256 are, and merely counted after that. */
  lemma DecisionAnswer(p: Proxy, now: real, d: Decision)
    requires !p.finalized
    ensures var q := Step(p, now, Record(d)).0;
      if |p.audit.decisions| < 256 then
        q.audit.decisions == p.audit.decisions + [d] && q.audit.truncated == p.audit.truncated
      else q.audit.decisions == p.audit.decisions && q.audit.truncated == p.audit.truncated + 1
  {
  }

  // ---- What the counters count ----

  // One call's contribution to each counter.
  function Tally(p: Proxy, now: real, e: Event): (a: Audit)
  {
    var done := Step(p, now, e).1 == Done;
    Audit(if e.Record? && e.decision.allow && !p.finalized then 1 else 0,
          if e.Record? && !e.decision.allow && !p.finalized then 1 else 0,
          if e.Accept? && done then 1 else 0,
          if e.Charge? && e.upstream && done then e.bytes else 0,
          if e.Charge? && !e.upstream && done then e.bytes else 0,
          if e.Charge? && done then e.bytes else 0, [], 0)
  }

  function Added(a: Audit, b: Audit): Audit
  {
    Audit(a.allowed + b.allowed, a.denied + b.denied, a.requestsAccepted + b.requestsAccepted,
          a.clientToUpstream + b.clientToUpstream, a.upstreamToClient + b.upstreamToClient, a.total + b.total, [], 0)
  }

  function TallyOf(p: Proxy, trace: seq<Timed>): Audit
    decreases |trace|
  {
    if trace == [] then Audit(0, 0, 0, 0, 0, 0, [], 0)
    else
      Added(Tally(p, trace[0].now, trace[0].event), TallyOf(Step(p, trace[0].now, trace[0].event).0, trace[1..]))
  }

  function Counters(a: Audit): Audit
  {
    a.(decisions := [], truncated := 0)
  }

  lemma StepTallies(p: Proxy, now: real, e: Event)
    ensures Counters(Step(p, now, e).0.audit) == Added(Counters(p.audit), Tally(p, now, e))
  {
    if !e.Accept? && !e.Charge? && !e.Record? {
      OtherStepsKeepAudit(p, now, e);
      hide Step;
    }
  }

  lemma OtherStepsKeepAudit(p: Proxy, now: real, e: Event)
    requires !e.Accept? && !e.Charge? && !e.Record?
    ensures Step(p, now, e).0.audit == p.audit
  {
  }

  lemma {:induction false} RunTallies(p: Proxy, trace: seq<Timed>)
    ensures Counters(Run(p, trace).audit) == Added(Counters(p.audit), TallyOf(p, trace))
    decreases |trace|
  {
    hide Step, Tally;
    if trace != [] {
      StepTallies(p, trace[0].now, trace[0].event);
      RunTallies(Step(p, trace[0].now, trace[0].event).0, trace[1..]);
    }
  }

  /** Over every interleaving the receipt counts exactly what happened: the requests that were accepted, the bytes charged
      in each direction and altogether, and the decisions of each kind recorded before it was finalized. */
  lemma ReceiptCountsWhatHappened(limits: Limits, trace: seq<Timed>)
    ensures Counters(Run(Init(limits), trace).audit) == TallyOf(Init(limits), trace)
  {
    hide Step;
    RunTallies(Init(limits), trace);
  }

  // ---- Stopping gets through ----

  lemma {:induction false} RunConcat(p: Proxy, a: seq<Timed>, b: seq<Timed>)
    ensures Run(p, a + b) == Run(Run(p, a), b)
    decreases |a|
  {
    if a == [] {
      assert a + b == b;
    } else {
      hide Step;
      assert (a + b)[1..] == a[1..] + b;
      RunConcat(Step(p, a[0].now, a[0].event).0, a[1..], b);
    }
  }

  lemma RunOne(p: Proxy, now: real, e: Event)
    ensures Run(p, [Timed(now, e)]) == Step(p, now, e).0
  {
    hide Step;
    var q := Step(p, now, e).0;
    assert Run(q, []) == q;
    assert [Timed(now, e)][1..] == [];
  }

  // A stopping thread that has taken its first step, with everything else as it was.
  predicate JustStopping(p: Proxy, thread: nat)
  {
    p.stopping && thread in p.passes && p.passes[thread] == Pass(true, None, 0)
  }

  lemma {:induction false} Empties(p: Proxy, now: real, thread: nat) returns (trace: seq<Timed>)
    requires JustStopping(p, thread)
    ensures var q := Run(p, trace); JustStopping(q, thread) && q.active == {}
    ensures forall t :: t in trace ==> t.now == now
    decreases |p.active|
  {
    if p.active == {} {
      trace := [];
    } else {
      var s :| s in p.active;
      var q := Step(p, now, Unregister(s)).0;
      assert q.active == p.active - {s} && |q.active| < |p.active|;
      var rest := Empties(q, now, thread);
      hide Step, JustStopping;
      trace := [Timed(now, Unregister(s))] + rest;
      RunOne(p, now, Unregister(s));
      RunConcat(p, [Timed(now, Unregister(s))], rest);
    }
  }

  lemma EmptyStopFinishes(p: Proxy, now: real, thread: nat)
    requires JustStopping(p, thread) && p.active == {}
    ensures var q := Step(p, now, Snapshot(thread)).0;
      var r := Step(q, now, Snapshot(thread)).0;
      Step(r, now, Finish(thread)).1 == Done && Step(r, now, Finish(thread)).0.finalized
  {
  }

  /** Nothing that happened before can keep a first `stop` from finalizing the receipt: once the handlers have given back
      their sockets, two passes over the registry and it is done. */
  lemma StopGetsThrough(limits: Limits, before: seq<Timed>, thread: nat, now: real) returns (more: seq<Timed>)
    requires var p := Run(Init(limits), before); !p.stopping && thread !in p.passes
    ensures Run(Run(Init(limits), before), more).finalized
    ensures forall t :: t in more ==> t.now == now
  {
    var p := Run(Init(limits), before);
    var q := Step(p, now, Stop(thread)).0;
    assert JustStopping(q, thread);
    hide Run;
    RunOne(p, now, Stop(thread));
    var emptied := Empties(q, now, thread);
    var r := Run(q, emptied);
    EmptyStopFinishes(r, now, thread);
    hide Step, JustStopping;
    var once := [Timed(now, Snapshot(thread))];
    var finish := [Timed(now, Finish(thread))];
    var r1 := Run(r, once);
    RunOne(r, now, Snapshot(thread));
    RunOne(r1, now, Snapshot(thread));
    RunOne(Run(r1, once), now, Finish(thread));
    RunConcat(r1, once, finish);
    RunConcat(r, once, once + finish);
    RunConcat(q, emptied, once + (once + finish));
    RunConcat(p, [Timed(now, Stop(thread))], emptied + (once + (once + finish)));
    more := [Timed(now, Stop(thread))] + (emptied + (once + (once + finish)));
  }
}
