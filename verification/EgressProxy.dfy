/** `PublicEgressProxy` itself: its fields and one method for every critical section, each proved to be the
    corresponding step (public_egress.py). */
module EgressProxy {
  import opened Options
  import opened EgressSockets

  class PublicEgressProxy {
    const limits: Limits
    var expires: Option<real>
    var stopping: bool
    var revoked: bool
    var expiredByTimer: bool
    var activeSockets: set<Socket>
    var audit: Audit
    var receiptFinalized: bool
    var passes: map<nat, Pass>  // the local variables of the close passes under way
    ghost var ever: set<Socket>
    ghost var released: set<Socket>
    ghost var closed: set<Socket>

    ghost function View(): Proxy
      reads this
    {
      Proxy(limits, expires, stopping, revoked, expiredByTimer, activeSockets, audit, receiptFinalized, passes,
            ever, released, closed)
    }

    constructor (limits: Limits)
      ensures View() == Init(limits)
    {
      this.limits := limits;
      expires, stopping, revoked, expiredByTimer := None, false, false, false;
      activeSockets, audit, receiptFinalized := {}, Audit(0, 0, 0, 0, 0, 0, [], 0), false;
      passes, ever, released, closed := map[], {}, {}, {};
    }

    method InactiveReasonLocked(now: real) returns (reason: Option<Reason>)
      ensures reason == InactiveReason(View(), now)
    {
      if stopping {
        return Some(Stopped);
      }
      if revoked {
        return Some(Revoked);
      }
      if expiredByTimer || expires == None || now >= expires.value {
        return Some(Ttl);
      }
      return None;
    }

    method StartProxy(now: real) returns (reply: Reply)
      modifies this
      ensures (View(), reply) == Step(old(View()), now, Start)
    {
      if expires.Some? {
        return AlreadyStarted;
      }
      if stopping {
        return Refused(Stopped);
      }
      expires := Some(now + limits.ttl);
      return Done;
    }

    method AcceptRequest(now: real) returns (reply: Reply)
      modifies this
      ensures (View(), reply) == Step(old(View()), now, Accept)
    {
      var reason := InactiveReasonLocked(now);
      if reason.Some? {
        return Refused(reason.value);
      }
      if audit.requestsAccepted >= limits.maxRequests {
        return Refused(RequestLimit);
      }
      audit := audit.(requestsAccepted := audit.requestsAccepted + 1);
      return Done;
    }

    method RegisterSocket(connection: Socket, now: real) returns (reply: Reply)
      modifies this
      ensures (View(), reply) == Step(old(View()), now, Register(connection))
    {
      var reason := InactiveReasonLocked(now);
      if reason.Some? {
        return Refused(reason.value);
      }
      activeSockets := activeSockets + {connection};
      ever, released := ever + {connection}, released - {connection};
      return Done;
    }

    method ReplaceRegisteredSocket(previous: Socket, replacement: Socket, now: real) returns (reply: Reply)
      modifies this
      ensures (View(), reply) == Step(old(View()), now, Replace(previous, replacement))
    {
      released := released + activeSockets * {previous};
      activeSockets := activeSockets - {previous};
      var reason := InactiveReasonLocked(now);
      if reason.Some? {
        return Refused(reason.value);
      }
      activeSockets := activeSockets + {replacement};
      ever, released := ever + {replacement}, released - {replacement};
      return Done;
    }

    method UnregisterSocket(connection: Socket, now: real)
      modifies this
      ensures (View(), Done) == Step(old(View()), now, Unregister(connection))
    {
      released := released + activeSockets * {connection};
      activeSockets := activeSockets - {connection};
    }

    method ChargeBytes(over: Socket, upstream: bool, byteCount: nat, now: real) returns (reply: Reply)
      modifies this
      ensures (View(), reply) == Step(old(View()), now, Charge(over, upstream, byteCount))
    {
      if audit.total + byteCount > limits.maxTotalBytes {
        return Refused(ByteLimit);
      }
      if upstream {
        audit := audit.(clientToUpstream := audit.clientToUpstream + byteCount);
      } else {
        audit := audit.(upstreamToClient := audit.upstreamToClient + byteCount);
      }
      audit := audit.(total := audit.total + byteCount);
      return Done;
    }

    method RecordDecision(decision: Decision, now: real)
      modifies this
      ensures (View(), Done) == Step(old(View()), now, Record(decision))
    {
      if receiptFinalized {
        return;
      }
      if decision.allow {
        audit := audit.(allowed := audit.allowed + 1);
      } else {
        audit := audit.(denied := audit.denied + 1);
      }
      if |audit.decisions| < MAX_AUDIT_DECISIONS {
        audit := audit.(decisions := audit.decisions + [decision]);
      } else {
        audit := audit.(truncated := audit.truncated + 1);
      }
    }

    method RevokeFlag(thread: nat, now: real)
      requires thread !in passes
      modifies this
      ensures (View(), Done) == Step(old(View()), now, Revoke(thread))
    {
      revoked := true;
      passes := passes[thread := Pass(false, None, 0)];
    }

    method ExpireFlag(thread: nat, now: real)
      requires thread !in passes && expires.Some?
      modifies this
      ensures (View(), Done) == Step(old(View()), now, Expire(thread))
    {
      expiredByTimer := true;
      passes := passes[thread := Pass(false, None, 0)];
    }

    method StopFlag(thread: nat, now: real) returns (reply: Reply)
      requires thread !in passes
      modifies this
      ensures (View(), reply) == Step(old(View()), now, Stop(thread))
    {
      if stopping {
        return AlreadyStopping;
      }
      stopping := true;
      passes := passes[thread := Pass(true, None, 0)];
      return Done;
    }

    method SnapshotActive(thread: nat, now: real)
      requires thread in passes && MaySnapshot(passes[thread])
      modifies this
      ensures (View(), Done) == Step(old(View()), now, Snapshot(thread))
    {
      var pass := passes[thread];
      passes := passes[thread := pass.(todo := Some(activeSockets), snapshots := pass.snapshots + 1)];
    }

    method CloseSocket(thread: nat, connection: Socket, now: real)
      requires thread in passes && passes[thread].todo.Some? && connection in passes[thread].todo.value
      modifies this
      ensures (View(), Done) == Step(old(View()), now, Close(thread, connection))
    {
      var pass := passes[thread];
      passes := passes[thread := pass.(todo := Some(pass.todo.value - {connection}))];
      closed := closed + {connection};
    }

    method FinishStop(thread: nat, now: real) returns (reply: Reply)
      requires thread in passes && passes[thread] == Pass(true, Some({}), 2)
      modifies this
      ensures (View(), reply) == Step(old(View()), now, Finish(thread))
    {
      if activeSockets != {} {
        return RetainedSockets;
      }
      receiptFinalized := true;
      return Done;
    }
  }
}
