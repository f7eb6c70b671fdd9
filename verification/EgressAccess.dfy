/** Starting and stopping public egress for one container (pico_agent.py, `PublicEgressAccess`). Docker, the proxy and
    the file system are free to fail at every point, so each call takes the outcome of every external step it makes. */
module EgressAccess {
  import opened Options

  // How far the proxy's own stop has come. The first call decides: one that raised leaves the proxy stopping without a
  // receipt, so every later call raises, and one that returned has its receipt handed out again.
  datatype Halt = Serving | Broken | Halted(validReceipt: bool)

  // What exists outside the object: the proxies created, the bound host listener, the relay container that can reach
  // it, the receipt file, and whether the proxy's revoked flag is set, from when on it refuses every request.
  datatype World = World(proxies: nat, listener: bool, relay: bool, receipt: bool, revoked: bool, halt: Halt)

  datatype Access = Access(proxy: bool, relayStarted: bool, stopped: bool, token: bool, world: World)

  // A failing start may leave the listener bound, or the relay container behind.
  datatype StartOutcome =
    | ProxyNotCreated
    | ProxyStartFails(bound: bool)
    | PortInvalid
    | RelayFails(created: bool)
    | RelayStarts

  // Removal is confirmed by inspecting the container; when it is not, the relay may or may not be gone.
  datatype Removal = Confirmed | NotConfirmed(gone: bool)

  datatype ProxyStop = Returns(validReceipt: bool) | Raises(released: bool)

  // The receipt is linked into place before its directory is synchronised, so a failed write may still leave it.
  datatype Write = Written | WriteFails(linked: bool)

  // Revoking sets the flag and then closes sockets; `closes` says whether the closing went through. `proxyStop` is what
  // the proxy's stop does if this call is the first to reach it.
  datatype StopOutcome = StopOutcome(closes: bool, removal: Removal, proxyStop: ProxyStop, write: Write)

  const FRESH := Access(false, false, false, true, World(0, false, false, false, false, Serving))

  predicate Clean(o: StopOutcome)
  {
    o.closes && o.removal.Confirmed? && o.proxyStop == Returns(true) && o.write.Written?
  }

  function HaltAfter(halt: Halt, proxyStop: ProxyStop): Halt
  {
    if !halt.Serving? then halt
    else
      match proxyStop
      case Raises(_) => Broken
      case Returns(validReceipt) => Halted(validReceipt)
  }

  function ListenerAfter(w: World, proxyStop: ProxyStop): bool
  {
    w.listener && (w.halt.Serving? ==> proxyStop.Raises? && !proxyStop.released)
  }

  // The proxy is stopped and its receipt written; reached only after the relay is confirmed absent.
  function ReleaseListener(w: World, o: StopOutcome): (World, bool)
  {
    var halted := w.(halt := HaltAfter(w.halt, o.proxyStop), listener := ListenerAfter(w, o.proxyStop));
    if halted.halt != Halted(true) then (halted, false)
    else
      match o.write
      case Written => (halted.(receipt := true), true)
      case WriteFails(linked) => (halted.(receipt := w.receipt || linked), false)
  }

  // What is left once the relay is confirmed absent.
  function StopProxy(a: Access, o: StopOutcome): (Access, bool)
  {
    if !a.proxy then (a.(token := false, stopped := true), true)
    else
      var (world, done) := ReleaseListener(a.world, o);
      if done then (a.(proxy := false, token := false, stopped := true, world := world), o.closes)
      else (a.(world := world), false)
  }

  // `stop`; false when it raises. The flag is set first, whatever fails after it.
  function Stop(a: Access, o: StopOutcome): (Access, bool)
  {
    if a.stopped then (a, true)
    else
      var revoked := a.(world := a.world.(revoked := a.world.revoked || a.proxy));
      match o.removal
      case NotConfirmed(gone) => (revoked.(world := revoked.world.(relay := a.world.relay && !gone)), false)
      case Confirmed => StopProxy(revoked.(relayStarted := false, world := revoked.world.(relay := false)), o)
  }

  // `start`; any failure past the creation of the proxy stops everything again, with that stop's own outcome.
  function Start(a: Access, o: StartOutcome, cleanup: StopOutcome): (Access, bool)
  {
    if a.proxy || a.stopped then (a, false)
    else if o.ProxyNotCreated? then (a, false)
    else
      var created := a.(proxy := true, world := a.world.(proxies := a.world.proxies + 1));
      match o
      case ProxyStartFails(bound) => (Stop(created.(world := created.world.(listener := bound)), cleanup).0, false)
      case PortInvalid => (Stop(created.(world := created.world.(listener := true)), cleanup).0, false)
      case RelayFails(relay) =>
        (Stop(created.(world := created.world.(listener := true, relay := relay)), cleanup).0, false)
      case RelayStarts =>
        (created.(relayStarted := true, world := created.world.(listener := true, relay := true)), true)
      case ProxyNotCreated => (a, false)
  }

  datatype Call = StartCall(start: StartOutcome, cleanup: StopOutcome) | StopCall(stop: StopOutcome)

  function CallStep(a: Access, c: Call): Access
  {
    match c
    case StartCall(o, cleanup) => Start(a, o, cleanup).0
    case StopCall(o) => Stop(a, o).0
  }

  function RunCalls(a: Access, calls: seq<Call>): Access
  {
    if calls == [] then a else CallStep(RunCalls(a, calls[..|calls| - 1]), calls[|calls| - 1])
  }

  // ---- Teardown order ----

  predicate Safe(a: Access)
  {
    && (a.world.relay ==> a.world.listener)              // a relay never outlives the port it forwards to
    && (a.world.listener || a.world.relay ==> a.proxy)
    && (a.relayStarted ==> a.world.listener && a.proxy)
    && (a.token <==> !a.stopped)
    && (a.stopped ==> !a.proxy && !a.world.relay)
    && (a.stopped && a.world.proxies > 0 ==> a.world.receipt && a.world.revoked && a.world.halt == Halted(true))
    && (a.world.halt != Serving ==> a.world.revoked && !a.world.relay)
    && (a.world.halt.Halted? ==> !a.world.listener)
    && (!a.proxy && !a.stopped ==> a.world.halt.Serving? && !a.world.revoked)
    && a.world.proxies == (if a.proxy || (a.stopped && a.world.proxies > 0) then 1 else 0)
  }

  lemma StopKeeps(a: Access, o: StopOutcome)
    requires Safe(a)
    ensures Safe(Stop(a, o).0)
  {
  }

  lemma StartKeeps(a: Access, o: StartOutcome, cleanup: StopOutcome)
    requires Safe(a)
    ensures Safe(Start(a, o, cleanup).0)
  {
    hide Stop;
    if !a.proxy && !a.stopped && !o.ProxyNotCreated? && !o.RelayStarts? {
      var created := a.(proxy := true, world := a.world.(proxies := a.world.proxies + 1));
      var listener := !o.ProxyStartFails? || o.bound;
      var relay := a.world.relay || (o.RelayFails? && o.created);
      var failed := created.(world := created.world.(listener := listener, relay := relay));
      StopKeeps(failed, cleanup);
      assert Start(a, o, cleanup).0 == Stop(failed, cleanup).0;
    }
  }

  lemma CallKeeps(a: Access, c: Call)
    requires Safe(a)
    ensures Safe(CallStep(a, c))
  {
    hide Safe, Start, Stop;
    match c
    case StartCall(o, cleanup) => StartKeeps(a, o, cleanup);
    case StopCall(o) => StopKeeps(a, o);
  }

  /** Over every sequence of starts and stops, whatever fails: the listener is bound as long as a relay may exist; once
      stopped, relay, listener, proxy and token are gone, and if a proxy was ever created it refuses every request and its
      receipt is on disk; the token is erased exactly when stopped; and at most one proxy is ever created. */
  lemma {:induction false} TeardownOrder(calls: seq<Call>)
    ensures var a := RunCalls(FRESH, calls);
      && (a.world.relay ==> a.world.listener)
      && (a.token <==> !a.stopped)
      && (a.stopped ==> !a.proxy && !a.world.relay && !a.world.listener)
      && (a.stopped && a.world.proxies > 0 ==> a.world.receipt && a.world.revoked)
      && a.world.proxies <= 1
    ensures Safe(RunCalls(FRESH, calls))
  {
    if calls != [] {
      TeardownOrder(calls[..|calls| - 1]);
      CallKeeps(RunCalls(FRESH, calls[..|calls| - 1]), calls[|calls| - 1]);
    }
  }

  /** Starting succeeds exactly for an object that has no proxy and was not stopped, if proxy, port and relay all come up,
      and then the relay forwards to a bound listener of a proxy that serves. A start that fails later than the proxy's
      creation has undone it all if its clean-up goes through. */
  lemma StartMeaning(a: Access, o: StartOutcome, cleanup: StopOutcome)
    requires Safe(a)
    ensures var (b, ok) := Start(a, o, cleanup);
      && (ok <==> !a.proxy && !a.stopped && o.RelayStarts?)
      && (ok ==> b.proxy && b.relayStarted && b.world.relay && b.world.listener && b.token && !b.world.revoked
                 && b.world.halt.Serving? && b.world.proxies == a.world.proxies + 1)
      && (a.proxy || a.stopped || o.ProxyNotCreated? ==> b == a)
      && (!ok && !a.proxy && !a.stopped && !o.ProxyNotCreated? ==> b.world.revoked && (Clean(cleanup) ==> b.stopped))
  {
  }

  // The listener went from bound to free in this call.
  predicate Releases(a: Access, c: Call)
  {
    a.world.listener && !CallStep(a, c).world.listener
  }

  /** A call that frees the listener has confirmed in that call that the relay is gone. */
  lemma ReleaseNeedsConfirmation(a: Access, c: Call)
    requires Safe(a) && Releases(a, c)
    ensures c.StopCall? && c.stop.removal.Confirmed? && !CallStep(a, c).world.relay && !CallStep(a, c).relayStarted
  {
  }

  /** One call of `stop` leaves the object stopped exactly when it already was, or the relay is confirmed absent and the
      proxy, if there is one, has handed over a valid receipt, now or before, that is written. It raises exactly when that
      fails or, with a proxy, closing its sockets failed; then it may have stopped all the same. In any case a proxy that
      was there is revoked. */
  lemma StopMeaning(a: Access, o: StopOutcome)
    ensures var (b, ok) := Stop(a, o);
      && (b.stopped <==> a.stopped || (o.removal.Confirmed? &&
                                       (a.proxy ==> HaltAfter(a.world.halt, o.proxyStop) == Halted(true)
                                                    && o.write.Written?)))
      && (ok <==> b.stopped && (a.stopped || !a.proxy || o.closes))
      && (Clean(o) && a.world.halt.Serving? ==> ok && b.stopped)
      && (!a.stopped && a.proxy ==> b.world.revoked)
  {
  }

  // Some sequence of calls stops it.
  ghost predicate CanBeStopped(a: Access)
  {
    exists calls :: RunCalls(a, calls).stopped
  }

  // The proxy's stop raised, or returned something that is not a receipt.
  predicate ProxyStopFailed(a: Access)
  {
    a.proxy && (a.world.halt.Broken? || a.world.halt == Halted(false))
  }

  lemma FailureStays(a: Access, c: Call)
    requires ProxyStopFailed(a) && !a.stopped
    ensures var b := CallStep(a, c);
      ProxyStopFailed(b) && !b.stopped && b.token == a.token && (a.world.listener && a.world.halt.Broken? ==> b.world.listener)
  {
  }

  lemma {:induction false} FailedForGood(a: Access, calls: seq<Call>)
    requires ProxyStopFailed(a) && !a.stopped
    ensures ProxyStopFailed(RunCalls(a, calls)) && !RunCalls(a, calls).stopped
  {
    if calls != [] {
      FailedForGood(a, calls[..|calls| - 1]);
      FailureStays(RunCalls(a, calls[..|calls| - 1]), calls[|calls| - 1]);
    }
  }

  /** Whether repeating `stop` can still work: exactly as long as the proxy's own stop has not failed. A failure there is
      final, every other one can be tried again. */
  lemma StoppableExactly(a: Access)
    requires Safe(a)
    ensures CanBeStopped(a) <==> !ProxyStopFailed(a)
  {
    if ProxyStopFailed(a) {
      forall calls
        ensures !RunCalls(a, calls).stopped
      {
        FailedForGood(a, calls);
      }
    } else {
      var calls := [StopCall(StopOutcome(true, Confirmed, Returns(true), Written))];
      assert calls[..0] == [];
      assert RunCalls(a, calls) == CallStep(a, calls[0]);
    }
  }

  /** Once stopped, nothing ever starts and nothing changes again. */
  lemma {:induction false} StoppedForGood(a: Access, calls: seq<Call>)
    requires a.stopped
    ensures RunCalls(a, calls) == a
  {
    if calls != [] {
      StoppedForGood(a, calls[..|calls| - 1]);
    }
  }

  class PublicEgressAccess {
    var proxy: bool
    var relayStarted: bool
    var stopped: bool
    var token: bool
    var world: World  // what the calls below meet and leave outside

    ghost function View(): Access
      reads this
    {
      Access(proxy, relayStarted, stopped, token, world)
    }

    constructor ()
      ensures View() == FRESH
    {
      proxy, relayStarted, stopped, token := false, false, false, true;
      world := World(0, false, false, false, false, Serving);
    }

    method StartAccess(o: StartOutcome, cleanup: StopOutcome) returns (ok: bool)
      modifies this
      ensures (View(), ok) == Start(old(View()), o, cleanup)
    {
      if proxy || stopped {
        return false;
      }
      if o.ProxyNotCreated? {
        return false;
      }
      proxy := true;
      world := world.(proxies := world.proxies + 1);
      match o {
        case ProxyStartFails(bound) => world := world.(listener := bound);
        case PortInvalid => world := world.(listener := true);
        case RelayFails(created) => world := world.(listener := true, relay := created);
        case RelayStarts =>
          world := world.(listener := true, relay := true);
          relayStarted := true;
          return true;
      }
      var _ := StopAccess(cleanup);
      return false;
    }

    method StopAccess(o: StopOutcome) returns (ok: bool)
      modifies this
      ensures (View(), ok) == Stop(old(View()), o)
    {
      hide ListenerAfter, HaltAfter;
      if stopped {
        return true;
      }
      ok := true;
      var created := proxy;
      if created {
        world := world.(revoked := true);
        ok := o.closes;
      }
      var relayRemoved := false;
      match o.removal {
        case NotConfirmed(gone) =>
          world := world.(relay := world.relay && !gone);
          ok := false;
        case Confirmed =>
          world := world.(relay := false);
          relayRemoved := true;
          relayStarted := false;
      }
      if relayRemoved && created {
        var receipt := HaltProxy(o.proxyStop);
        if receipt != Some(true) {
          ok := false;
        } else if o.write.Written? {
          world := world.(receipt := true);
          proxy := false;
        } else {
          world := world.(receipt := world.receipt || o.write.linked);
          ok := false;
        }
      }
      if relayRemoved && (!created || !proxy) {
        token := false;
        stopped := true;
      }
    }

    // The call of the proxy's stop: None if it raises, otherwise whether the receipt is valid.
    method HaltProxy(first: ProxyStop) returns (receipt: Option<bool>)
      modifies this`world
      ensures world == old(world).(halt := HaltAfter(old(world.halt), first), listener := ListenerAfter(old(world), first))
      ensures receipt == if world.halt.Halted? then Some(world.halt.validReceipt) else None
    {
      if world.halt.Serving? {
        match first {
          case Raises(released) => world := world.(halt := Broken, listener := world.listener && !released);
          case Returns(valid) => world := world.(halt := Halted(valid), listener := false);
        }
      }
      return if world.halt.Halted? then Some(world.halt.validReceipt) else None;
    }
  }
}
