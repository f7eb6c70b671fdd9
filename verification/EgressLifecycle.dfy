/** The verifier's egress: activated at most once, and torn down when the environment stops (pico_agent.py,
    `install_verifier_egress_lifecycle`). The activation lock serialises an activation with the part of the stop task
    that tears egress down; the other parts of the stop task are separate steps, so an activation may fall between. */
module EgressLifecycle {
  import opened Options
  import opened EgressAccess

  datatype Activation = Pending | Active | Failed | Stopping

  // Where the stop task is: before each of its four parts, or finished.
  datatype Stage = ClearHook | TearDown | RestoreNetworks | OriginalStop | Finished

  datatype StopTask = StopTask(delete: bool, stage: Stage, failed: bool)

  datatype TearDownRecord = TearDownRecord(from: Activation, cleared: bool)

  datatype Lifecycle = Lifecycle(
    access: Access, activation: Activation,
    hook: bool,  // the activation is still registered with the environment
    env: bool,   // the proxy variables, with the token, are set for verifier commands
    networks: bool,
    task: Option<StopTask>,
    originalStops: seq<bool>,  // calls of the wrapped stop, with the delete policy each was given
    tearDown: Option<TearDownRecord>)  // what the tear-down found and what it managed

  datatype ActivateOutcome = ActivateOutcome(
    start: StartOutcome, startCleanup: StopOutcome, topology: bool, envValid: bool, envCleared: bool,
    cleanup: StopOutcome)

  datatype PartOutcome = PartOutcome(hookCleared: bool, envCleared: bool, stop: StopOutcome, restored: bool,
                                     originalStopped: bool)

  datatype Event = Activate(activation: ActivateOutcome) | RequestStop(delete: bool) | NextPart(part: PartOutcome)

  datatype Reply = Ok | Raised | Off

  const INSTALLED := Lifecycle(FRESH, Pending, true, false, true, None, [], None)

  function StepActivate(l: Lifecycle, o: ActivateOutcome): (Lifecycle, Reply)
  {
    if l.activation == Active then (l, Ok)
    else if l.activation != Pending then (l, Raised)
    else
      var (started, ok) := Start(l.access, o.start, o.startCleanup);
      if ok && o.topology && !l.env && o.envValid then
        (l.(access := started, env := true, activation := Active), Ok)
      else
        (l.(access := Stop(started, o.cleanup).0, env := l.env && !o.envCleared, activation := Failed), Raised)
  }

  function StepRequestStop(l: Lifecycle, delete: bool): (Lifecycle, Reply)
  {
    if l.task == None then (l.(task := Some(StopTask(delete, ClearHook, false))), Ok)
    else if l.task.value.delete != delete then (l, Raised)
    else (l, Ok)  // waits for the same task
  }

  function Advance(t: StopTask, stage: Stage, ok: bool): Option<StopTask>
  {
    Some(t.(stage := stage, failed := t.failed || !ok))
  }

  function StepTearDown(l: Lifecycle, t: StopTask, o: PartOutcome): Lifecycle
  {
    var (stopped, ok) := Stop(l.access, o.stop);
    l.(activation := Stopping, env := l.env && !o.envCleared, access := stopped,
       task := Advance(t, RestoreNetworks, ok && o.envCleared),
       tearDown := Some(TearDownRecord(l.activation, o.envCleared)))
  }

  function StepPart(l: Lifecycle, o: PartOutcome): (Lifecycle, Reply)
  {
    if l.task == None then (l, Off)
    else
      var t := l.task.value;
      match t.stage
      case ClearHook => (l.(hook := l.hook && !o.hookCleared, task := Advance(t, TearDown, o.hookCleared)), Ok)
      case TearDown =>
        (StepTearDown(l, t, o), Ok)
      case RestoreNetworks =>
        (l.(networks := l.networks && !o.restored, task := Advance(t, OriginalStop, o.restored)), Ok)
      case OriginalStop =>
        (l.(originalStops := l.originalStops + [t.delete], task := Advance(t, Finished, o.originalStopped)),
         if t.failed || !o.originalStopped then Raised else Ok)
      case Finished => (l, Off)
  }

  function Step(l: Lifecycle, e: Event): (Lifecycle, Reply)
  {
    match e
    case Activate(o) => StepActivate(l, o)
    case RequestStop(delete) => StepRequestStop(l, delete)
    case NextPart(o) => StepPart(l, o)
  }

  function Run(l: Lifecycle, events: seq<Event>): Lifecycle
  {
    if events == [] then l else Step(Run(l, events[..|events| - 1]), events[|events| - 1]).0
  }

  // ---- What every step keeps ----

  predicate TornDown(l: Lifecycle)
  {
    l.task.Some? && !l.task.value.stage.ClearHook? && !l.task.value.stage.TearDown?
  }

  // The tear-down found egress active and could not clear the variables.
  predicate LeftSet(l: Lifecycle)
  {
    l.tearDown.Some? && l.tearDown.value.from == Active && !l.tearDown.value.cleared
  }

  // Commands of the verifier get the variables, and through the relay and the listener they reach a proxy that has not
  // been revoked; it serves them until its lifetime is over.
  predicate Usable(l: Lifecycle)
  {
    && l.env && l.access.token
    && l.access.world.relay && l.access.world.listener
    && l.access.proxy && !l.access.world.revoked && l.access.world.halt.Serving?
  }

  predicate Inv(l: Lifecycle)
  {
    && Safe(l.access)
    && (l.tearDown.Some? <==> TornDown(l))
    && (l.env <==> l.activation == Active || LeftSet(l))
    && (LeftSet(l) ==> l.access.world.revoked)
    && (l.activation == Pending ==> l.access == FRESH && !l.env)
    && (l.activation == Active ==> Usable(l) && l.access.relayStarted && !l.access.stopped)
    && (l.activation == Stopping <==> TornDown(l))
    && l.originalStops == (if l.task.Some? && l.task.value.stage == Finished then [l.task.value.delete] else [])
    && (TornDown(l) && !l.task.value.failed ==> l.access.stopped && !l.env && !l.hook)
    && (l.task.Some? && l.task.value.stage == TearDown && !l.task.value.failed ==> !l.hook)
    && (TornDown(l) && !l.task.value.stage.RestoreNetworks? && !l.task.value.failed ==> !l.networks)
  }

  lemma StepKeeps(l: Lifecycle, e: Event)
    requires Inv(l)
    ensures Inv(Step(l, e).0)
  {
    hide Start, Stop, Safe, StepPart;
    match e
    case Activate(o) =>
      if l.activation == Pending {
        ActivateKeeps(l, o);
      }
    case RequestStop(delete) =>
    case NextPart(o) => PartKeeps(l, o);
  }

  lemma PartKeeps(l: Lifecycle, o: PartOutcome)
    requires Inv(l)
    ensures Inv(StepPart(l, o).0)
  {
    hide Start, Stop, Safe, StepTearDown;
    if l.task.Some? && l.task.value.stage == TearDown {
      TearDownKeeps(l, o);
    }
  }

  lemma ActivateKeeps(l: Lifecycle, o: ActivateOutcome)
    requires Inv(l) && l.activation == Pending
    ensures Inv(StepActivate(l, o).0)
  {
    CallKeeps(l.access, StartCall(o.start, o.startCleanup));
    CallKeeps(Start(l.access, o.start, o.startCleanup).0, StopCall(o.cleanup));
  }

  lemma TearDownKeeps(l: Lifecycle, o: PartOutcome)
    requires Inv(l) && l.task.Some? && l.task.value.stage == TearDown
    ensures Inv(StepTearDown(l, l.task.value, o))
  {
    hide Start, Stop, Safe;
    StopSafe(l.access, o.stop);
  }

  lemma StopSafe(a: Access, o: StopOutcome)
    requires Safe(a)
    ensures Safe(Stop(a, o).0) && (Stop(a, o).1 ==> Stop(a, o).0.stopped)
    ensures a.proxy ==> Stop(a, o).0.world.revoked
  {
    CallKeeps(a, StopCall(o));
  }

  /** Over every interleaving of activations and stop requests, with every external step free to fail: verifier commands
      can use egress exactly while the activation is active, so never after a tear-down, however much of it failed, since
      it revokes the proxy before anything else. The variables are set exactly while active, or after a tear-down that
      found egress active and could not clear them. The wrapped stop is called at most once, last, with the delete policy
      of the first request; and a stop task that reports no failure has left nothing behind. */
  lemma {:induction false} LifecycleInvariant(events: seq<Event>)
    ensures var l := Run(INSTALLED, events);
      && Inv(l)
      && (l.env <==> l.activation == Active || LeftSet(l))
      && (Usable(l) <==> l.activation == Active)
      && |l.originalStops| <= 1
      && (l.access.world.relay ==> l.access.world.listener)
      && (l.task.Some? && l.task.value.stage == Finished && !l.task.value.failed ==>
            && l.originalStops == [l.task.value.delete]
            && !l.env && !l.hook && !l.networks
            && !l.access.world.relay && !l.access.world.listener && !l.access.token
            && (l.access.world.proxies > 0 ==> l.access.world.receipt))
  {
    if events != [] {
      LifecycleInvariant(events[..|events| - 1]);
      StepKeeps(Run(INSTALLED, events[..|events| - 1]), events[|events| - 1]);
    }
  }

  /** An activation succeeds exactly if egress is active already, or is pending and starts, the topology holds and the
      variables can be set; the verifier can then use egress. A pending one that does not succeed has failed for good, with
      the proxy it created, if any, revoked. */
  lemma ActivationMeaning(events: seq<Event>, o: ActivateOutcome)
    ensures var l := Run(INSTALLED, events);
      var (m, reply) := Step(l, Activate(o));
      && (reply == Ok <==> l.activation == Active ||
                           (l.activation == Pending && o.start.RelayStarts? && o.topology && o.envValid))
      && (reply == Ok ==> m.activation == Active && Usable(m))
      && (reply != Ok ==> reply == Raised && !Usable(m))
      && (reply != Ok && l.activation == Pending ==>
            m.activation == Failed && !m.env && (m.access.proxy ==> m.access.world.revoked))
  {
    var l := Run(INSTALLED, events);
    LifecycleInvariant(events);
    hide Run;
    StepKeeps(l, Activate(o));
    StartMeaning(l.access, o.start, o.startCleanup);
    StopMeaning(Start(l.access, o.start, o.startCleanup).0, o.cleanup);
    hide Start, Stop;
  }

  lemma RunNext(l: Lifecycle, events: seq<Event>, e: Event)
    ensures Run(l, events + [e]) == Step(Run(l, events), e).0
    ensures Run(l, []) == l
  {
    hide Step;
    assert (events + [e])[..|events|] == events;
  }

  function StopEvents(delete: bool, hook: PartOutcome, tear: PartOutcome, restore: PartOutcome, original: PartOutcome):
    seq<Event>
  {
    [] + [RequestStop(delete)] + [NextPart(hook)] + [NextPart(tear)] + [NextPart(restore)] + [NextPart(original)]
  }

  /** A requested stop goes through all its parts whatever fails in them: the wrapped stop is called once, with the policy
      asked for, and the stop task has failed exactly if one of them did. */
  lemma StopTaskFinishes(l: Lifecycle, delete: bool, hook: PartOutcome, tear: PartOutcome, restore: PartOutcome,
                         original: PartOutcome)
    requires Inv(l) && l.task == None
    ensures var m := Run(l, StopEvents(delete, hook, tear, restore, original));
      && m.task.Some? && m.task.value.stage == Finished && m.originalStops == [delete]
      && (m.task.value.failed <==> !(hook.hookCleared && tear.envCleared && Stop(l.access, tear.stop).1
                                     && restore.restored && original.originalStopped))
      && m.access == Stop(l.access, tear.stop).0 && m.activation == Stopping
      && (hook.hookCleared ==> !m.hook) && (tear.envCleared ==> !m.env) && (restore.restored ==> !m.networks)
  {
    hide Stop, Start, Safe, Run;
    var e0, e1, e2, e3 := RequestStop(delete), NextPart(hook), NextPart(tear), NextPart(restore);
    RunNext(l, [], e0);
    RunNext(l, [] + [e0], e1);
    RunNext(l, [] + [e0] + [e1], e2);
    RunNext(l, [] + [e0] + [e1] + [e2], e3);
    RunNext(l, [] + [e0] + [e1] + [e2] + [e3], NextPart(original));
    StopBegins(l, delete, hook, tear);
    var m := Run(l, [] + [e0] + [e1] + [e2]);
    StopEnds(m, restore, original);
    hide Inv, Step;
  }

  lemma StopBegins(l: Lifecycle, delete: bool, hook: PartOutcome, tear: PartOutcome)
    requires l.task == None
    ensures var m := Step(Step(Step(l, RequestStop(delete)).0, NextPart(hook)).0, NextPart(tear)).0;
      && m.task == Some(StopTask(delete, RestoreNetworks,
                                 !(hook.hookCleared && Stop(l.access, tear.stop).1 && tear.envCleared)))
      && m.access == Stop(l.access, tear.stop).0 && m.activation == Stopping && m.originalStops == l.originalStops
      && m.networks == l.networks && (hook.hookCleared ==> !m.hook) && (tear.envCleared ==> !m.env)
  {
    hide Stop, Start;
  }

  lemma StopEnds(m: Lifecycle, restore: PartOutcome, original: PartOutcome)
    requires m.task.Some? && m.task.value.stage == RestoreNetworks
    ensures var n := Step(Step(m, NextPart(restore)).0, NextPart(original)).0;
      && n.task == Some(m.task.value.(stage := Finished, failed := m.task.value.failed ||
                                                                   !(restore.restored && original.originalStopped)))
      && n.originalStops == m.originalStops + [m.task.value.delete]
      && n.access == m.access && n.activation == m.activation && n.hook == m.hook && n.env == m.env
      && (restore.restored ==> !n.networks)
  {
    hide Stop, Start;
  }

  lemma StepAfterTearDown(l: Lifecycle, e: Event)
    requires Inv(l) && TornDown(l)
    ensures var m := Step(l, e).0;
      && TornDown(m) && m.access == l.access && (m.env ==> l.env)
      && m.task.value.delete == l.task.value.delete && (l.task.value.failed ==> m.task.value.failed)
      && l.originalStops <= m.originalStops
  {
    hide Start, Stop, Safe;
  }

  /** Nothing starts after stopping: once the stop task has torn egress down, no later step starts or stops it again,
      sets the variables, or leaves the stopping state. */
  lemma {:induction false} NothingStartsAfterStopping(l: Lifecycle, events: seq<Event>)
    requires Inv(l) && TornDown(l)
    ensures var m := Run(l, events);
      && Inv(m) && TornDown(m) && m.access == l.access && m.activation == Stopping && (m.env ==> l.env)
      && m.task.value.delete == l.task.value.delete && (l.task.value.failed ==> m.task.value.failed)
      && l.originalStops <= m.originalStops
  {
    hide Start, Stop, Safe, Step;
    if events != [] {
      var before := Run(l, events[..|events| - 1]);
      NothingStartsAfterStopping(l, events[..|events| - 1]);
      StepKeeps(before, events[|events| - 1]);
      StepAfterTearDown(before, events[|events| - 1]);
    }
  }

  lemma StepAfterActivation(l: Lifecycle, e: Event)
    requires l.activation != Pending
    ensures var m := Step(l, e).0;
      && m.activation != Pending && m.access.world.proxies == l.access.world.proxies
      && (e.Activate? ==> m == l)
  {
    match e
    case Activate(o) =>
    case RequestStop(delete) =>
    case NextPart(o) => StopCreatesNothing(l.access, o.stop);
  }

  lemma StopCreatesNothing(a: Access, o: StopOutcome)
    ensures Stop(a, o).0.world.proxies == a.world.proxies
  {
  }

  /** Egress is started at most once: after an activation has been attempted, whatever its outcome, a later one changes
      nothing, and no proxy is ever created again. */
  lemma {:induction false} ActivatedAtMostOnce(l: Lifecycle, events: seq<Event>, again: ActivateOutcome)
    requires l.activation != Pending
    ensures var m := Run(l, events);
      && m.activation != Pending && m.access.world.proxies == l.access.world.proxies
      && Step(m, Activate(again)).0 == m
  {
    hide Start, Stop, StepPart;
    if events != [] {
      var before := Run(l, events[..|events| - 1]);
      ActivatedAtMostOnce(l, events[..|events| - 1], again);
      StepAfterActivation(before, events[|events| - 1]);
    }
    StepAfterActivation(Run(l, events), Activate(again));
  }

  class VerifierLifecycle {
    const access: PublicEgressAccess
    var activation: Activation
    var hook: bool
    var env: bool
    var networks: bool
    var task: Option<StopTask>
    var originalStops: seq<bool>
    ghost var tearDown: Option<TearDownRecord>

    ghost function View(): Lifecycle
      reads this, access
    {
      Lifecycle(access.View(), activation, hook, env, networks, task, originalStops, tearDown)
    }

    constructor ()
      ensures View() == INSTALLED && fresh(access)
    {
      access := new PublicEgressAccess();
      activation, hook, env, networks, task, originalStops := Pending, true, false, true, None, [];
      tearDown := None;
    }

    method ActivateEgress(o: ActivateOutcome) returns (reply: Reply)
      modifies this, access
      ensures (View(), reply) == Step(old(View()), Activate(o))
    {
      hide Start, Stop;
      if activation == Active {
        return Ok;
      }
      if activation != Pending {
        return Raised;
      }
      var ready := access.StartAccess(o.start, o.startCleanup);
      if ready && o.topology && !env && o.envValid {
        env := true;
        activation := Active;
        return Ok;
      }
      activation := Failed;
      if o.envCleared {
        env := false;
      }
      var _ := access.StopAccess(o.cleanup);
      return Raised;
    }

    method RequestStopTask(delete: bool) returns (reply: Reply)
      modifies this
      ensures (View(), reply) == Step(old(View()), RequestStop(delete))
    {
      if task == None {
        task := Some(StopTask(delete, ClearHook, false));
      } else if task.value.delete != delete {
        return Raised;
      }
      return Ok;
    }

    method TearDownEgress(o: PartOutcome)
      requires task.Some? && task.value.stage == TearDown
      modifies this, access
      ensures View() == StepTearDown(old(View()), old(task.value), o)
    {
      hide Stop;
      tearDown := Some(TearDownRecord(activation, o.envCleared));
      activation := Stopping;
      env := env && !o.envCleared;
      var ok := access.StopAccess(o.stop);
      var failed := task.value.failed || !ok || !o.envCleared;
      task := Some(task.value.(stage := RestoreNetworks, failed := failed));
    }

    // One part of `stop_once`.
    method StopOnce(o: PartOutcome) returns (reply: Reply)
      requires task.Some? && task.value.stage != Finished
      modifies this, access
      ensures (View(), reply) == Step(old(View()), NextPart(o))
    {
      hide Stop, StepTearDown;
      var current := task.value;
      match current.stage {
        case ClearHook =>
          hook := hook && !o.hookCleared;
          task := Some(current.(stage := TearDown, failed := current.failed || !o.hookCleared));
        case TearDown =>
          TearDownEgress(o);
        case RestoreNetworks =>
          networks := networks && !o.restored;
          task := Some(current.(stage := OriginalStop, failed := current.failed || !o.restored));
        case OriginalStop =>
          originalStops := originalStops + [current.delete];
          task := Some(current.(stage := Finished, failed := current.failed || !o.originalStopped));
          return if current.failed || !o.originalStopped then Raised else Ok;
      }
      return Ok;
    }
  }
}
