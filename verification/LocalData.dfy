/** Clearing what the phone keeps about one host (local-data.ts, `clearHostLocalData`): each call waits for the previous
    call for the same host, found through a map that forgets a call once it has settled. */
module LocalData {
  import opened Options

  type Host = string

  datatype Phase = Waiting | Running | Settled

  datatype Operation = Operation(host: Host, previous: Option<nat>, phase: Phase)

  datatype Cleanups = Cleanups(operations: seq<Operation>, last: map<Host, nat>)

  datatype CleanupEvent =
    | Request(host: Host)
    | Start(operation: nat)
    | Settle(operation: nat)
    | Forget(operation: nat)  // the `finally` of a settled operation, at some later moment

  function Get(last: map<Host, nat>, host: Host): Option<nat>
  {
    if host in last then Some(last[host]) else None
  }

  predicate MayStart(c: Cleanups, i: nat)
  {
    && i < |c.operations| && c.operations[i].phase == Waiting
    && (c.operations[i].previous == None ||
        (c.operations[i].previous.value < |c.operations| && c.operations[c.operations[i].previous.value].phase == Settled))
  }

  function CleanupStep(c: Cleanups, e: CleanupEvent): Cleanups
  {
    match e
    case Request(host) =>
      Cleanups(c.operations + [Operation(host, Get(c.last, host), Waiting)], c.last[host := |c.operations|])
    case Start(i) =>
      if MayStart(c, i) then c.(operations := c.operations[i := c.operations[i].(phase := Running)]) else c
    case Settle(i) =>
      if i < |c.operations| && c.operations[i].phase == Running then
        c.(operations := c.operations[i := c.operations[i].(phase := Settled)])
      else c
    case Forget(i) =>
      if i < |c.operations| && c.operations[i].phase == Settled && Get(c.last, c.operations[i].host) == Some(i) then
        c.(last := c.last - {c.operations[i].host})
      else c
  }

  function CleanupRun(c: Cleanups, events: seq<CleanupEvent>): Cleanups
  {
    if events == [] then c else CleanupStep(CleanupRun(c, events[..|events| - 1]), events[|events| - 1])
  }

  const NONE_YET := Cleanups([], map[])

  // Operation `k` comes before `j`, for the same host, and has not settled.
  predicate Before(c: Cleanups, k: nat, j: nat)
  {
    k < j < |c.operations| && c.operations[k].host == c.operations[j].host && c.operations[k].phase != Settled
  }

  predicate Follows(c: Cleanups, k: nat, j: nat)
    requires j < |c.operations|
  {
    c.operations[j].phase == Waiting && c.operations[j].previous.Some? && k <= c.operations[j].previous.value
  }

  ghost predicate Chained(c: Cleanups)
  {
    && (forall j: nat :: j < |c.operations| && c.operations[j].previous.Some? ==>
          c.operations[j].previous.value < j
          && c.operations[c.operations[j].previous.value].host == c.operations[j].host)
    && (forall k: nat, j: nat :: Before(c, k, j) ==> Follows(c, k, j))
  }

  ghost predicate LastKnown(c: Cleanups)
  {
    && (forall h :: h in c.last ==> c.last[h] < |c.operations| && c.operations[c.last[h]].host == h)
    && (forall k :: 0 <= k < |c.operations| && c.operations[k].phase != Settled ==>
          c.operations[k].host in c.last && k <= c.last[c.operations[k].host])
  }

  ghost predicate CleanupsInv(c: Cleanups)
  {
    Chained(c) && LastKnown(c)
  }

  lemma CleanupStepKeeps(c: Cleanups, e: CleanupEvent)
    requires CleanupsInv(c)
    ensures CleanupsInv(CleanupStep(c, e))
  {
    match e
    case Request(host) => RequestKeeps(c, host);
    case Start(i) => StartKeeps(c, i);
    case Settle(i) => SettleKeeps(c, i);
    case Forget(i) => ForgetKeeps(c, i);
  }

  lemma RequestKeeps(c: Cleanups, host: Host)
    requires CleanupsInv(c)
    ensures CleanupsInv(CleanupStep(c, Request(host)))
  {
    var c', n := CleanupStep(c, Request(host)), |c.operations|;
    assert forall i :: 0 <= i < n ==> c'.operations[i] == c.operations[i];
    forall k: nat, j: nat | Before(c', k, j)
      ensures Follows(c', k, j)
    {
      if j < n {
        assert Before(c, k, j);
      }
    }
  }

  lemma StartKeeps(c: Cleanups, i: nat)
    requires CleanupsInv(c)
    ensures CleanupsInv(CleanupStep(c, Start(i)))
  {
    var c' := CleanupStep(c, Start(i));
    if c' != c {
      forall k: nat, j: nat | Before(c', k, j)
        ensures Follows(c', k, j)
      {
        assert Before(c, k, j) && Follows(c, k, j);
        if j == i {
          NothingBefore(c, i, k);
        }
      }
    }
  }

  // An operation that may start has nothing before it.
  lemma NothingBefore(c: Cleanups, i: nat, k: nat)
    requires CleanupsInv(c) && MayStart(c, i)
    ensures !Before(c, k, i)
  {
    assert Before(c, k, i) ==> Follows(c, k, i);
    if c.operations[i].previous.Some? {
      var p := c.operations[i].previous.value;
      assert Before(c, k, i) && k < p ==> Before(c, k, p);
      assert Before(c, k, p) ==> Follows(c, k, p);
    }
  }

  lemma SettleKeeps(c: Cleanups, i: nat)
    requires CleanupsInv(c)
    ensures CleanupsInv(CleanupStep(c, Settle(i)))
  {
    var c' := CleanupStep(c, Settle(i));
    forall k: nat, j: nat | Before(c', k, j)
      ensures Follows(c', k, j)
    {
      assert Before(c, k, j) && Follows(c, k, j);
    }
  }

  lemma ForgetKeeps(c: Cleanups, i: nat)
    requires CleanupsInv(c)
    ensures CleanupsInv(CleanupStep(c, Forget(i)))
  {
    var c' := CleanupStep(c, Forget(i));
    forall k: nat, j: nat | Before(c', k, j)
      ensures Follows(c', k, j)
    {
      assert Before(c, k, j);
    }
    if c' != c {
      forall k | 0 <= k < |c.operations| && c.operations[k].phase != Settled
        ensures c.operations[k].host in c'.last
      {
        SettledHasNothingBefore(c, i, k);
      }
    }
  }

  lemma SettledHasNothingBefore(c: Cleanups, i: nat, k: nat)
    requires CleanupsInv(c) && i < |c.operations| && c.operations[i].phase == Settled
    ensures !Before(c, k, i)
  {
    assert Before(c, k, i) ==> Follows(c, k, i);
  }

  predicate UnderWay(c: Cleanups, i: nat, host: Host)
  {
    i < |c.operations| && c.operations[i].phase == Running && c.operations[i].host == host
  }

  /** Over every interleaving, at most one cleanup per host is under way, and one under way is the first that has not
      settled; forgetting a settled call never lets a later one overtake. */
  lemma {:induction false} SerialPerHost(events: seq<CleanupEvent>)
    ensures var c := CleanupRun(NONE_YET, events);
      && CleanupsInv(c)
      && (forall i: nat, j: nat, host :: UnderWay(c, i, host) && UnderWay(c, j, host) ==> i == j)
      && (forall k: nat, i: nat, host :: UnderWay(c, i, host) ==> !Before(c, k, i))
  {
    if events != [] {
      SerialPerHost(events[..|events| - 1]);
      CleanupStepKeeps(CleanupRun(NONE_YET, events[..|events| - 1]), events[|events| - 1]);
    }
    OneRunning(CleanupRun(NONE_YET, events));
  }

  lemma OneRunning(c: Cleanups)
    requires CleanupsInv(c)
    ensures forall i: nat, j: nat, host :: UnderWay(c, i, host) && UnderWay(c, j, host) ==> i == j
  {
    forall i: nat, j: nat, host | UnderWay(c, i, host) && UnderWay(c, j, host)
      ensures i == j
    {
      assert i < j ==> Before(c, i, j);
      assert j < i ==> Before(c, j, i);
    }
  }

  /** In every reachable state starting an operation gets it under way exactly if it has not started and every earlier one
      for its host has settled, well or badly: each waits for all before it and for nothing else. */
  lemma StartsExactlyInTurn(events: seq<CleanupEvent>, i: nat)
    requires i < |CleanupRun(NONE_YET, events).operations|
    ensures var c := CleanupRun(NONE_YET, events);
      var o := c.operations[i];
      o.phase != Running ==>
        (UnderWay(CleanupStep(c, Start(i)), i, o.host) <==>
           && o.phase == Waiting
           && forall k :: 0 <= k < i && c.operations[k].host == o.host ==> c.operations[k].phase == Settled)
  {
    var c := CleanupRun(NONE_YET, events);
    SerialPerHost(events);
    hide CleanupRun;
    if MayStart(c, i) {
      forall k | 0 <= k < i && c.operations[k].host == c.operations[i].host
        ensures c.operations[k].phase == Settled
      {
        NothingBefore(c, i, k);
      }
    }
  }

  /** A settled operation takes its host off the map exactly if no later one has taken its place there, and no other host. */
  lemma ForgetsOnlyItself(c: Cleanups, i: nat)
    requires i < |c.operations| && c.operations[i].phase == Settled
    ensures var c', host := CleanupStep(c, Forget(i)), c.operations[i].host;
      && c'.operations == c.operations
      && (host in c'.last <==> host in c.last && c.last[host] != i)
      && (forall h :: h in c'.last ==> h in c.last && c'.last[h] == c.last[h])
      && (forall h :: h in c.last && h != host ==> h in c'.last)
  {
  }

  // Only its own settling ends an operation that is under way.
  lemma UnderWayStays(c: Cleanups, e: CleanupEvent, i: nat, host: Host)
    requires UnderWay(c, i, host) && e != Settle(i)
    ensures UnderWay(CleanupStep(c, e), i, host)
  {
  }

  class LocalData {
    var operations: seq<Operation>
    var cleanups: map<Host, nat>

    ghost function View(): Cleanups
      reads this
    {
      Cleanups(operations, cleanups)
    }

    constructor ()
      ensures View() == NONE_YET
    {
      operations, cleanups := [], map[];
    }

    method ClearHostLocalData(host: Host) returns (operation: nat)
      modifies this
      ensures View() == CleanupStep(old(View()), Request(host)) && operation == |old(operations)|
    {
      var previous := if host in cleanups then Some(cleanups[host]) else None;
      operation := |operations|;
      operations := operations + [Operation(host, previous, Waiting)];
      cleanups := cleanups[host := operation];
    }

    method ForgetOperation(operation: nat)
      requires operation < |operations| && operations[operation].phase == Settled
      modifies this
      ensures View() == CleanupStep(old(View()), Forget(operation))
    {
      var host := operations[operation].host;
      if host in cleanups && cleanups[host] == operation {
        cleanups := cleanups - {host};
      }
    }
  }
}
