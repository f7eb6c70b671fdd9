/** The module state of the artifact cache, updated in place, one method for each turn (artifact-cache.ts). */
module ArtifactCacheState {
  import opened Options
  import opened LocalData
  import opened ArtifactCache

  predicate Wanted(d: Download, host: Option<Host>)
  {
    host == None || d.host == host.value
  }

  lemma AbortNone(downloads: map<nat, Download>)
    ensures AbortThese(downloads, {}) == downloads
  {
  }

  lemma AbortOneMore(was: map<nat, Download>, ids: set<nat>, id: nat)
    requires id in was && id !in ids
    ensures var now := AbortThese(was, ids);
      && now.Keys == was.Keys && now[id] == was[id]
      && now[id := now[id].(aborted := true)] == AbortThese(was, ids + {id})
      && now[id := now[id].(aborted := true)].Keys == was.Keys
  {
  }

  class ArtifactCacheState {
    var cacheEpoch: nat
    var hostEpochs: map<Host, nat>
    var clearingHosts: set<Host>
    var hostClears: map<nat, HostClear>
    var allClear: Option<set<nat>>
    var downloads: map<nat, Download>
    var begun: nat
    ghost var partials: map<nat, Host>
    var targets: map<(Host, string), nat>
    ghost var cleanups: Cleanups

    ghost function View(): Cache
      reads this
    {
      Cache(Clears(cacheEpoch, hostEpochs, clearingHosts, hostClears, allClear), downloads, begun,
            Disk(partials, targets), cleanups)
    }

    constructor ()
      ensures View() == EMPTY
    {
      cacheEpoch, hostEpochs, clearingHosts, hostClears, allClear := 0, map[], {}, map[], None;
      downloads, begun, partials, targets, cleanups := map[], 0, map[], map[], NONE_YET;
    }

    method HostEpoch(host: Host) returns (epoch: nat)
      ensures epoch == EpochOf(View(), host)
    {
      epoch := if host in hostEpochs then hostEpochs[host] else 0;
    }

    method DownloadArtifact(host: Host, resource: string) returns (id: Option<nat>)
      modifies this
      ensures View() == Step(old(View()), Begin(host, resource))
      ensures id == if View() == old(View()) then None else Some(old(begun))
    {
      if allClear.Some? || host in clearingHosts {
        return None;
      }
      var epoch := HostEpoch(host);
      id := Some(begun);
      downloads := downloads[begun := Download(host, resource, cacheEpoch, epoch, false, Starting)];
      begun := begun + 1;
    }

    method CheckCurrent(id: nat) returns (current: bool)
      requires id in downloads
      ensures current <==> Check(View(), downloads[id])
    {
      var d := downloads[id];
      var epoch := HostEpoch(d.host);
      current := d.epoch == cacheEpoch && d.hostEpoch == epoch && !d.aborted;
    }

    // The rest of a download's turns; `ok` is false where the turn throws, and `Finally` follows.
    method PrepareTarget(id: nat) returns (ok: bool)
      requires At(View(), id, Starting)
      modifies this
      ensures View() == Step(old(View()), Prepare(id)) && (ok <==> old(Check(View(), downloads[id])))
    {
      ok := CheckCurrent(id);
      if ok {
        var d := downloads[id];
        var next := if (d.host, d.resource) in targets then Reusing else Fetching;
        downloads := downloads[id := d.(stage := next)];
      }
    }

    method ReuseTarget(id: nat, valid: bool) returns (ok: bool)
      requires At(View(), id, Reusing)
      modifies this
      ensures View() == Step(old(View()), Reuse(id, valid)) && (ok <==> old(Check(View(), downloads[id])))
    {
      ok := CheckCurrent(id);
      if ok {
        if valid {
          Forget(id, true);
        } else {
          var d := downloads[id];
          targets := targets - {(d.host, d.resource)};
          downloads := downloads[id := d.(stage := Fetching)];
        }
      }
    }

    method LandPartial(id: nat) returns (ok: bool)
      requires At(View(), id, Fetching) && id in partials
      modifies this
      ensures View() == Step(old(View()), Land(id)) && (ok <==> old(Check(View(), downloads[id])))
    {
      ok := CheckCurrent(id);
      if ok {
        var d := downloads[id];
        if (d.host, d.resource) in targets {
          downloads := downloads[id := d.(stage := Comparing)];
        } else {
          targets := targets[(d.host, d.resource) := id];
          Forget(id, true);
        }
      }
    }

    method Forget(id: nat, deleted: bool)
      requires id in downloads
      modifies this
      ensures View() == Ended(old(View()), id, deleted)
    {
      if deleted {
        partials := partials - {id};
      }
      downloads := downloads - {id};
    }

    // The loop over the downloads that aborts those to wait for.
    method AbortAll(host: Option<Host>) returns (pending: set<nat>)
      modifies this`downloads
      ensures forall id :: id in pending <==> id in old(downloads) && Wanted(old(downloads)[id], host)
      ensures downloads == AbortThese(old(downloads), pending)
    {
      hide AbortThese, Wanted;
      pending := {};
      var left := downloads.Keys;
      ghost var was := downloads;
      AbortNone(was);
      while left != {}
        invariant left <= was.Keys == downloads.Keys
        invariant forall id :: id in pending <==> id in was && id !in left && Wanted(was[id], host)
        invariant downloads == AbortThese(was, pending)
        decreases |left|
      {
        var id :| id in left;
        left := left - {id};
        AbortOneMore(was, pending, id);
        if Wanted(downloads[id], host) {
          downloads := downloads[id := downloads[id].(aborted := true)];
          pending := pending + {id};
        }
      }
    }

    method BeginClearAll()
      modifies this
      ensures View() == Step(old(View()), BeginAllClear)
    {
      if allClear.Some? {
        return;
      }
      cacheEpoch := cacheEpoch + 1;
      var pending := AbortAll(None);
      assert pending == old(downloads).Keys;
      allClear := Some(pending);
    }

    method FinishClearAll(deleted: bool)
      requires allClear.Some? && Drained(View(), allClear.value)
      modifies this
      ensures View() == Step(old(View()), FinishAllClear(deleted))
    {
      if deleted {
        partials, targets := map[], map[];
      }
      allClear := None;
    }

    method BeginClearHost(operation: nat, host: Host)
      requires UnderWay(cleanups, operation, host) && operation !in hostClears
      modifies this
      ensures View() == Step(old(View()), BeginHostClear(operation))
    {
      clearingHosts := clearingHosts + {host};
      var epoch := HostEpoch(host);
      hostEpochs := hostEpochs[host := epoch + 1];
      var pending := AbortAll(Some(host));
      assert pending == OfHost(old(View()), host);
      hostClears := hostClears[operation := HostClear(host, pending)];
    }

    method FinishClearHost(operation: nat, deleted: bool)
      requires operation in hostClears && Drained(View(), hostClears[operation].waiting)
      modifies this
      ensures View() == Step(old(View()), FinishHostClear(operation, deleted))
    {
      var host := hostClears[operation].host;
      if deleted {
        partials := map id | id in partials && partials[id] != host :: partials[id];
        targets := map k | k in targets && k.0 != host :: targets[k];
      }
      clearingHosts := clearingHosts - {host};
      hostClears := hostClears - {operation};
    }
  }
}
