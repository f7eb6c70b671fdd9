/** What the turns of a download come to, and that downloads and clears get through (artifact-cache.ts). */
module ArtifactDelivery {
  import opened Options
  import opened LocalData
  import opened ArtifactCache

  function KeyOf(d: Download): (Host, string)
  {
    (d.host, d.resource)
  }

  // The download may go on: nothing it was started under has been cleared since, and nobody aborted it.
  predicate Current(c: Cache, id: nat)
  {
    id in c.downloads && var d := c.downloads[id];
      && !d.aborted && d.epoch == c.clears.cacheEpoch
      && d.hostEpoch == (if d.host in c.clears.hostEpochs then c.clears.hostEpochs[d.host] else 0)
  }

  // A turn that leaves everything alone but one download and its files.
  predicate OnlyOf(c: Cache, c': Cache, id: nat)
  {
    && c'.clears == c.clears && c'.begun == c.begun && c'.cleanups == c.cleanups
    && c'.downloads - {id} == c.downloads - {id}
    && c'.disk.partials - {id} == c.disk.partials - {id}
  }

  predicate Gone(c: Cache, id: nat)
  {
    id !in c.downloads && id !in c.disk.partials
  }

  predicate StageIs(c: Cache, id: nat, stage: Stage)
  {
    id in c.downloads && c.downloads[id].stage == stage
  }

  /** A current download uses a file that is there: it is validated and kept, or deleted and fetched again. */
  lemma ExistingFileIsReused(c: Cache, id: nat)
    requires Current(c, id)
    ensures c.downloads[id].stage.Starting? ==>
      var c', key := Step(c, Prepare(id)), KeyOf(c.downloads[id]);
      OnlyOf(c, c', id) && c'.disk == c.disk && StageIs(c', id, if key in c.disk.targets then Reusing else Fetching)
    ensures c.downloads[id].stage.Reusing? ==>
      var kept, refetched, key := Step(c, Reuse(id, true)), Step(c, Reuse(id, false)), KeyOf(c.downloads[id]);
      && OnlyOf(c, kept, id) && Gone(kept, id) && kept.disk.targets == c.disk.targets
      && OnlyOf(c, refetched, id) && StageIs(refetched, id, Fetching)
      && refetched.disk == c.disk.(targets := c.disk.targets - {key})
  {
  }

  /** A current download whose partial file passed validation becomes the file of its host and resource, under its own
      name, unless a file got there first, which then stays; either way its partial file is gone at the end. */
  lemma PartialFileLands(c: Cache, id: nat)
    requires Current(c, id) && id in c.disk.partials
    ensures c.downloads[id].stage.Fetching? ==>
      var c', key := Step(c, Land(id)), KeyOf(c.downloads[id]);
      && OnlyOf(c, c', id)
      && (if key in c.disk.targets then c'.disk == c.disk && StageIs(c', id, Comparing)
          else c'.disk.targets == c.disk.targets[key := id] && Gone(c', id))
    ensures c.downloads[id].stage.Comparing? ==>
      var c' := Step(c, Compare(id)); OnlyOf(c, c', id) && c'.disk.targets == c.disk.targets && Gone(c', id)
  {
    assert c.disk.partials - {id} - {id} == c.disk.partials - {id};
    assert c.downloads - {id} - {id} == c.downloads - {id};
  }

  // A turn that may end a download or make it stale: its own failure or abort, or a clear that covers it.
  predicate Disturbs(c: Cache, e: CacheEvent, id: nat)
    requires id in c.downloads
  {
    match e
    case Fail(other, _) => other == id
    case Abort(other) => other == id
    case BeginAllClear => c.clears.allClear == None
    case BeginHostClear(op) =>
      op < |c.cleanups.operations| && c.cleanups.operations[op].host == c.downloads[id].host
    case _ => false
  }

  /** A current download stays current until it fails, is aborted, or a clear of its host or of everything begins; other
      downloads, other hosts' clears and the ends of clears do not touch it. */
  lemma CurrentUntilDisturbed(c: Cache, e: CacheEvent, id: nat)
    requires Numbered(c) && Current(c, id) && !Disturbs(c, e, id)
    ensures var c' := Step(c, e);
      id in c'.downloads ==> Current(c', id) && KeyOf(c'.downloads[id]) == KeyOf(c.downloads[id])
  {
    hide CleanupStep;
  }

  // Exactly these downloads are told to abort.
  predicate AbortsExactly(c: Cache, c': Cache, ids: set<nat>)
  {
    && c'.downloads.Keys == c.downloads.Keys
    && forall id :: id in c.downloads ==>
         c'.downloads[id] == if id in ids then c.downloads[id].(aborted := true) else c.downloads[id]
  }

  /** A clear takes effect in the turn it begins: everything it covers is told to abort and nothing else, it waits for
      exactly those, and no download it covers is current from then on. */
  lemma ClearTakesEffect(c: Cache, op: nat)
    ensures c.clears.allClear == None ==>
      var c' := Step(c, BeginAllClear);
      c'.clears.allClear == Some(c.downloads.Keys) && AbortsExactly(c, c', c.downloads.Keys) && c'.disk == c.disk
    ensures op < |c.cleanups.operations| && c.cleanups.operations[op].phase == Running && op !in c.clears.hostClears ==>
      var c', host := Step(c, BeginHostClear(op)), c.cleanups.operations[op].host;
      && op in c'.clears.hostClears && c'.clears.hostClears[op].host == host && host in c'.clears.clearingHosts
      && (forall id :: id in c'.clears.hostClears[op].waiting <==> id in c.downloads && c.downloads[id].host == host)
      && AbortsExactly(c, c', c'.clears.hostClears[op].waiting) && c'.disk == c.disk
  {
    assert AbortThese(c.downloads, c.downloads.Keys).Keys == c.downloads.Keys;
  }

  // ---- Getting through ----

  lemma {:induction false} RunConcat(c: Cache, a: seq<CacheEvent>, b: seq<CacheEvent>)
    ensures Run(c, a + b) == Run(Run(c, a), b)
  {
    if b == [] {
      assert a + b == a;
    } else {
      hide Step;
      assert (a + b)[..|a + b| - 1] == a + b[..|b| - 1];
      RunConcat(c, a, b[..|b| - 1]);
    }
  }

  lemma RunOne(c: Cache, e: CacheEvent)
    ensures Run(c, [e]) == Step(c, e)
  {
    hide Step;
    assert [e][..0] == [];
  }

  lemma RunNext(c: Cache, a: seq<CacheEvent>, e: CacheEvent)
    ensures Run(c, a + [e]) == Step(Run(c, a), e)
  {
    hide Step;
    assert (a + [e])[..|a|] == a;
  }

  // The turns of an undisturbed download of an id: the file is there and sound, or is fetched.
  function Turns(host: Host, resource: string, id: nat, present: bool): seq<CacheEvent>
  {
    [Begin(host, resource), Prepare(id)] + (if present then [Reuse(id, true)] else [Write(id), Land(id)])
  }

  lemma TurnsRun(c: Cache, host: Host, resource: string, id: nat)
    ensures var d := Step(Step(c, Begin(host, resource)), Prepare(id));
      && Run(c, Turns(host, resource, id, true)) == Step(d, Reuse(id, true))
      && Run(c, Turns(host, resource, id, false)) == Step(Step(d, Write(id)), Land(id))
  {
    hide Step;
    var e0, e1 := Begin(host, resource), Prepare(id);
    RunOne(c, e0);
    RunNext(c, [e0], e1);
    assert [e0] + [e1] == [e0, e1];
    RunNext(c, [e0, e1], Reuse(id, true));
    RunNext(c, [e0, e1], Write(id));
    RunNext(c, [e0, e1] + [Write(id)], Land(id));
    assert [e0, e1] + [Write(id)] + [Land(id)] == Turns(host, resource, id, false);
  }

  lemma StartedDownload(c: Cache, host: Host, resource: string)
    requires Inv(c) && !ClearPending(c, host)
    ensures var d, id := Step(Step(c, Begin(host, resource)), Prepare(c.begun)), c.begun;
      && Current(d, id) && KeyOf(d.downloads[id]) == (host, resource) && d.disk == c.disk
      && StageIs(d, id, if (host, resource) in c.disk.targets then Reusing else Fetching)
  {
    hide CleanupsInv, UnderWay, AllClearCovers, HostClearsCover;
  }

  /** In every reachable state in which no clear of the host is pending, a download that nobody disturbs gets through: its
      file is in the cache, the one that was there or else its own, nothing is in flight for it, and no other file has
      changed. */
  lemma UndisturbedDownloadIsCached(events: seq<CacheEvent>, host: Host, resource: string)
    requires !ClearPending(Run(EMPTY, events), host)
    ensures var c, key := Run(EMPTY, events), (host, resource);
      var c' := Run(c, Turns(host, resource, c.begun, key in c.disk.targets));
      && Gone(c', c.begun)
      && c'.disk.targets == (if key in c.disk.targets then c.disk.targets else c.disk.targets[key := c.begun])
  {
    var c, id := Run(EMPTY, events), Run(EMPTY, events).begun;
    RunKeeps(events);
    hide Run;
    StartedDownload(c, host, resource);
    TurnsRun(c, host, resource, id);
    hide Turns, Inv, ClearPending;
    var d := Step(Step(c, Begin(host, resource)), Prepare(id));
    if (host, resource) in c.disk.targets {
      ExistingFileIsReused(d, id);
    } else {
      var w := Step(d, Write(id));
      WritesPartial(d, id);
      PartialFileLands(w, id);
    }
  }

  lemma WritesPartial(c: Cache, id: nat)
    requires Current(c, id) && StageIs(c, id, Fetching)
    ensures var w := Step(c, Write(id));
      && Current(w, id) && StageIs(w, id, Fetching) && w.downloads == c.downloads
      && w.disk.targets == c.disk.targets && id in w.disk.partials && w.disk.partials[id] == c.downloads[id].host
  {
  }

  // The cache once these downloads have failed.
  function Without(c: Cache, ids: set<nat>): Cache
  {
    c.(downloads := c.downloads - ids, disk := c.disk.(partials := c.disk.partials - (ids * c.downloads.Keys)))
  }

  lemma {:induction false} DownloadsEnd(c: Cache, ids: set<nat>) returns (more: seq<CacheEvent>)
    ensures Run(c, more) == Without(c, ids)
    decreases |ids|
  {
    if ids == {} {
      more := [];
      assert c.downloads - ids == c.downloads && c.disk.partials - (ids * c.downloads.Keys) == c.disk.partials;
    } else {
      var id :| id in ids;
      var first := DownloadsEnd(c, ids - {id});
      more := first + [Fail(id, true)];
      RunNext(c, first, Fail(id, true));
      hide Run;
      LastEnds(c, ids, id);
    }
  }

  lemma LastEnds(c: Cache, ids: set<nat>, id: nat)
    requires id in ids
    ensures Step(Without(c, ids - {id}), Fail(id, true)) == Without(c, ids)
  {
    var before := Without(c, ids - {id});
    assert before.downloads - {id} == c.downloads - ids;
    if id in c.downloads {
      assert before.disk.partials - {id} == c.disk.partials - (ids * c.downloads.Keys);
    } else {
      assert before.downloads == c.downloads - ids;
      assert (ids - {id}) * c.downloads.Keys == ids * c.downloads.Keys;
    }
  }

  /** A pending full clear can always finish, once the downloads it waits for have ended: the cache is then empty and no
      longer closed. */
  lemma FullClearGetsThrough(events: seq<CacheEvent>) returns (more: seq<CacheEvent>)
    requires Run(EMPTY, events).clears.allClear.Some?
    ensures var c' := Run(Run(EMPTY, events), more);
      c'.clears.allClear == None && c'.downloads == map[] && c'.disk == Disk(map[], map[])
  {
    var c := Run(EMPTY, events);
    RunKeeps(events);
    hide Run, CleanupsInv, ClearsServeCleanups, HostClearsCover, Numbered;
    var first := DownloadsEnd(c, c.clears.allClear.value);
    more := first + [FinishAllClear(true)];
    RunNext(c, first, FinishAllClear(true));
    assert c.downloads - c.clears.allClear.value == map[];
  }

  /** So can a pending clear of one host: no file is left under it, other hosts keep theirs, and it takes downloads again
      unless a full clear is pending too. */
  lemma HostClearGetsThrough(events: seq<CacheEvent>, op: nat) returns (more: seq<CacheEvent>)
    requires op in Run(EMPTY, events).clears.hostClears
    ensures var c := Run(EMPTY, events);
      var c', host := Run(c, more), c.clears.hostClears[op].host;
      && op !in c'.clears.hostClears && host !in c'.clears.clearingHosts && c'.clears.allClear == c.clears.allClear
      && (forall k :: k in c'.disk.targets <==> k in c.disk.targets && k.0 != host)
      && (forall k :: k in c'.disk.targets ==> c'.disk.targets[k] == c.disk.targets[k])
      && (forall id :: id in c'.disk.partials ==> c'.disk.partials[id] != host)
  {
    var c := Run(EMPTY, events);
    hide Run;
    var first := DownloadsEnd(c, c.clears.hostClears[op].waiting);
    more := first + [FinishHostClear(op, true)];
    RunNext(c, first, FinishHostClear(op, true));
  }
}
