/** The phone's artifact cache: downloads racing with full clears and host clears (artifact-cache.ts). One event is one
    turn of the JavaScript event loop, except Write: the native downloader may write its partial file at any moment
    until its promise settles, also after it was told to abort. */
module ArtifactCache {
  import opened Options
  import opened LocalData

  // Reusing: an existing file is being validated. Fetching: a partial file is being filled and then validated.
  // Comparing: another download of the same resource finished first, and its file is being validated.
  datatype Stage = Starting | Reusing | Fetching | Comparing

  datatype Download = Download(host: Host, resource: string, epoch: nat, hostEpoch: nat, aborted: bool, stage: Stage)

  datatype HostClear = HostClear(host: Host, waiting: set<nat>)

  // The clears that have begun, counted in epochs, and those under way: host clears by the cleanup operation that asked,
  // and `clearingAll` with what the full clear waits for.
  datatype Clears = Clears(cacheEpoch: nat, hostEpochs: map<Host, nat>, clearingHosts: set<Host>,
                           hostClears: map<nat, HostClear>, allClear: Option<set<nat>>)

  // Partial files by the download that fills them, and finished files with the download that wrote them.
  datatype Disk = Disk(partials: map<nat, Host>, targets: map<(Host, string), nat>)

  datatype Cache = Cache(clears: Clears, downloads: map<nat, Download>, begun: nat, disk: Disk, cleanups: Cleanups)

  datatype CacheEvent =
    | Begin(host: Host, resource: string)
    | Prepare(id: nat)
    | Reuse(id: nat, valid: bool)
    | Write(id: nat)
    | Land(id: nat)
    | Compare(id: nat)
    | Fail(id: nat, deleted: bool)
    | Abort(id: nat)
    | BeginAllClear
    | FinishAllClear(deleted: bool)
    | BeginHostClear(operation: nat)
    | FinishHostClear(operation: nat, deleted: bool)
    | Cleanup(event: CleanupEvent)

  const EMPTY := Cache(Clears(0, map[], {}, map[], None), map[], 0, Disk(map[], map[]), NONE_YET)

  function EpochOf(c: Cache, host: Host): nat
  {
    if host in c.clears.hostEpochs then c.clears.hostEpochs[host] else 0
  }

  // `check`: no clear has begun since the download did, and nobody aborted it.
  predicate Check(c: Cache, d: Download)
  {
    d.epoch == c.clears.cacheEpoch && d.hostEpoch == EpochOf(c, d.host) && !d.aborted
  }

  predicate At(c: Cache, id: nat, stage: Stage)
  {
    id in c.downloads && c.downloads[id].stage == stage
  }

  function StepBegin(c: Cache, host: Host, resource: string): Cache
  {
    if c.clears.allClear.Some? || host in c.clears.clearingHosts then c
    else
      var d := Download(host, resource, c.clears.cacheEpoch, EpochOf(c, host), false, Starting);
      c.(downloads := c.downloads[c.begun := d], begun := c.begun + 1)
  }

  function Moved(c: Cache, id: nat, stage: Stage): Cache
    requires id in c.downloads
  {
    c.(downloads := c.downloads[id := c.downloads[id].(stage := stage)])
  }

  // The `finally` of a download: its partial file goes, then it is forgotten and its promise settles.
  function Ended(c: Cache, id: nat, deleted: bool): Cache
  {
    c.(downloads := c.downloads - {id},
       disk := if deleted then c.disk.(partials := c.disk.partials - {id}) else c.disk)
  }

  function StepPrepare(c: Cache, id: nat): Cache
  {
    if !At(c, id, Starting) || !Check(c, c.downloads[id]) then c
    else if (c.downloads[id].host, c.downloads[id].resource) in c.disk.targets then Moved(c, id, Reusing)
    else Moved(c, id, Fetching)
  }

  function StepReuse(c: Cache, id: nat, valid: bool): Cache
  {
    if !At(c, id, Reusing) || !Check(c, c.downloads[id]) then c
    else if valid then Ended(c, id, true)
    else
      var key := (c.downloads[id].host, c.downloads[id].resource);
      Moved(c.(disk := c.disk.(targets := c.disk.targets - {key})), id, Fetching)
  }

  function StepWrite(c: Cache, id: nat): Cache
  {
    if !At(c, id, Fetching) then c else c.(disk := c.disk.(partials := c.disk.partials[id := c.downloads[id].host]))
  }

  // The existence check and the rename are in one turn.
  function StepLand(c: Cache, id: nat): Cache
  {
    if !At(c, id, Fetching) || id !in c.disk.partials || !Check(c, c.downloads[id]) then c
    else
      var key := (c.downloads[id].host, c.downloads[id].resource);
      if key in c.disk.targets then Moved(c, id, Comparing)
      else Ended(c.(disk := c.disk.(targets := c.disk.targets[key := id])), id, true)
  }

  function StepCompare(c: Cache, id: nat): Cache
  {
    if !At(c, id, Comparing) || !Check(c, c.downloads[id]) then c else Ended(c, id, true)
  }

  function AbortThese(downloads: map<nat, Download>, ids: set<nat>): map<nat, Download>
  {
    map id | id in downloads :: if id in ids then downloads[id].(aborted := true) else downloads[id]
  }

  function OfHost(c: Cache, host: Host): set<nat>
  {
    set id | id in c.downloads && c.downloads[id].host == host
  }

  function StepBeginAllClear(c: Cache): Cache
  {
    if c.clears.allClear.Some? then c
    else
      c.(clears := c.clears.(cacheEpoch := c.clears.cacheEpoch + 1, allClear := Some(c.downloads.Keys)),
         downloads := AbortThese(c.downloads, c.downloads.Keys))
  }

  predicate Drained(c: Cache, waiting: set<nat>)
  {
    forall id :: id in waiting ==> id !in c.downloads
  }

  function StepFinishAllClear(c: Cache, deleted: bool): Cache
  {
    if c.clears.allClear == None || !Drained(c, c.clears.allClear.value) then c
    else
      c.(clears := c.clears.(allClear := None), disk := if deleted then Disk(map[], map[]) else c.disk)
  }

  function StepBeginHostClear(c: Cache, op: nat): Cache
  {
    if op >= |c.cleanups.operations| || c.cleanups.operations[op].phase != Running || op in c.clears.hostClears then c
    else
      var host := c.cleanups.operations[op].host;
      c.(clears := c.clears.(clearingHosts := c.clears.clearingHosts + {host},
                             hostEpochs := c.clears.hostEpochs[host := EpochOf(c, host) + 1],
                             hostClears := c.clears.hostClears[op := HostClear(host, OfHost(c, host))]),
         downloads := AbortThese(c.downloads, OfHost(c, host)))
  }

  function WithoutHost(disk: Disk, host: Host): Disk
  {
    Disk(map id | id in disk.partials && disk.partials[id] != host :: disk.partials[id],
         map k | k in disk.targets && k.0 != host :: disk.targets[k])
  }

  function StepFinishHostClear(c: Cache, op: nat, deleted: bool): Cache
  {
    if op !in c.clears.hostClears || !Drained(c, c.clears.hostClears[op].waiting) then c
    else
      var host := c.clears.hostClears[op].host;
      c.(clears := c.clears.(clearingHosts := c.clears.clearingHosts - {host}, hostClears := c.clears.hostClears - {op}),
         disk := if deleted then WithoutHost(c.disk, host) else c.disk)
  }

  // A cleanup operation settles only after the clear it started.
  function StepCleanup(c: Cache, e: CleanupEvent): Cache
  {
    if e.Settle? && e.operation in c.clears.hostClears then c else c.(cleanups := CleanupStep(c.cleanups, e))
  }

  // A turn of a download under way.
  function StepDownload(c: Cache, e: CacheEvent): Cache
  {
    match e
    case Prepare(id) => StepPrepare(c, id)
    case Reuse(id, valid) => StepReuse(c, id, valid)
    case Write(id) => StepWrite(c, id)
    case Land(id) => StepLand(c, id)
    case Compare(id) => StepCompare(c, id)
    case Fail(id, deleted) => if id in c.downloads then Ended(c, id, deleted) else c
    case Abort(id) => c.(downloads := AbortThese(c.downloads, {id}))
    case _ => c
  }

  function Step(c: Cache, e: CacheEvent): Cache
  {
    match e
    case Begin(host, resource) => StepBegin(c, host, resource)
    case BeginAllClear => StepBeginAllClear(c)
    case FinishAllClear(deleted) => StepFinishAllClear(c, deleted)
    case BeginHostClear(op) => StepBeginHostClear(c, op)
    case FinishHostClear(op, deleted) => StepFinishHostClear(c, op, deleted)
    case Cleanup(event) => StepCleanup(c, event)
    case _ => StepDownload(c, e)
  }

  function Run(c: Cache, events: seq<CacheEvent>): Cache
  {
    if events == [] then c else Step(Run(c, events[..|events| - 1]), events[|events| - 1])
  }

  // ---- What every step keeps ----

  // Everything running is in the clear's snapshot and has been told to abort.
  predicate AllClearCovers(c: Cache)
  {
    c.clears.allClear.Some? ==> forall id :: id in c.downloads ==> id in c.clears.allClear.value && c.downloads[id].aborted
  }

  predicate HostClearsCover(c: Cache)
  {
    forall op, id :: op in c.clears.hostClears && id in c.downloads && c.downloads[id].host == c.clears.hostClears[op].host ==>
      id in c.clears.hostClears[op].waiting && c.downloads[id].aborted
  }

  predicate ClearsServeCleanups(c: Cache)
  {
    && (forall op :: op in c.clears.hostClears ==> UnderWay(c.cleanups, op, c.clears.hostClears[op].host))
    && (forall op :: op in c.clears.hostClears ==> c.clears.hostClears[op].host in c.clears.clearingHosts)
    && (forall host :: host in c.clears.clearingHosts ==> HostClearPending(c, host))
  }

  predicate HostClearPending(c: Cache, host: Host)
  {
    exists op :: op in c.clears.hostClears && c.clears.hostClears[op].host == host
  }

  predicate Numbered(c: Cache)
  {
    && (forall id :: id in c.downloads ==> id < c.begun)
    && (forall id :: id in c.disk.partials ==> id < c.begun)
    && (forall k :: k in c.disk.targets ==> c.disk.targets[k] < c.begun)
  }

  ghost predicate Inv(c: Cache)
  {
    CleanupsInv(c.cleanups) && ClearsServeCleanups(c) && AllClearCovers(c) && HostClearsCover(c) && Numbered(c)
  }

  lemma CleanupKeeps(c: Cache, e: CleanupEvent)
    requires CleanupsInv(c.cleanups) && ClearsServeCleanups(c)
    ensures var c' := StepCleanup(c, e); CleanupsInv(c'.cleanups) && ClearsServeCleanups(c')
  {
    hide CleanupStep, CleanupsInv, UnderWay;
    CleanupStepKeeps(c.cleanups, e);
    forall op | op in c.clears.hostClears && StepCleanup(c, e) != c
      ensures UnderWay(CleanupStep(c.cleanups, e), op, c.clears.hostClears[op].host)
    {
      UnderWayStays(c.cleanups, e, op, c.clears.hostClears[op].host);
    }
  }

  lemma BeginHostClearServes(c: Cache, op: nat)
    requires ClearsServeCleanups(c)
    ensures ClearsServeCleanups(StepBeginHostClear(c, op))
  {
    var c' := StepBeginHostClear(c, op);
    if c' != c {
      forall host | host in c'.clears.clearingHosts
        ensures HostClearPending(c', host)
      {
        if host in c.clears.clearingHosts {
          var other :| other in c.clears.hostClears && c.clears.hostClears[other].host == host;
          assert c'.clears.hostClears[other] == c.clears.hostClears[other];
        } else {
          assert c'.clears.hostClears[op].host == host;
        }
      }
    }
  }

  // Only one clear of a host is pending, so finishing it may take the host off the list.
  lemma FinishHostClearServes(c: Cache, op: nat, deleted: bool)
    requires CleanupsInv(c.cleanups) && ClearsServeCleanups(c)
    ensures ClearsServeCleanups(StepFinishHostClear(c, op, deleted))
  {
    OneRunning(c.cleanups);
    var c' := StepFinishHostClear(c, op, deleted);
    if c' != c {
      forall host | host in c'.clears.clearingHosts
        ensures HostClearPending(c', host)
      {
        var other :| other in c.clears.hostClears && c.clears.hostClears[other].host == host;
        assert c'.clears.hostClears[other] == c.clears.hostClears[other];
      }
    }
  }

  // A download's turn changes the disk and the downloads, and only lets downloads stop or stay aborted.
  predicate OnlyFewer(c: Cache, c': Cache)
  {
    && c' == c.(downloads := c'.downloads, disk := c'.disk)
    && (forall id :: id in c'.downloads ==>
          id in c.downloads && c'.downloads[id].host == c.downloads[id].host
          && (c.downloads[id].aborted ==> c'.downloads[id].aborted))
  }

  lemma DownloadOnlyFewer(c: Cache, e: CacheEvent)
    ensures OnlyFewer(c, StepDownload(c, e))
  {
  }

  lemma StepServes(c: Cache, e: CacheEvent)
    requires CleanupsInv(c.cleanups) && ClearsServeCleanups(c)
    ensures CleanupsInv(Step(c, e).cleanups) && ClearsServeCleanups(Step(c, e))
  {
    hide CleanupsInv, UnderWay, StepBeginHostClear, StepFinishHostClear, StepCleanup, StepDownload;
    match e
    case Begin(host, resource) =>
    case BeginAllClear =>
    case FinishAllClear(deleted) =>
    case BeginHostClear(op) =>
      BeginHostClearServes(c, op);
      HostClearLeavesCleanups(c, op, true);
    case FinishHostClear(op, deleted) =>
      FinishHostClearServes(c, op, deleted);
      HostClearLeavesCleanups(c, op, deleted);
    case Cleanup(event) => CleanupKeeps(c, event);
    case _ => DownloadOnlyFewer(c, e);
  }

  lemma HostClearLeavesCleanups(c: Cache, op: nat, deleted: bool)
    ensures StepBeginHostClear(c, op).cleanups == c.cleanups
    ensures StepFinishHostClear(c, op, deleted).cleanups == c.cleanups
  {
  }

  lemma BeginHostClearCovers(c: Cache, op: nat)
    requires AllClearCovers(c) && HostClearsCover(c)
    ensures AllClearCovers(StepBeginHostClear(c, op)) && HostClearsCover(StepBeginHostClear(c, op))
  {
  }

  lemma BeginAllClearCovers(c: Cache)
    requires AllClearCovers(c) && HostClearsCover(c)
    ensures AllClearCovers(StepBeginAllClear(c)) && HostClearsCover(StepBeginAllClear(c))
  {
  }

  lemma StepCovers(c: Cache, e: CacheEvent)
    requires ClearsServeCleanups(c) && AllClearCovers(c) && HostClearsCover(c)
    ensures AllClearCovers(Step(c, e)) && HostClearsCover(Step(c, e))
  {
    hide StepCleanup, StepDownload, StepBeginHostClear, StepBeginAllClear, UnderWay;
    match e
    case Begin(host, resource) =>
    case BeginAllClear => BeginAllClearCovers(c);
    case FinishAllClear(deleted) =>
    case BeginHostClear(op) => BeginHostClearCovers(c, op);
    case FinishHostClear(op, deleted) =>
    case Cleanup(event) => CleanupLeavesDownloads(c, event);
    case _ => DownloadOnlyFewer(c, e);
  }

  lemma CleanupLeavesDownloads(c: Cache, e: CleanupEvent)
    ensures StepCleanup(c, e) == c.(cleanups := StepCleanup(c, e).cleanups)
  {
  }

  lemma DownloadNumbers(c: Cache, e: CacheEvent)
    requires Numbered(c)
    ensures Numbered(StepDownload(c, e))
  {
  }

  lemma StepNumbers(c: Cache, e: CacheEvent)
    requires Numbered(c)
    ensures Numbered(Step(c, e)) && c.begun <= Step(c, e).begun
  {
    hide StepCleanup, StepDownload;
    match e
    case Begin(host, resource) =>
    case BeginAllClear =>
    case FinishAllClear(deleted) =>
    case BeginHostClear(op) =>
    case FinishHostClear(op, deleted) =>
    case Cleanup(event) => CleanupLeavesDownloads(c, event);
    case _ =>
      DownloadNumbers(c, e);
      DownloadOnlyFewer(c, e);
  }

  lemma StepKeeps(c: Cache, e: CacheEvent)
    requires Inv(c)
    ensures Inv(Step(c, e))
  {
    hide Step, CleanupsInv, ClearsServeCleanups, AllClearCovers, HostClearsCover, Numbered;
    StepServes(c, e);
    StepCovers(c, e);
    StepNumbers(c, e);
  }

  lemma {:induction false} RunKeeps(events: seq<CacheEvent>)
    ensures Inv(Run(EMPTY, events))
  {
    if events != [] {
      RunKeeps(events[..|events| - 1]);
      hide Inv, Step;
      StepKeeps(Run(EMPTY, events[..|events| - 1]), events[|events| - 1]);
    }
  }

  // ---- A clear is quiescent ----

  // The files under a host's directory, by the download that wrote them.
  predicate HasFile(c: Cache, host: Host, id: nat)
  {
    (id in c.disk.partials && c.disk.partials[id] == host) || (exists k :: k in c.disk.targets && k.0 == host && c.disk.targets[k] == id)
  }

  /** When the last download a host clear waits for has ended and the directory is deleted, no download that writes under
      it is in flight, in any reachable state; and nothing is left under it. */
  lemma HostDeletionIsQuiescent(events: seq<CacheEvent>, op: nat)
    requires var c := Run(EMPTY, events); op in c.clears.hostClears && Drained(c, c.clears.hostClears[op].waiting)
    ensures var c := Run(EMPTY, events);
      var host := c.clears.hostClears[op].host;
      && (forall id :: id in c.downloads ==> c.downloads[id].host != host)
      && (forall id :: !HasFile(Step(c, FinishHostClear(op, true)), host, id))
  {
    RunKeeps(events);
  }

  lemma FullDeletionIsQuiescent(events: seq<CacheEvent>)
    requires var c := Run(EMPTY, events); c.clears.allClear.Some? && Drained(c, c.clears.allClear.value)
    ensures var c := Run(EMPTY, events);
      && c.downloads == map[]
      && (forall host, id :: !HasFile(Step(c, FinishAllClear(true)), host, id))
  {
    RunKeeps(events);
    var c := Run(EMPTY, events);
    assert forall id :: id !in c.downloads;
  }

  // A clear of this host, or of everything, has begun and not finished.
  ghost predicate ClearPending(c: Cache, host: Host)
  {
    c.clears.allClear.Some? || HostClearPending(c, host)
  }

  /** A download is refused exactly while a clear that covers it is pending: in every reachable state, no sooner and no
      longer. */
  lemma RefusedExactlyWhileClearing(events: seq<CacheEvent>, host: Host, resource: string)
    ensures var c := Run(EMPTY, events);
      Step(c, Begin(host, resource)) == c <==> ClearPending(c, host)
  {
    RunKeeps(events);
  }

  /** While a clear is pending no download of the host can start, none can finish a file, and those that run have all
      been told to abort. */
  lemma NothingStartsOrLands(c: Cache, host: Host, e: CacheEvent)
    requires Inv(c) && ClearPending(c, host)
    ensures var c' := Step(c, e);
      && (forall id :: id in c'.downloads && c'.downloads[id].host == host ==> id in c.downloads)
      && (forall id :: id in c.downloads && c.downloads[id].host == host ==> c.downloads[id].aborted)
      && (forall k :: k in c'.disk.targets && k.0 == host ==> k in c.disk.targets && c'.disk.targets[k] == c.disk.targets[k])
  {
    assert Halted(c, host) by {
      hide CleanupsInv, Numbered, UnderWay;
    }
    hide Inv, ClearPending, Step;
    HaltedStep(c, host, e);
  }

  predicate Halted(c: Cache, host: Host)
  {
    && (c.clears.allClear.Some? || host in c.clears.clearingHosts)
    && forall id :: id in c.downloads && c.downloads[id].host == host ==> c.downloads[id].aborted
  }

  lemma HaltedStep(c: Cache, host: Host, e: CacheEvent)
    requires Halted(c, host)
    ensures var c' := Step(c, e);
      && (forall id :: id in c'.downloads && c'.downloads[id].host == host ==> id in c.downloads)
      && (forall k :: k in c'.disk.targets && k.0 == host ==> k in c.disk.targets && c'.disk.targets[k] == c.disk.targets[k])
  {
    hide StepCleanup, StepDownload;
    match e
    case Cleanup(event) => CleanupLeavesDownloads(c, event);
    case Begin(_, _) =>
    case BeginAllClear =>
    case FinishAllClear(_) =>
    case BeginHostClear(_) =>
    case FinishHostClear(_, _) =>
    case _ =>
      DownloadOnlyFewer(c, e);
      AbortedNeverLands(c, host, e);
  }

  lemma AbortedNeverLands(c: Cache, host: Host, e: CacheEvent)
    requires forall id :: id in c.downloads && c.downloads[id].host == host ==> c.downloads[id].aborted
    ensures var c' := StepDownload(c, e);
      forall k :: k in c'.disk.targets && k.0 == host ==> k in c.disk.targets && c'.disk.targets[k] == c.disk.targets[k]
  {
  }

  // ---- Nothing written earlier survives ----

  // Every download of the host, and every file under its directory, was begun as number `n` or later.
  predicate Since(c: Cache, host: Host, n: nat)
  {
    && n <= c.begun
    && (forall id :: id in c.downloads && c.downloads[id].host == host ==> id >= n)
    && (forall id :: id in c.disk.partials && c.disk.partials[id] == host ==> id >= n)
    && (forall k :: k in c.disk.targets && k.0 == host ==> c.disk.targets[k] >= n)
  }

  lemma StepKeepsSince(c: Cache, e: CacheEvent, host: Host, n: nat)
    requires Since(c, host, n)
    ensures Since(Step(c, e), host, n)
  {
    hide StepCleanup, StepDownload;
    match e
    case Cleanup(event) => CleanupLeavesDownloads(c, event);
    case Begin(_, _) =>
    case BeginAllClear =>
    case FinishAllClear(_) =>
    case BeginHostClear(_) =>
    case FinishHostClear(_, _) =>
    case _ => DownloadKeepsSince(c, e, host, n);
  }

  lemma DownloadKeepsSince(c: Cache, e: CacheEvent, host: Host, n: nat)
    requires Since(c, host, n)
    ensures Since(StepDownload(c, e), host, n)
  {
  }

  lemma {:induction false} RunKeepsSince(c: Cache, events: seq<CacheEvent>, host: Host, n: nat)
    requires Since(c, host, n)
    ensures Since(Run(c, events), host, n)
  {
    if events != [] {
      RunKeepsSince(c, events[..|events| - 1], host, n);
      hide Since, Step;
      StepKeepsSince(Run(c, events[..|events| - 1]), events[|events| - 1], host, n);
    }
  }

  /** After a clear has deleted a host's directory, no file written by a download begun before the deletion is ever seen
      under it again, however late the native downloader writes. */
  lemma ClearedForGood(before: seq<CacheEvent>, deletion: CacheEvent, after: seq<CacheEvent>, host: Host)
    requires var c := Run(EMPTY, before);
      || (deletion == FinishAllClear(true) && c.clears.allClear.Some? && Drained(c, c.clears.allClear.value))
      || (deletion.FinishHostClear? && deletion.deleted && deletion.operation in c.clears.hostClears
          && c.clears.hostClears[deletion.operation].host == host && Drained(c, c.clears.hostClears[deletion.operation].waiting))
    ensures var c := Run(EMPTY, before);
      forall id: nat :: HasFile(Run(Step(c, deletion), after), host, id) ==> id >= c.begun
  {
    var c := Run(EMPTY, before);
    var d := Step(c, deletion);
    if deletion.FinishAllClear? {
      FullDeletionIsQuiescent(before);
      assert Since(d, host, c.begun);
    } else {
      HostDeletionIsQuiescent(before, deletion.operation);
      assert Since(d, host, c.begun);
    }
    RunKeepsSince(d, after, host, c.begun);
  }

  // ---- A finished file is never overwritten ----

  lemma StepNeverOverwrites(c: Cache, e: CacheEvent, key: (Host, string))
    requires key in c.disk.targets && key in Step(c, e).disk.targets
    ensures Step(c, e).disk.targets[key] == c.disk.targets[key]
  {
    hide StepCleanup;
    match e
    case Cleanup(event) => CleanupLeavesDownloads(c, event);
    case BeginHostClear(op) =>
    case _ =>
  }

  /** If a resource's file has another author than before, it had been deleted in between: a download that finishes
      never replaces a file that is there. */
  lemma {:induction false} NeverOverwritten(c: Cache, events: seq<CacheEvent>, key: (Host, string))
    requires key in c.disk.targets && key in Run(c, events).disk.targets && Run(c, events).disk.targets[key] != c.disk.targets[key]
    ensures exists i :: 0 <= i < |events| && key !in Run(c, events[..i]).disk.targets
  {
    if events != [] {
      var init := events[..|events| - 1];
      if key in Run(c, init).disk.targets {
        hide Step;
        StepNeverOverwrites(Run(c, init), events[|events| - 1], key);
        NeverOverwritten(c, init, key);
        var i :| 0 <= i < |init| && key !in Run(c, init[..i]).disk.targets;
        assert events[..i] == init[..i];
      }
    }
  }
}
