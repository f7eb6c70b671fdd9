/** What a call of `runExperiment` executes, returns and leaves on disk, exactly; and how often a cell is executed over a
    history of interrupted calls (experiment.ts). */
module ExperimentHistory {
  import opened Options
  import opened JsonText
  import opened CanonicalJson
  import opened ExperimentMatrix
  import opened ExperimentRun

  // ---- What is returned is on disk ----

  predicate Named(files: map<Digest, Attempt>)
  {
    forall name :: name in files ==> files[name].cell.id == name
  }

  predicate OnDisk(a: Attempt, files: map<Digest, Attempt>)
  {
    a.cell.id in files && files[a.cell.id] == a
  }

  predicate AllOnDisk(attempts: seq<Attempt>, files: map<Digest, Attempt>)
  {
    forall k :: 0 <= k < |attempts| ==> OnDisk(attempts[k], files)
  }

  predicate AllPersisted(executed: seq<Cell>, files: map<Digest, Attempt>)
  {
    forall k :: 0 <= k < |executed| ==> executed[k].id in files
  }

  // Everything returned is on disk, and so is everything executed except perhaps the last, which did not complete.
  predicate Recorded(p: Progress)
  {
    && (p.outcome.Returned? ==> AllOnDisk(p.outcome.attempts, p.files) && AllPersisted(p.executed, p.files))
    && (p.executed != [] ==> AllPersisted(p.executed[..|p.executed| - 1], p.files))
  }

  lemma PersistRecords(attempts: seq<Attempt>, files: map<Digest, Attempt>, executed: seq<Cell>, a: Attempt)
    requires Named(files) && AllOnDisk(attempts, files) && AllPersisted(executed, files) && a.cell.id !in files
    ensures var files' := files[a.cell.id := a];
      && Named(files') && AllOnDisk(attempts, files') && AllOnDisk(attempts + [a], files')
      && AllPersisted(executed, files') && AllPersisted(executed + [a.cell], files')
  {
  }

  lemma {:induction false} RunCellsRecords(cells: seq<Cell>, fingerprint: Digest, execute: Cell -> Output,
                                           fate: nat -> Fate, i: nat, attempts: seq<Attempt>,
                                           files: map<Digest, Attempt>, executed: seq<Cell>)
    requires i <= |cells| && Named(files) && AllOnDisk(attempts, files) && AllPersisted(executed, files)
    ensures Recorded(RunCells(cells, fingerprint, execute, fate, i, attempts, files, executed))
    decreases |cells| - i
  {
    if i < |cells| {
      var cell, attempt := cells[i], AttemptAt(fingerprint, execute, cells[i]);
      assert (executed + [cell])[..|executed|] == executed;
      if cell.id in files {
        RunCellsRecords(cells, fingerprint, execute, fate, i + 1, attempts + [files[cell.id]], files, executed);
      } else {
        PersistRecords(attempts, files, executed, attempt);
        RunCellsRecords(cells, fingerprint, execute, fate, i + 1, attempts + [attempt], files[cell.id := attempt],
                        executed + [cell]);
      }
    }
  }

  /** After every call, whatever interrupted it: each attempt it returned is on disk under its cell's name, and so is the
      attempt of each cell it executed, except perhaps the last one if the call did not return. */
  lemma ReturnedIsOnDisk(hash: Text -> Digest, spec: Spec, d: Directory, execute: Cell -> Output, fate: nat -> Fate)
    ensures var (d', p) := RunExperiment(hash, spec, d, execute, fate);
      && d'.files == p.files
      && (p.outcome.Returned? ==>
            && (forall a :: a in p.outcome.attempts ==> a.cell.id in d'.files && d'.files[a.cell.id] == a)
            && (forall k :: 0 <= k < |p.executed| ==> p.executed[k].id in d'.files))
      && (forall k :: 0 <= k < |p.executed| - 1 ==> p.executed[k].id in d'.files)
  {
    hide Fingerprint, SpecJson, Expand, RunCells;
    var cells, fingerprint := Expand(hash, spec), Fingerprint(hash, SpecJson(spec));
    if cells.Some? && Loadable(cells.value, fingerprint, d.files) {
      RunCellsRecords(cells.value, fingerprint, execute, fate, 0, [], d.files, []);
      var p := RunCells(cells.value, fingerprint, execute, fate, 0, [], d.files, []);
      if p.outcome.Returned? {
        assert AllOnDisk(p.outcome.attempts, p.files);
      }
      if p.executed != [] {
        var before := p.executed[..|p.executed| - 1];
        assert forall k :: 0 <= k < |before| ==> before[k] == p.executed[k];
      }
    }
  }

  // ---- Every file comes from one execution ----

  function Occurrences(executed: seq<Cell>, name: Digest): nat
  {
    if executed == [] then 0
    else Occurrences(executed[..|executed| - 1], name) + (if executed[|executed| - 1].id == name then 1 else 0)
  }

  function Present(files: map<Digest, Attempt>, name: Digest): nat
  {
    if name in files then 1 else 0
  }

  lemma OneMore(executed: seq<Cell>, cell: Cell, name: Digest)
    ensures Occurrences(executed + [cell], name) == Occurrences(executed, name) + (if cell.id == name then 1 else 0)
  {
    assert (executed + [cell])[..|executed|] == executed;
  }

  lemma {:induction false} RunCellsOccurrences(cells: seq<Cell>, fingerprint: Digest, execute: Cell -> Output,
                                               fate: nat -> Fate, i: nat, attempts: seq<Attempt>,
                                               files: map<Digest, Attempt>, executed: seq<Cell>,
                                               before: map<Digest, Attempt>, name: Digest)
    requires i <= |cells| && Present(before, name) + Occurrences(executed, name) == Present(files, name)
    ensures var p := RunCells(cells, fingerprint, execute, fate, i, attempts, files, executed);
      && (name in p.files ==> Present(before, name) + Occurrences(p.executed, name) == 1)
      && (name !in p.files ==> name !in before)
    decreases |cells| - i
  {
    if i < |cells| {
      var cell, attempt := cells[i], AttemptAt(fingerprint, execute, cells[i]);
      OneMore(executed, cell, name);
      hide Occurrences;
      if cell.id in files {
        RunCellsOccurrences(cells, fingerprint, execute, fate, i + 1, attempts + [files[cell.id]], files, executed,
                            before, name);
      } else {
        RunCellsOccurrences(cells, fingerprint, execute, fate, i + 1, attempts + [attempt], files[cell.id := attempt],
                            executed + [cell], before, name);
      }
    }
  }

  // Executions of a cell in one call that left its attempt on disk.
  function CompletedIn(p: Progress, name: Digest): nat
  {
    if name in p.files then Occurrences(p.executed, name) else 0
  }

  lemma CallCompletes(hash: Text -> Digest, spec: Spec, d: Directory, execute: Cell -> Output, fate: nat -> Fate,
                      name: Digest)
    ensures var (d', p) := RunExperiment(hash, spec, d, execute, fate);
      Present(d'.files, name) == Present(d.files, name) + CompletedIn(p, name)
  {
    hide Fingerprint, SpecJson, Expand, RunCells, Loadable;
    var cells, fingerprint := Expand(hash, spec), Fingerprint(hash, SpecJson(spec));
    if cells.Some? {
      RunCellsOccurrences(cells.value, fingerprint, execute, fate, 0, [], d.files, [], d.files, name);
    }
  }

  function Completions(hash: Text -> Digest, spec: Spec, execute: Cell -> Output, d: Directory, past: seq<Happening>,
                       name: Digest): nat
  {
    if past == [] then 0
    else
      var before := past[..|past| - 1];
      Completions(hash, spec, execute, d, before, name) +
      match past[|past| - 1]
      case RunOnce(fate) =>
        CompletedIn(RunExperiment(hash, spec, After(hash, spec, execute, d, before), execute, fate).1, name)
      case RemoveLock => 0
  }

  /** Over any history of runs, each stopped, failed or crashed anywhere, every attempt on disk was there at the start or
      comes from exactly one completed execution: no completed work is repeated and none is lost. */
  lemma {:induction false} EachCellCompletesOnce(hash: Text -> Digest, spec: Spec, execute: Cell -> Output,
                                                 d: Directory, past: seq<Happening>, name: Digest)
    ensures Present(After(hash, spec, execute, d, past).files, name)
            == Present(d.files, name) + Completions(hash, spec, execute, d, past, name)
  {
    if past != [] {
      hide RunExperiment, Present, CompletedIn;
      var before := After(hash, spec, execute, d, past[..|past| - 1]);
      EachCellCompletesOnce(hash, spec, execute, d, past[..|past| - 1], name);
      match past[|past| - 1]
      case RunOnce(fate) => CallCompletes(hash, spec, before, execute, fate, name);
      case RemoveLock => assert before.(locked := false).files == before.files;
    }
  }

  // ---- One call, exactly ----

  // The cells among these that are not on disk, in order.
  function Missing(cells: seq<Cell>, before: map<Digest, Attempt>): seq<Cell>
  {
    if cells == [] then []
    else
      var last := cells[|cells| - 1];
      Missing(cells[..|cells| - 1], before) + (if last.id in before then [] else [last])
  }

  function Filled(cells: seq<Cell>, fingerprint: Digest, execute: Cell -> Output, before: map<Digest, Attempt>):
    map<Digest, Attempt>
  {
    if cells == [] then before
    else
      var last, files := cells[|cells| - 1], Filled(cells[..|cells| - 1], fingerprint, execute, before);
      if last.id in before then files else files[last.id := AttemptAt(fingerprint, execute, last)]
  }

  // Nothing stops the call at this cell: it is on disk, or its execution completes with a sound measurement.
  predicate Passes(cell: Cell, fate: Fate, execute: Cell -> Output, before: map<Digest, Attempt>)
  {
    cell.id in before || (fate == Completes && ValidMeasurement(execute(cell).measurement))
  }

  // What the call comes to if cell k is the first that does not pass.
  function StoppedAt(cells: seq<Cell>, fingerprint: Digest, execute: Cell -> Output, fate: nat -> Fate, k: nat,
                     before: map<Digest, Attempt>): Progress
    requires k <= |cells|
  {
    var files, missing := Filled(cells[..k], fingerprint, execute, before), Missing(cells[..k], before);
    if k == |cells| || fate(k) == Stops then
      Progress(files, Returned(AttemptsOf(cells[..k], fingerprint, execute)), missing)
    else
      var outcome := if fate(k) == Throws || !ValidMeasurement(execute(cells[k]).measurement) then Threw else Crashed;
      var renamed := outcome == Crashed && fate(k) == CrashesAfter;
      Progress(if renamed then files[cells[k].id := AttemptAt(fingerprint, execute, cells[k])] else files,
               outcome, missing + [cells[k]])
  }

  lemma {:induction false} FilledDomain(cells: seq<Cell>, fingerprint: Digest, execute: Cell -> Output,
                                        before: map<Digest, Attempt>)
    ensures forall name :: name in Filled(cells, fingerprint, execute, before) <==>
              name in before || exists j :: 0 <= j < |cells| && cells[j].id == name
  {
    if cells != [] {
      var n := |cells| - 1;
      var files := Filled(cells[..n], fingerprint, execute, before);
      FilledDomain(cells[..n], fingerprint, execute, before);
      forall name
        ensures name in Filled(cells, fingerprint, execute, before) <==>
                name in before || exists j :: 0 <= j < |cells| && cells[j].id == name
      {
        assert (exists j :: 0 <= j < |cells| && cells[j].id == name) <==>
               cells[n].id == name || exists j :: 0 <= j < n && cells[..n][j].id == name;
      }
    }
  }

  lemma FilledNext(cells: seq<Cell>, fingerprint: Digest, execute: Cell -> Output, before: map<Digest, Attempt>, i: nat)
    requires i < |cells| && DistinctIds(cells)
    ensures cells[i].id in Filled(cells[..i], fingerprint, execute, before) <==> cells[i].id in before
    ensures Filled(cells[..i + 1], fingerprint, execute, before) ==
            var files := Filled(cells[..i], fingerprint, execute, before);
            if cells[i].id in before then files else files[cells[i].id := AttemptAt(fingerprint, execute, cells[i])]
    ensures Missing(cells[..i + 1], before) ==
            Missing(cells[..i], before) + (if cells[i].id in before then [] else [cells[i]])
  {
    FilledDomain(cells[..i], fingerprint, execute, before);
    assert cells[..i + 1][..i] == cells[..i];
  }

  lemma {:induction false} FilledKeeps(cells: seq<Cell>, fingerprint: Digest, execute: Cell -> Output,
                                       before: map<Digest, Attempt>, name: Digest)
    requires name in before
    ensures name in Filled(cells, fingerprint, execute, before)
    ensures Filled(cells, fingerprint, execute, before)[name] == before[name]
  {
    if cells != [] {
      FilledKeeps(cells[..|cells| - 1], fingerprint, execute, before, name);
    }
  }

  // The call at cell i, with everything before it done.
  function CallFrom(cells: seq<Cell>, fingerprint: Digest, execute: Cell -> Output, fate: nat -> Fate, i: nat,
                    before: map<Digest, Attempt>): Progress
    requires i <= |cells|
  {
    RunCells(cells, fingerprint, execute, fate, i, AttemptsOf(cells[..i], fingerprint, execute),
             Filled(cells[..i], fingerprint, execute, before), Missing(cells[..i], before))
  }

  lemma StopsHere(cells: seq<Cell>, fingerprint: Digest, execute: Cell -> Output, fate: nat -> Fate, k: nat,
                  before: map<Digest, Attempt>)
    requires DistinctIds(cells) && k <= |cells|
    requires k < |cells| ==> !Passes(cells[k], fate(k), execute, before)
    ensures CallFrom(cells, fingerprint, execute, fate, k, before)
            == StoppedAt(cells, fingerprint, execute, fate, k, before)
  {
    if k < |cells| {
      FilledNext(cells, fingerprint, execute, before, k);
    }
    hide DistinctIds, Filled, Missing, AttemptsOf;
  }

  lemma PassesOn(cells: seq<Cell>, fingerprint: Digest, execute: Cell -> Output, fate: nat -> Fate, i: nat,
                 before: map<Digest, Attempt>)
    requires DistinctIds(cells) && Consistent(cells, fingerprint, execute, before) && i < |cells|
    requires Passes(cells[i], fate(i), execute, before)
    ensures CallFrom(cells, fingerprint, execute, fate, i, before)
            == CallFrom(cells, fingerprint, execute, fate, i + 1, before)
  {
    FilledNext(cells, fingerprint, execute, before, i);
    NextAttempt(cells, fingerprint, execute, i);
    if cells[i].id in before {
      ExistingAttempt(cells, fingerprint, execute, before, i);
      FilledKeeps(cells[..i], fingerprint, execute, before, cells[i].id);
    }
    assert Missing(cells[..i], before) + [] == Missing(cells[..i], before);
    hide DistinctIds, Consistent, Filled, Missing, AttemptsOf;
  }

  lemma {:induction false} RunCellsExactly(cells: seq<Cell>, fingerprint: Digest, execute: Cell -> Output,
                                           fate: nat -> Fate, i: nat, k: nat, before: map<Digest, Attempt>)
    requires DistinctIds(cells) && Consistent(cells, fingerprint, execute, before) && i <= k <= |cells|
    requires forall j :: 0 <= j < k ==> Passes(cells[j], fate(j), execute, before)
    requires k < |cells| ==> !Passes(cells[k], fate(k), execute, before)
    ensures CallFrom(cells, fingerprint, execute, fate, i, before)
            == StoppedAt(cells, fingerprint, execute, fate, k, before)
    decreases k - i
  {
    hide CallFrom, StoppedAt, DistinctIds, Consistent;
    if i == k {
      StopsHere(cells, fingerprint, execute, fate, k, before);
    } else {
      PassesOn(cells, fingerprint, execute, fate, i, before);
      RunCellsExactly(cells, fingerprint, execute, fate, i + 1, k, before);
    }
  }

  /** A call on an unlocked directory of this experiment, exactly: it works through the matrix up to the first cell that is
      neither on disk nor completes, executing the missing cells before it in order and persisting each; at that cell it
      returns what it has if it was told to stop, and otherwise executes the cell and throws or crashes, leaving its attempt
      only if it crashed after the rename. */
  lemma CallExactly(hash: Text -> Digest, spec: Spec, execute: Cell -> Output, d: Directory, fate: nat -> Fate, k: nat)
    requires Injective(hash) && ValidSpec(spec) && Owned(hash, spec, execute, d) && !d.locked
    requires var cells := Expand(hash, spec).value;
      && k <= |cells|
      && (forall j :: 0 <= j < k ==> Passes(cells[j], fate(j), execute, d.files))
      && (k < |cells| ==> !Passes(cells[k], fate(k), execute, d.files))
    ensures RunExperiment(hash, spec, d, execute, fate).1 ==
            StoppedAt(Expand(hash, spec).value, Fingerprint(hash, SpecJson(spec)), execute, fate, k, d.files)
  {
    var cells, fingerprint := Expand(hash, spec).value, Fingerprint(hash, SpecJson(spec));
    EveryCellOnce(hash, spec);
    ConsistentLoads(cells, fingerprint, execute, d.files);
    assert AttemptsOf(cells[..0], fingerprint, execute) == [] && Missing(cells[..0], d.files) == [];
    assert Filled(cells[..0], fingerprint, execute, d.files) == d.files;
    hide Fingerprint, SpecJson, Expand, Loadable, Consistent, RunCells, StoppedAt, Passes, AttemptsOf, Filled, Missing;
    RunCellsExactly(cells, fingerprint, execute, fate, 0, k, d.files);
  }

  // A file no run of this experiment would have written.
  predicate Alien(a: Attempt, name: Digest, cells: seq<Cell>, fingerprint: Digest)
  {
    || a.fingerprint != fingerprint || a.cell !in cells || a.cell.id != name
    || a.output.measurement.elapsedMs < 0.0
    || (a.output.measurement.tokens.Some? && a.output.measurement.tokens.value < 0.0)
    || (a.output.measurement.cost.Some? && a.output.measurement.cost.value < 0.0)
  }

  predicate HoldsAlien(files: map<Digest, Attempt>, cells: seq<Cell>, fingerprint: Digest)
  {
    exists name :: name in files && Alien(files[name], name, cells, fingerprint)
  }

  /** A directory of another specification, or one holding a file this experiment would not have written, is refused:
      nothing is executed and no attempt is touched. An unlocked directory free of both is worked on, and any lock it then
      holds is that of a crash. */
  lemma ForeignDirectoryIsRefused(hash: Text -> Digest, spec: Spec, d: Directory, execute: Cell -> Output,
                                  fate: nat -> Fate)
    requires Injective(hash) && ValidSpec(spec) && WellFormed(spec.config) && !d.locked
    requires d.manifest.Some? ==> WellFormed(d.manifest.value)
    ensures var (d', p) := RunExperiment(hash, spec, d, execute, fate);
      var cells, fingerprint := Expand(hash, spec).value, Fingerprint(hash, SpecJson(spec));
      if (d.manifest.Some? && !Same(d.manifest.value, SpecJson(spec)))
         || HoldsAlien(d.files, cells, fingerprint) then
        p.outcome == Threw && p.executed == [] && d'.files == d.files && !d'.locked
        && (d.manifest.Some? ==> d'.manifest == d.manifest)
      else
        && p == RunCells(cells, fingerprint, execute, fate, 0, [], d.files, [])
        && d' == Directory(p.outcome == Crashed, Some(if d.manifest.Some? then d.manifest.value else SpecJson(spec)),
                           p.files)
  {
    var cells, fingerprint := Expand(hash, spec).value, Fingerprint(hash, SpecJson(spec));
    ExpandsAll(hash, spec);
    if d.manifest.Some? {
      SameSpecOnly(hash, d.manifest.value, spec);
    }
    AlienFiles(cells, fingerprint, d.files);
    hide Fingerprint, SpecJson, Expand, RunCells, Loadable, Same, HoldsAlien, WellFormed, ValidSpec, Injective;
  }

  lemma ExpandsAll(hash: Text -> Digest, spec: Spec)
    requires Injective(hash) && ValidSpec(spec)
    ensures Expand(hash, spec).Some?
  {
    EveryCellOnce(hash, spec);
  }

  lemma AlienFiles(cells: seq<Cell>, fingerprint: Digest, files: map<Digest, Attempt>)
    ensures Loadable(cells, fingerprint, files) <==>
            !HoldsAlien(files, cells, fingerprint)
  {
  }
}
