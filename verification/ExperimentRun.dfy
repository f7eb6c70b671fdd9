/** Running an experiment into a directory, stopping anywhere, and running it again (experiment.ts, `runExperiment`). */
module ExperimentRun {
  import opened Options
  import opened JsonText
  import opened CanonicalJson
  import opened ExperimentMatrix

  datatype Measurement = Measurement(available: bool, triggered: bool, success: bool, error: bool, elapsedMs: real,
                                     tokens: Option<real>, cost: Option<real>)

  predicate ValidMeasurement(m: Measurement)
  {
    m.elapsedMs >= 0.0 && (m.tokens.Some? ==> m.tokens.value >= 0.0) && (m.cost.Some? ==> m.cost.value >= 0.0)
  }

  datatype Output = Output(measurement: Measurement, result: Json)

  datatype Attempt = Attempt(fingerprint: Digest, cell: Cell, output: Output)

  // What is on disk: the lock file, the saved specification, and the attempts by file name.
  datatype Directory = Directory(locked: bool, manifest: Option<Json>, files: map<Digest, Attempt>)

  const EMPTY_DIRECTORY := Directory(false, None, map[])

  // How a run fares at a cell it would have to execute. `Stops` is the signal or `shouldStop`; a crash ends the process
  // before or after the attempt's file is renamed into place.
  datatype Fate = Completes | Stops | Throws | CrashesBefore | CrashesAfter

  datatype Outcome = Returned(attempts: seq<Attempt>) | Threw | Crashed | InvalidSpec | LockHeld

  // ---- The identity of a specification ----

  function Ascii(s: string): Text
  {
    seq(|s|, i requires 0 <= i < |s| => if s[i] as int < 0x1_0000 then s[i] as int else 0)
  }

  function Strings(ids: seq<Text>): Json
  {
    Array(seq(|ids|, i requires 0 <= i < |ids| => String(ids[i])))
  }

  function SpecJson(spec: Spec): Json
  {
    Object([
      Member(Ascii("schemaVersion"), Number(spec.schemaVersion)), Member(Ascii("id"), String(spec.id)),
      Member(Ascii("subjects"), Strings(spec.subjects)), Member(Ascii("scenarios"), Strings(spec.scenarios)),
      Member(Ascii("repetitions"), Number(spec.repetitions)), Member(Ascii("config"), spec.config)])
  }

  function Fingerprint(hash: Text -> Digest, spec: Json): Digest
  {
    hash(Canonical(spec))
  }

  lemma SpecWellFormed(spec: Spec)
    requires WellFormed(spec.config)
    ensures WellFormed(SpecJson(spec))
  {
    var ms := SpecJson(spec).members;
    assert |ms[0].key| == 13 && |ms[1].key| == 2 && |ms[2].key| == 8 && |ms[3].key| == 9 && |ms[4].key| == 11
      && |ms[5].key| == 6;
  }

  /** A directory is taken up again exactly when the saved specification equals this one up to the order of keys. */
  lemma SameSpecOnly(hash: Text -> Digest, saved: Json, spec: Spec)
    requires Injective(hash) && WellFormed(saved) && WellFormed(spec.config)
    ensures Fingerprint(hash, saved) == Fingerprint(hash, SpecJson(spec)) <==> Same(saved, SpecJson(spec))
  {
    SpecWellFormed(spec);
    CanonicalIsFaithful(saved, SpecJson(spec));
  }

  // ---- One run ----

  function AttemptAt(fingerprint: Digest, execute: Cell -> Output, cell: Cell): Attempt
  {
    Attempt(fingerprint, cell, execute(cell))
  }

  // Everything in the attempts directory is an attempt of this experiment.
  predicate Loadable(cells: seq<Cell>, fingerprint: Digest, files: map<Digest, Attempt>)
  {
    forall name :: name in files ==>
      && files[name].fingerprint == fingerprint && files[name].cell in cells && files[name].cell.id == name
      && ValidMeasurement(files[name].output.measurement)
  }

  datatype Progress = Progress(files: map<Digest, Attempt>, outcome: Outcome, executed: seq<Cell>)

  function RunCells(cells: seq<Cell>, fingerprint: Digest, execute: Cell -> Output, fate: nat -> Fate, i: nat,
                    attempts: seq<Attempt>, files: map<Digest, Attempt>, executed: seq<Cell>): Progress
    requires i <= |cells|
    decreases |cells| - i
  {
    if i == |cells| then Progress(files, Returned(attempts), executed)
    else if cells[i].id in files then
      RunCells(cells, fingerprint, execute, fate, i + 1, attempts + [files[cells[i].id]], files, executed)
    else if fate(i) == Stops then Progress(files, Returned(attempts), executed)
    else
      var attempt := AttemptAt(fingerprint, execute, cells[i]);
      if fate(i) == Throws || !ValidMeasurement(attempt.output.measurement) then
        Progress(files, Threw, executed + [cells[i]])
      else if fate(i) == CrashesBefore then Progress(files, Crashed, executed + [cells[i]])
      else if fate(i) == CrashesAfter then Progress(files[cells[i].id := attempt], Crashed, executed + [cells[i]])
      else
        RunCells(cells, fingerprint, execute, fate, i + 1, attempts + [attempt], files[cells[i].id := attempt],
                 executed + [cells[i]])
  }

  // The whole call: the directory after it, its outcome, and the cells it executed.
  function RunExperiment(hash: Text -> Digest, spec: Spec, d: Directory, execute: Cell -> Output, fate: nat -> Fate):
    (Directory, Progress)
  {
    match Expand(hash, spec)
    case None => (d, Progress(d.files, InvalidSpec, []))
    case Some(cells) =>
      var fingerprint := Fingerprint(hash, SpecJson(spec));
      if d.locked then (d, Progress(d.files, LockHeld, []))
      else if d.manifest.Some? && Fingerprint(hash, d.manifest.value) != fingerprint then
        (d, Progress(d.files, Threw, []))
      else
        var manifest := if d.manifest.Some? then d.manifest else Some(SpecJson(spec));
        if !Loadable(cells, fingerprint, d.files) then
          (d.(manifest := manifest), Progress(d.files, Threw, []))
        else
          var p := RunCells(cells, fingerprint, execute, fate, 0, [], d.files, []);
          (Directory(p.outcome == Crashed, manifest, p.files), p)
  }

  // ---- What every run keeps ----

  // Every persisted attempt is what executing its cell gives.
  predicate Consistent(cells: seq<Cell>, fingerprint: Digest, execute: Cell -> Output, files: map<Digest, Attempt>)
  {
    forall name :: name in files ==>
      && files[name].cell in cells && files[name].cell.id == name
      && files[name] == AttemptAt(fingerprint, execute, files[name].cell)
      && ValidMeasurement(files[name].output.measurement)
  }

  predicate DistinctIds(cells: seq<Cell>)
  {
    forall i, j :: 0 <= i < j < |cells| ==> cells[i].id != cells[j].id
  }

  function AttemptsOf(cells: seq<Cell>, fingerprint: Digest, execute: Cell -> Output): seq<Attempt>
  {
    seq(|cells|, i requires 0 <= i < |cells| => AttemptAt(fingerprint, execute, cells[i]))
  }

  predicate Kept(before: map<Digest, Attempt>, after: map<Digest, Attempt>)
  {
    forall name :: name in before ==> name in after && after[name] == before[name]
  }

  // The persisted attempt of a cell of this experiment is that cell's attempt.
  lemma ExistingAttempt(cells: seq<Cell>, fingerprint: Digest, execute: Cell -> Output, files: map<Digest, Attempt>,
                        i: nat)
    requires DistinctIds(cells) && Consistent(cells, fingerprint, execute, files)
    requires i < |cells| && cells[i].id in files
    ensures files[cells[i].id] == AttemptAt(fingerprint, execute, cells[i])
    ensures ValidMeasurement(execute(cells[i]).measurement)
  {
    var c := files[cells[i].id].cell;
    var j :| 0 <= j < |cells| && cells[j] == c;
    assert j == i;
  }

  lemma NextAttempt(cells: seq<Cell>, fingerprint: Digest, execute: Cell -> Output, i: nat)
    requires i < |cells|
    ensures AttemptsOf(cells[..i + 1], fingerprint, execute)
      == AttemptsOf(cells[..i], fingerprint, execute) + [AttemptAt(fingerprint, execute, cells[i])]
  {
  }

  // A run returns a prefix of the matrix, adds only true attempts, rewrites none, and executes no persisted cell.
  predicate GoodProgress(cells: seq<Cell>, fingerprint: Digest, execute: Cell -> Output, before: map<Digest, Attempt>,
                         p: Progress)
  {
    && Consistent(cells, fingerprint, execute, p.files) && Kept(before, p.files)
    && (forall i :: 0 <= i < |p.executed| ==> p.executed[i].id !in before)
    && (p.outcome.Returned? ==>
          |p.outcome.attempts| <= |cells|
          && p.outcome.attempts == AttemptsOf(cells[..|p.outcome.attempts|], fingerprint, execute))
  }

  lemma PersistKeeps(cells: seq<Cell>, fingerprint: Digest, execute: Cell -> Output, files: map<Digest, Attempt>,
                     i: nat, before: map<Digest, Attempt>)
    requires i < |cells| && cells[i].id !in files && Consistent(cells, fingerprint, execute, files)
    requires Kept(before, files) && ValidMeasurement(AttemptAt(fingerprint, execute, cells[i]).output.measurement)
    ensures var files' := files[cells[i].id := AttemptAt(fingerprint, execute, cells[i])];
      Consistent(cells, fingerprint, execute, files') && Kept(before, files')
  {
  }

  lemma NotYetExecuted(files: map<Digest, Attempt>, before: map<Digest, Attempt>, cell: Cell, executed: seq<Cell>)
    requires Kept(before, files) && cell.id !in files && forall k :: 0 <= k < |executed| ==> executed[k].id !in before
    ensures forall k :: 0 <= k < |executed + [cell]| ==> (executed + [cell])[k].id !in before
  {
  }

  lemma {:induction false} RunCellsGood(cells: seq<Cell>, fingerprint: Digest, execute: Cell -> Output,
                                        fate: nat -> Fate, i: nat, attempts: seq<Attempt>,
                                        files: map<Digest, Attempt>, executed: seq<Cell>,
                                        before: map<Digest, Attempt>)
    requires DistinctIds(cells) && Consistent(cells, fingerprint, execute, files) && i <= |cells|
    requires attempts == AttemptsOf(cells[..i], fingerprint, execute)
    requires Kept(before, files) && forall k :: 0 <= k < |executed| ==> executed[k].id !in before
    ensures GoodProgress(cells, fingerprint, execute, before,
                         RunCells(cells, fingerprint, execute, fate, i, attempts, files, executed))
    decreases |cells| - i
  {
    assert |attempts| == i;
    hide AttemptsOf, DistinctIds, Consistent, Kept, AttemptAt;
    if i < |cells| {
      var cell, attempt := cells[i], AttemptAt(fingerprint, execute, cells[i]);
      NextAttempt(cells, fingerprint, execute, i);
      if cell.id !in files && ValidMeasurement(attempt.output.measurement) {
        PersistKeeps(cells, fingerprint, execute, files, i, before);
      }
      if cell.id !in files {
        NotYetExecuted(files, before, cell, executed);
      }
      if cell.id in files {
        ExistingAttempt(cells, fingerprint, execute, files, i);
        RunCellsGood(cells, fingerprint, execute, fate, i + 1, attempts + [attempt], files, executed, before);
      } else if fate(i) == Completes && ValidMeasurement(attempt.output.measurement) {
        RunCellsGood(cells, fingerprint, execute, fate, i + 1, attempts + [attempt], files[cell.id := attempt],
                     executed + [cell], before);
      }
    }
  }

  // What a run that nothing interrupts comes to.
  function Uninterrupted(cells: seq<Cell>, fingerprint: Digest, execute: Cell -> Output): Outcome
  {
    if forall i :: 0 <= i < |cells| ==> ValidMeasurement(execute(cells[i]).measurement) then
      Returned(AttemptsOf(cells, fingerprint, execute))
    else Threw
  }

  lemma {:induction false} CompleteRun(cells: seq<Cell>, fingerprint: Digest, execute: Cell -> Output,
                                       fate: nat -> Fate, i: nat, attempts: seq<Attempt>,
                                       files: map<Digest, Attempt>, executed: seq<Cell>)
    requires DistinctIds(cells) && Consistent(cells, fingerprint, execute, files) && i <= |cells|
    requires attempts == AttemptsOf(cells[..i], fingerprint, execute)
    requires forall k :: 0 <= k < i ==> ValidMeasurement(execute(cells[k]).measurement)
    requires forall k: nat :: fate(k) == Completes
    ensures RunCells(cells, fingerprint, execute, fate, i, attempts, files, executed).outcome
      == Uninterrupted(cells, fingerprint, execute)
    decreases |cells| - i
  {
    if i < |cells| {
      var cell, attempt := cells[i], AttemptAt(fingerprint, execute, cells[i]);
      NextAttempt(cells, fingerprint, execute, i);
      if cell.id in files {
        ExistingAttempt(cells, fingerprint, execute, files, i);
        CompleteRun(cells, fingerprint, execute, fate, i + 1, attempts + [attempt], files, executed);
      } else if ValidMeasurement(attempt.output.measurement) {
        CompleteRun(cells, fingerprint, execute, fate, i + 1, attempts + [attempt], files[cell.id := attempt],
                    executed + [cell]);
      }
    } else {
      assert cells[..i] == cells;
    }
  }

  // ---- Any number of interruptions ----

  datatype Happening = RunOnce(fate: nat -> Fate) | RemoveLock

  function After(hash: Text -> Digest, spec: Spec, execute: Cell -> Output, d: Directory, past: seq<Happening>):
    Directory
  {
    if past == [] then d
    else
      var before := After(hash, spec, execute, d, past[..|past| - 1]);
      match past[|past| - 1]
      case RunOnce(fate) => RunExperiment(hash, spec, before, execute, fate).0
      case RemoveLock => before.(locked := false)
  }

  // A directory only this experiment has written to.
  predicate Owned(hash: Text -> Digest, spec: Spec, execute: Cell -> Output, d: Directory)
    requires ValidSpec(spec)
  {
    && (d.manifest.Some? ==> d.manifest.value == SpecJson(spec))
    && Consistent(Expand(hash, spec).value, Fingerprint(hash, SpecJson(spec)), execute, d.files)
  }

  lemma ConsistentLoads(cells: seq<Cell>, fingerprint: Digest, execute: Cell -> Output, files: map<Digest, Attempt>)
    requires Consistent(cells, fingerprint, execute, files)
    ensures Loadable(cells, fingerprint, files)
  {
  }

  /** One call on such a directory. Whatever interrupts it: the attempts it returns are those of a prefix of the matrix;
      no persisted attempt is executed again or rewritten; and the directory stays one that only this experiment has
      written to, so the next call may go on. */
  lemma OneCall(hash: Text -> Digest, spec: Spec, execute: Cell -> Output, d: Directory, fate: nat -> Fate)
    requires Injective(hash) && ValidSpec(spec) && Owned(hash, spec, execute, d)
    ensures var (d', p) := RunExperiment(hash, spec, d, execute, fate);
      && Owned(hash, spec, execute, d') && d'.files == p.files
      && GoodProgress(Expand(hash, spec).value, Fingerprint(hash, SpecJson(spec)), execute, d.files, p)
      && (p.outcome == LockHeld <==> d.locked) && (d'.locked <==> d.locked || p.outcome == Crashed)
  {
    var cells, fingerprint := Expand(hash, spec).value, Fingerprint(hash, SpecJson(spec));
    EveryCellOnce(hash, spec);
    ConsistentLoads(cells, fingerprint, execute, d.files);
    hide Fingerprint, SpecJson, Expand, Loadable, Consistent, RunCells;
    RunCellsGood(cells, fingerprint, execute, fate, 0, [], d.files, [], d.files);
    OutcomeOfCells(cells, fingerprint, execute, fate, 0, [], d.files, []);
  }

  lemma {:induction false} OutcomeOfCells(cells: seq<Cell>, fingerprint: Digest, execute: Cell -> Output,
                                          fate: nat -> Fate, i: nat, attempts: seq<Attempt>,
                                          files: map<Digest, Attempt>, executed: seq<Cell>)
    requires i <= |cells|
    ensures var o := RunCells(cells, fingerprint, execute, fate, i, attempts, files, executed).outcome;
      o != LockHeld && o != InvalidSpec
    decreases |cells| - i
  {
    if i < |cells| {
      var attempt := AttemptAt(fingerprint, execute, cells[i]);
      if cells[i].id in files {
        OutcomeOfCells(cells, fingerprint, execute, fate, i + 1, attempts + [files[cells[i].id]], files, executed);
      } else {
        OutcomeOfCells(cells, fingerprint, execute, fate, i + 1, attempts + [attempt], files[cells[i].id := attempt],
                       executed + [cells[i]]);
      }
    }
  }

  lemma {:induction false} StaysOwned(hash: Text -> Digest, spec: Spec, execute: Cell -> Output, d: Directory,
                                      past: seq<Happening>)
    requires Injective(hash) && ValidSpec(spec) && Owned(hash, spec, execute, d)
    ensures var d' := After(hash, spec, execute, d, past);
      Owned(hash, spec, execute, d') && Kept(d.files, d'.files)
  {
    if past != [] {
      var before := After(hash, spec, execute, d, past[..|past| - 1]);
      StaysOwned(hash, spec, execute, d, past[..|past| - 1]);
      match past[|past| - 1]
      case RunOnce(fate) =>
        hide RunExperiment, Owned, Consistent;
        OneCall(hash, spec, execute, before, fate);
      case RemoveLock =>
    }
  }

  /** Resuming refines a single run: after any number of runs, each stopped, failed or crashed anywhere, a run that
      nothing interrupts returns exactly what one uninterrupted run of an empty directory returns. */
  lemma ResumeEqualsOneRun(hash: Text -> Digest, spec: Spec, execute: Cell -> Output, past: seq<Happening>,
                           fate: nat -> Fate)
    requires Injective(hash) && ValidSpec(spec) && forall k: nat :: fate(k) == Completes
    requires !After(hash, spec, execute, EMPTY_DIRECTORY, past).locked
    ensures var resumed := RunExperiment(hash, spec, After(hash, spec, execute, EMPTY_DIRECTORY, past), execute, fate);
      var single := RunExperiment(hash, spec, EMPTY_DIRECTORY, execute, fate);
      && resumed.1.outcome == single.1.outcome
      && resumed.1.outcome == Uninterrupted(Expand(hash, spec).value, Fingerprint(hash, SpecJson(spec)), execute)
  {
    var d := After(hash, spec, execute, EMPTY_DIRECTORY, past);
    StaysOwned(hash, spec, execute, EMPTY_DIRECTORY, past);
    UninterruptedCall(hash, spec, execute, d, fate);
    UninterruptedCall(hash, spec, execute, EMPTY_DIRECTORY, fate);
  }

  lemma UninterruptedCall(hash: Text -> Digest, spec: Spec, execute: Cell -> Output, d: Directory, fate: nat -> Fate)
    requires Injective(hash) && ValidSpec(spec) && Owned(hash, spec, execute, d) && !d.locked
    requires forall k: nat :: fate(k) == Completes
    ensures RunExperiment(hash, spec, d, execute, fate).1.outcome
      == Uninterrupted(Expand(hash, spec).value, Fingerprint(hash, SpecJson(spec)), execute)
  {
    var cells, fingerprint := Expand(hash, spec).value, Fingerprint(hash, SpecJson(spec));
    EveryCellOnce(hash, spec);
    ConsistentLoads(cells, fingerprint, execute, d.files);
    hide Fingerprint, SpecJson, Expand, Loadable, Consistent, RunCells, Uninterrupted;
    CompleteRun(cells, fingerprint, execute, fate, 0, [], d.files, []);
  }

  /** A persisted attempt is never rewritten, and its cell never executed again, by any later run. */
  lemma PersistedForGood(hash: Text -> Digest, spec: Spec, execute: Cell -> Output, d: Directory,
                         past: seq<Happening>, fate: nat -> Fate, name: Digest)
    requires Injective(hash) && ValidSpec(spec) && Owned(hash, spec, execute, d) && name in d.files
    ensures var later := After(hash, spec, execute, d, past);
      var (last, p) := RunExperiment(hash, spec, later, execute, fate);
      && name in last.files && last.files[name] == d.files[name]
      && forall i :: 0 <= i < |p.executed| ==> p.executed[i].id != name
  {
    StaysOwned(hash, spec, execute, d, past);
    hide RunExperiment, Owned, Consistent;
    OneCall(hash, spec, execute, After(hash, spec, execute, d, past), fate);
  }
}
