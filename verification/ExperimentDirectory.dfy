/** `runExperiment` as it works on its directory: it takes the lock, checks or writes the specification, loads what is
    there, and fills in the missing cells in order (experiment.ts). */
module ExperimentDirectory {
  import opened Options
  import opened CanonicalJson
  import opened JsonText
  import opened ExperimentMatrix
  import opened ExperimentRun

  class ExperimentDirectory {
    var locked: bool
    var manifest: Option<Json>
    var files: map<Digest, Attempt>

    ghost function View(): Directory
      reads this
    {
      Directory(locked, manifest, files)
    }

    constructor ()
      ensures View() == EMPTY_DIRECTORY
    {
      locked, manifest, files := false, None, map[];
    }

    method RunIn(hash: Text -> Digest, spec: Spec, execute: Cell -> Output, fate: nat -> Fate)
      returns (outcome: Outcome, executed: seq<Cell>)
      modifies this
      ensures (View(), Progress(files, outcome, executed)) == RunExperiment(hash, spec, old(View()), execute, fate)
    {
      hide SpecJson, Loadable, Fingerprint, Canonical, Expand, RunCells;
      var expanded := Expand(hash, spec);
      if expanded == None {
        return InvalidSpec, [];
      }
      var cells := expanded.value;
      var fingerprint := Fingerprint(hash, SpecJson(spec));
      if locked {
        return LockHeld, [];
      }
      locked := true;
      if manifest.Some? {
        if Fingerprint(hash, manifest.value) != fingerprint {
          locked := false;
          return Threw, [];
        }
      } else {
        manifest := Some(SpecJson(spec));
      }
      if !Loadable(cells, fingerprint, files) {
        locked := false;
        return Threw, [];
      }
      outcome, executed := FillIn(cells, fingerprint, execute, fate);
      if outcome != Crashed {
        locked := false;
      }
    }

    // The loop over the cells.
    method FillIn(cells: seq<Cell>, fingerprint: Digest, execute: Cell -> Output, fate: nat -> Fate)
      returns (outcome: Outcome, executed: seq<Cell>)
      modifies this`files
      ensures Progress(files, outcome, executed)
        == RunCells(cells, fingerprint, execute, fate, 0, [], old(files), [])
    {
      var attempts: seq<Attempt> := [];
      executed := [];
      var i := 0;
      while i < |cells|
        invariant 0 <= i <= |cells|
        invariant RunCells(cells, fingerprint, execute, fate, 0, [], old(files), [])
          == RunCells(cells, fingerprint, execute, fate, i, attempts, files, executed)
      {
        var cell := cells[i];
        if cell.id in files {
          attempts := attempts + [files[cell.id]];
          i := i + 1;
          continue;
        }
        if fate(i) == Stops {
          break;
        }
        executed := executed + [cell];
        if fate(i) == Throws {
          return Threw, executed;
        }
        var output := execute(cell);
        if !ValidMeasurement(output.measurement) {
          return Threw, executed;
        }
        if fate(i) == CrashesBefore {
          return Crashed, executed;
        }
        var attempt := Attempt(fingerprint, cell, output);
        files := files[cell.id := attempt];
        if fate(i) == CrashesAfter {
          return Crashed, executed;
        }
        attempts := attempts + [attempt];
        i := i + 1;
      }
      return Returned(attempts), executed;
    }
  }
}
