/** The input refs of the terminal panel, changed step by step, each handler proved to be the corresponding step of the
    input model (Terminal.tsx). */
module TerminalControls {
  import opened Options
  import opened Estimator
  import Model = TerminalInput
  import opened TerminalInput

  class TerminalControls {
    var env: Environment
    var inputGeneration: nat
    var inputBlocked: bool
    var inputCapacityPaused: bool
    var count: int
    var bytes: int
    var queue: seq<Task>
    var inFlight: bool
    var lastResize: Option<Dimensions>
    var desiredSize: Option<Size>
    ghost var accepted: seq<seq<CodePoint>>
    ghost var sent: seq<nat>
    var typed: nat  // chunks accepted so far

    ghost function View(): State
      reads this
    {
      State(env, inputGeneration, inputBlocked, inputCapacityPaused, count, bytes, queue, inFlight, lastResize,
            desiredSize, accepted, sent)
    }

    ghost predicate Valid()
      reads this
    {
      typed == |accepted|
    }

    constructor (env: Environment)
      ensures Valid() && View() == Model.Init(env)
    {
      this.env := env;
      inputGeneration, inputBlocked, inputCapacityPaused, count, bytes := 0, false, false, 0, 0;
      queue, inFlight, lastResize, desiredSize, accepted, sent, typed := [], false, None, None, [], [], 0;
    }

    method EnqueueControl(work: Work, size: nat, t: Terminal, epoch: string) returns (taken: bool)
      modifies this
      ensures (View(), taken) == Model.Enqueue(old(View()), work, size, t, epoch) && typed == old(typed)
    {
      if inputCapacityPaused {
        return false;
      }
      if count >= MAX_PENDING || bytes + size > MAX_PENDING_BYTES {
        inputCapacityPaused := true;
        return false;
      }
      count := count + 1;
      bytes := bytes + size;
      queue := queue + [Task(work, size, t.id, epoch, inputGeneration, env.identity)];
      return true;
    }

    /** Typed text is cut, and its chunks queued in order until the queue refuses one. */
    method Input(data: seq<CodePoint>) returns (chunks: seq<Chunk>)
      requires Valid()
      modifies this
      ensures Valid() && Cut(chunks) && Joined(chunks) == data
      ensures View() == Model.Type(old(View()), chunks)
    {
      chunks := TerminalInputChunks(data);
      if env.control == None || !env.control.value.running || env.positionEpoch == None || !env.foreground ||
         !env.connected || inputBlocked || inputCapacityPaused || env.recovering ||
         !env.control.value.controlAllowed {
        return;
      }
      var t, epoch := env.control.value, env.positionEpoch.value;
      EnqueueAll(chunks, t, epoch);
    }

    method EnqueueAll(chunks: seq<Chunk>, t: Terminal, epoch: string)
      requires Valid()
      modifies this
      ensures Valid() && View() == Model.EnqueueChunks(old(View()), chunks, t, epoch)
    {
      ghost var start := View();
      var i := 0;
      hide Model.Enqueue;
      while i < |chunks|
        invariant 0 <= i <= |chunks| && Valid()
        invariant Model.EnqueueChunks(View(), chunks[i..], t, epoch) == Model.EnqueueChunks(start, chunks, t, epoch)
      {
        assert chunks[i..][1..] == chunks[i + 1..];
        ghost var before := View();
        var taken := EnqueueControl(Work.Input(typed), chunks[i].bytes, t, epoch);
        Model.EnqueueKeeps(before, Work.Input(typed), chunks[i].bytes, t, epoch);
        if !taken {
          return;
        }
        accepted := accepted + [chunks[i].text];
        typed := typed + 1;
        i := i + 1;
      }
    }

    method CanControl(task: Task) returns (allowed: bool)
      ensures allowed <==> Model.CanControl(View(), task)
    {
      if !env.active || task.generation != inputGeneration || task.identity != env.identity || !env.foreground ||
         !env.connected || inputBlocked || env.control == None {
        return false;
      }
      var t := env.control.value;
      return t.id == task.terminalId && t.controlAllowed && t.running &&
             env.positionEpoch == Some(task.epoch) && t.epoch == task.epoch;
    }

    method Resize(size: Size)
      modifies this
      ensures View() == Model.AskResize(old(View()), size) && typed == old(typed)
    {
      hide Model.CanControl, Model.Enqueue;
      desiredSize := Some(size);
      if env.control == None || env.positionEpoch == None || env.recovering ||
         !env.control.value.resizeSupported || !env.control.value.running {
        return;
      }
      var t, epoch := env.control.value, env.positionEpoch.value;
      var work := Work.Resize(Dimensions(t.id, epoch, size));
      var allowed := CanControl(Task(work, 0, t.id, epoch, inputGeneration, env.identity));
      if allowed {
        var _ := EnqueueControl(work, 0, t, epoch);
      }
    }

    // The `finally` clause of a queued task.
    method LeaveQueue()
      requires queue != []
      modifies this
      ensures View() == Model.Leave(old(View())) && typed == old(typed)
    {
      inFlight := false;
      count := count - 1;
      bytes := bytes - queue[0].bytes;
      queue := queue[1..];
    }

    // The promise chain reaches its next task; `issued` is the request it sends.
    method StartTask() returns (issued: Option<Work>)
      modifies this
      ensures View() == Model.Start(old(View())) && typed == old(typed)
      ensures issued.Some? && issued.value.Input? <==> sent != old(sent)
      ensures issued.Some? && issued.value.Input? ==> sent == old(sent) + [issued.value.number]
    {
      hide Model.Leave;
      if queue == [] || inFlight {
        return None;
      }
      var task := queue[0];
      var allowed := CanControl(task);
      if !allowed || (task.work.Resize? && lastResize == Some(task.work.dimensions)) {
        LeaveQueue();
        LeaveKeepsSent(old(View()));
        return None;
      }
      inFlight := true;
      if task.work.Resize? {
        lastResize := Some(task.work.dimensions);
      } else {
        sent := sent + [task.work.number];
      }
      return Some(task.work);
    }

    // The request of the first task settled.
    method FinishTask(confirmed: bool)
      requires inFlight ==> queue != []
      modifies this
      ensures View() == Model.Finish(old(View()), confirmed) && typed == old(typed)
    {
      hide Model.Leave;
      if !inFlight {
        return;
      }
      var task := queue[0];
      if !confirmed {
        if task.work.Resize? {
          if lastResize == Some(task.work.dimensions) {
            lastResize := None;
          }
        } else if env.active && task.identity == env.identity && env.control.Some? &&
                  task.terminalId == env.control.value.id && env.control.value.running {
          inputGeneration := inputGeneration + 1;
          inputBlocked := true;
        }
      }
      LeaveQueue();
    }

    method ResumeInput()
      modifies this
      ensures View() == Model.Resume(old(View())) && typed == old(typed)
    {
      if count > 0 {
        return;
      }
      inputGeneration := inputGeneration + 1;
      inputBlocked := false;
      inputCapacityPaused := false;
      if desiredSize.Some? {
        hide Model.AskResize;
        Resize(desiredSize.value);
      }
    }

    method SelectTerminal()
      modifies this
      ensures View() == Model.Switch(old(View())) && typed == old(typed)
    {
      inputGeneration := inputGeneration + 1;
      inputBlocked := false;
      inputCapacityPaused := false;
      lastResize := None;
      env := env.(positionEpoch := None, recovering := true);
    }
  }

  lemma LeaveKeepsSent(s: State)
    requires s.queue != []
    ensures Model.Leave(s).sent == s.sent
  {
  }
}
