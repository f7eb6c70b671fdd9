/** The refs and locals of the terminal effect, changed step by step, each callback proved to be the corresponding
    function of the stream model (Terminal.tsx). */
module TerminalClient {
  import opened Options
  import opened TerminalLog
  import Stream = TerminalStream
  import opened TerminalStream

  class TerminalClient {
    const accepts: Sink
    var position: Option<Position>
    var events: seq<Frame>
    var eventCharacters: int
    var requested: bool
    var phase: Phase
    var attempts: nat
    var streamAvailable: bool
    var confirmedEpoch: Option<string>
    var oldEpochs: set<string>
    var outputRecovering: bool
    var inputGeneration: nat
    var displayGeneration: nat
    var valid: bool
    var shown: string
    ghost var origin: Option<Reply>
    var pushes: nat
    var arrivals: nat

    ghost function View(): Client
      reads this
    {
      Client(position, events, eventCharacters, requested, phase, attempts, streamAvailable, confirmedEpoch,
             oldEpochs, outputRecovering, inputGeneration, displayGeneration, valid,
             Screen(shown, origin, pushes), arrivals)
    }

    // Mounting the effect runs its first attach.
    constructor (accepts: Sink)
      ensures View() == Stream.Attach(Stream.Init()) && this.accepts == accepts
    {
      this.accepts := accepts;
      position, events, eventCharacters, requested, phase, attempts := None, [], 0, false, Idle, 0;
      streamAvailable, confirmedEpoch, oldEpochs, outputRecovering := false, None, {}, true;
      inputGeneration, displayGeneration, valid, shown, origin, pushes, arrivals := 0, 0, true, "", None, 0, 0;
      new;
      Attach();
    }

    method InvalidatePosition()
      modifies this
      ensures View() == Stream.InvalidatePosition(old(View()))
    {
      position := None;
      outputRecovering := true;
    }

    // The attach loop up to its next await, or its end.
    method NextAttempt()
      modifies this
      ensures View() == Stream.NextAttempt(old(View()))
    {
      if requested && valid {
        attempts := attempts + 1;
        if attempts <= MAX_ATTACH_ATTEMPTS {
          requested := false;
          phase := Attaching(position, displayGeneration, set f | f in events);
          return;
        }
        attempts := attempts - 1;
        requested := false;
      }
      phase := Idle;
    }

    method Attach()
      modifies this
      ensures View() == Stream.Attach(old(View()))
    {
      requested := true;
      if phase != Idle || !valid {
        return;
      }
      outputRecovering := true;
      attempts := 0;
      if !streamAvailable {
        phase := Pinging;
        return;
      }
      NextAttempt();
    }

    method Output(data: string, reset: bool)
      modifies this
      ensures View() == Stream.Write(old(View()), accepts, data, reset)
    {
      var taken := accepts(pushes);
      pushes := pushes + 1;
      if taken {
        shown := (if reset then "" else shown) + data;
      } else {
        InvalidatePosition();
        Attach();
      }
    }

    method Apply(f: Frame)
      modifies this
      ensures View() == Stream.Apply(old(View()), accepts, f)
    {
      position := Some(Position(f.epoch, f.sequence));
      if f.payload.Output? {
        Output(f.payload.data, false);
      }
    }

    method HasForeignEpoch(epoch: string) returns (foreign: bool)
      ensures foreign <==> ForeignEpoch(View(), epoch)
    {
      for i := 0 to |events|
        invariant forall j :: 0 <= j < i ==> events[j].epoch == epoch || events[j].epoch in oldEpochs
      {
        if events[i].epoch != epoch && events[i].epoch !in oldEpochs {
          return true;
        }
      }
      return false;
    }

    // Applies buffered frames in order for as long as each is the next one.
    method ApplyBuffered()
      requires position.Some?
      modifies this
      ensures View() == ConsumeLoop(old(View()), accepts)
    {
      hide Stream.Apply, Width;
      ghost var start := View();
      while events != [] && valid
        invariant position.Some?
        invariant ConsumeLoop(View(), accepts) == ConsumeLoop(start, accepts)
        decreases |events|
      {
        var event := events[0];
        if event.sequence <= position.value.sequence {
          events := events[1..];
          continue;
        }
        if event.sequence != position.value.sequence + 1 {
          requested := true;
          return;
        }
        events := events[1..];
        eventCharacters := eventCharacters - Width(event);
        ghost var rest := View();
        Apply(event);
        ApplyKeepsEvents(rest, accepts, event);
        if position == None {
          return;
        }
      }
    }

    method Consume()
      modifies this
      ensures View() == Stream.Consume(old(View()), accepts)
    {
      hide ForeignEpoch, Sort, Ahead, ConsumeLoop, Characters;
      if position == None {
        return;
      }
      var cursor := position.value;
      var foreign := HasForeignEpoch(cursor.epoch);
      if foreign {
        InvalidatePosition();
        inputGeneration := inputGeneration + 1;
        requested := true;
        return;
      }
      events := Sort(Ahead(events, cursor));
      eventCharacters := Characters(events);
      ApplyBuffered();
    }

    method Receive(epoch: string, sequence: nat, payload: Payload)
      modifies this
      ensures View() == Stream.Receive(old(View()), accepts, epoch, sequence, payload)
    {
      hide Stream.Buffer, Width;
      var event := Frame(arrivals, epoch, sequence, payload);
      arrivals := arrivals + 1;
      if !valid || epoch in oldEpochs {
        return;
      }
      if position.Some? && position.value.epoch == epoch && sequence <= position.value.sequence {
        return;
      }
      Buffer(event);
    }

    method Buffer(event: Frame)
      modifies this
      ensures View() == Stream.Buffer(old(View()), accepts, event)
    {
      hide Stream.Consume, Stream.Attach, Width;
      events := events + [event];
      eventCharacters := eventCharacters + Width(event);
      if |events| > MAX_EVENTS || eventCharacters > MAX_EVENT_CHARACTERS {
        events := [];
        eventCharacters := 0;
        InvalidatePosition();
        Attach();
      } else if phase == Idle {
        if position == None || position.value.epoch != event.epoch {
          InvalidatePosition();
          inputGeneration := inputGeneration + 1;
          Attach();
        } else {
          Consume();
          if requested {
            Attach();
          }
        }
      }
    }

    method PingAnswered(supported: bool)
      modifies this
      ensures View() == Stream.PingAnswered(old(View()), supported)
    {
      if phase == Pinging {
        if !valid || !supported {
          phase := Idle;
          return;
        }
        streamAvailable := true;
        attempts := 0;
        NextAttempt();
      }
    }

    // Drops the frames of another epoch that were buffered when the request left, and remembers their epochs.
    method DropOutdated(epoch: string, buffered: set<Frame>)
      modifies this
      ensures events == Current(old(events), epoch, buffered)
      ensures oldEpochs == old(oldEpochs) + set f | f in old(events) && f.epoch != epoch && f in buffered :: f.epoch
      ensures View() == old(View()).(events := events, oldEpochs := oldEpochs)
    {
      var kept, outdated := [], {};
      for i := 0 to |events|
        invariant View() == old(View())
        invariant kept == Current(events[..i], epoch, buffered)
        invariant outdated == set f | f in events[..i] && f.epoch != epoch && f in buffered :: f.epoch
      {
        assert events[..i + 1] == events[..i] + [events[i]];
        if events[i].epoch != epoch && events[i] in buffered {
          outdated := outdated + {events[i].epoch};
        } else {
          kept := kept + [events[i]];
        }
      }
      assert events[..|events|] == events;
      events := kept;
      oldEpochs := oldEpochs + outdated;
    }

    method AdoptAnswer(r: Reply)
      requires phase.Attaching?
      modifies this
      ensures View() == Stream.Adopt(old(View()), accepts, r)
    {
      hide Stream.Consume, WriteSnapshot, AtAnswer;
      var cursor := phase.cursor;
      MoveToAnswer(r);
      Snapshot(r, cursor == None || cursor.value.epoch != r.epoch || r.truncated);
      Consume();
      if !requested && valid && position.Some? {
        outputRecovering := false;
      }
    }

    method Snapshot(r: Reply, reset: bool)
      modifies this
      ensures View() == WriteSnapshot(old(View()), accepts, r, reset)
    {
      hide Stream.Attach;
      ghost var accepted := accepts(pushes);
      Output(r.snapshot, reset);
      if reset && accepted {
        origin := Some(r);
      }
    }

    method MoveToAnswer(r: Reply)
      requires phase.Attaching?
      modifies this
      ensures View() == AtAnswer(old(View()), r)
    {
      hide Current;
      var buffered := phase.buffered;
      if confirmedEpoch.Some? && confirmedEpoch.value != r.epoch {
        oldEpochs := oldEpochs + {confirmedEpoch.value};
      }
      confirmedEpoch := Some(r.epoch);
      DropOutdated(r.epoch, buffered);
      position := Some(Position(r.epoch, r.sequence));
      phase := Working;
    }

    method AttachAnswered(r: Reply)
      requires phase.Attaching?
      modifies this
      ensures View() == Stream.AttachAnswered(old(View()), accepts, r)
    {
      hide Stream.Adopt, Stream.NextAttempt;
      if !valid {
        phase := Detaching;
        return;
      }
      if phase.display != displayGeneration {
        InvalidatePosition();
        requested := true;
        NextAttempt();
        return;
      }
      if phase.cursor.Some? && phase.cursor.value.epoch != r.epoch {
        oldEpochs := oldEpochs + {phase.cursor.value.epoch};
        InvalidatePosition();
        inputGeneration := inputGeneration + 1;
        requested := true;
        NextAttempt();
        return;
      }
      AdoptAnswer(r);
      NextAttempt();
    }

    method AttachEnded()
      modifies this
      ensures View() == Stream.AttachEnded(old(View()))
    {
      if phase.Attaching? || phase == Detaching {
        phase := Idle;
      }
    }

    method DisplayReady()
      modifies this
      ensures View() == Stream.DisplayReady(old(View()))
    {
      hide Stream.Attach;
      displayGeneration := displayGeneration + 1;
      inputGeneration := inputGeneration + 1;
      InvalidatePosition();
      shown := "";
      origin := None;
      Attach();
    }

    method Resubscribe()
      modifies this
      ensures View() == Stream.Resubscribe(old(View()))
    {
      hide Stream.Attach, Stream.FreshBuffer, Stream.FreshAttach;
      ResetBuffer();
      ResetAttach();
      Attach();
    }

    method ResetBuffer()
      modifies this
      ensures View() == Stream.FreshBuffer(old(View()))
    {
      inputGeneration := inputGeneration + 1;
      events := [];
      eventCharacters := 0;
      oldEpochs := {};
      valid := true;
    }

    method ResetAttach()
      modifies this
      ensures View() == Stream.FreshAttach(old(View()))
    {
      phase := Idle;
      requested := false;
      attempts := 0;
      streamAvailable := false;
      confirmedEpoch := if position.Some? then Some(position.value.epoch) else None;
    }
  }

  lemma ApplyKeepsEvents(c: Client, sink: Sink, f: Frame)
    ensures Stream.Apply(c, sink, f).events == c.events
  {
  }
}
