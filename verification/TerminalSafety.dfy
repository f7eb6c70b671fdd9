/** Stream contiguity: against any server log and any delivery of its frames, what the display holds is the snapshot it
    was last reset with and then every output of that epoch, up to exactly where the client thinks it is. */
module TerminalSafety {
  import opened Options
  import opened TerminalLog
  import opened TerminalStream

  // ---- What every callback keeps ----

  predicate Genuine(f: Frame, log: Log)
  {
    f.epoch in log && 1 <= f.sequence <= |log[f.epoch]| && log[f.epoch][f.sequence - 1] == f.payload
  }

  predicate AllGenuine(events: seq<Frame>, log: Log)
  {
    forall i :: 0 <= i < |events| ==> Genuine(events[i], log)
  }

  predicate PositionShown(c: Client, log: Log)
  {
    c.position.Some? ==> Displays(c.screen.shown, c.screen.origin, log, c.position.value.epoch, c.position.value.sequence)
  }

  // While a request is out the position can only be lost, and the display still ends at the request's cursor unless
  // it restarted.
  predicate CursorShown(c: Client, log: Log)
  {
    c.phase.Attaching? ==>
      && (c.position.Some? ==> c.phase.cursor == c.position)
      && (c.phase.cursor.Some? ==>
            var p := c.phase.cursor.value;
            && p.epoch in log && p.sequence <= |log[p.epoch]|
            && (c.phase.display == c.displayGeneration ==> Displays(c.screen.shown, c.screen.origin, log, p.epoch, p.sequence)))
      && c.phase.display <= c.displayGeneration
  }

  predicate Safe(c: Client, log: Log)
  {
    PositionShown(c, log) && CursorShown(c, log) && AllGenuine(c.events, log)
  }

  lemma AttachSafe(c: Client, log: Log)
    requires Safe(c, log)
    ensures Safe(Attach(c), log) && Attach(c).position == c.position
    ensures Attach(c).phase == c.phase || c.phase == Idle
  {
    hide Printed, Suffix, Text;
  }

  lemma NextAttemptSafe(c: Client, log: Log)
    requires PositionShown(c, log) && AllGenuine(c.events, log)
    ensures Safe(NextAttempt(c), log)
  {
    hide Printed, Suffix, Text;
  }

  // Appending at a new position is safe if the display, extended by it, ends there.
  lemma OutputSafe(c: Client, sink: Sink, data: string, log: Log)
    requires !c.phase.Attaching? && c.position.Some? && AllGenuine(c.events, log)
    requires Displays(c.screen.shown + data, c.screen.origin, log, c.position.value.epoch, c.position.value.sequence)
    ensures var c' := Write(c, sink, data, false);
      && Safe(c', log)
      && c'.events == c.events && c'.oldEpochs == c.oldEpochs
      && (c'.position.Some? ==> c'.position == c.position && c'.phase == c.phase)
  {
    hide Displays;
  }

  lemma SnapshotSafe(c: Client, sink: Sink, r: Reply, reset: bool, log: Log)
    requires c.phase == Working && c.position.Some? && AllGenuine(c.events, log)
    requires var p := c.position.value;
      if reset then Displays(r.snapshot, Some(r), log, p.epoch, p.sequence)
      else Displays(c.screen.shown + r.snapshot, c.screen.origin, log, p.epoch, p.sequence)
    ensures var c' := WriteSnapshot(c, sink, r, reset);
      && Safe(c', log) && c'.phase == Working
      && (c'.position.Some? ==> c'.position == c.position)
  {
    hide Displays;
    assert "" + r.snapshot == r.snapshot;
  }

  lemma ApplySafe(c: Client, sink: Sink, f: Frame, log: Log)
    requires !c.phase.Attaching? && c.position.Some? && Safe(c, log) && Genuine(f, log)
    requires f.epoch == c.position.value.epoch && f.sequence == c.position.value.sequence + 1
    ensures var c' := Apply(c, sink, f);
      && Safe(c', log) && c'.events == c.events
      && (c'.position.Some? ==> c'.position == Some(Position(f.epoch, f.sequence)) && c'.phase == c.phase)
  {
    PrintedStep(log, f.epoch, c.position.value.sequence);
    var data := if f.payload.Output? then f.payload.data else "";
    hide Printed, Suffix, Text;
    assert c.screen.shown + "" == c.screen.shown;
    DisplaysAppends(c.screen.shown, c.screen.origin, data, log, f.epoch, c.position.value.sequence, f.sequence);
    hide Displays;
    if f.payload.Output? {
      OutputSafe(c.(position := Some(Position(f.epoch, f.sequence))), sink, f.payload.data, log);
    }
  }

  predicate SameEpoch(c: Client, c': Client)
  {
    c.position.Some? && c'.position.Some? && c'.position.value.epoch == c.position.value.epoch
  }

  predicate OfEpoch(events: seq<Frame>, epoch: string)
  {
    forall i :: 0 <= i < |events| ==> events[i].epoch == epoch
  }

  // The client ready to work through buffered frames of its own epoch.
  predicate Consuming(c: Client, log: Log)
  {
    && !c.phase.Attaching? && c.position.Some? && Safe(c, log)
    && OfEpoch(c.events, c.position.value.epoch)
  }

  lemma ApplyConsuming(c: Client, sink: Sink, f: Frame, log: Log)
    requires Consuming(c, log) && Genuine(f, log)
    requires f.epoch == c.position.value.epoch && f.sequence == c.position.value.sequence + 1
    ensures var c' := Apply(c, sink, f);
      && Safe(c', log)
      && (c'.position.Some? ==> Consuming(c', log) && SameEpoch(c, c') && c'.phase == c.phase)
      && c'.events == c.events
  {
    hide Genuine, Displays, Apply;
    ApplySafe(c, sink, f, log);
  }

  lemma ConsumingFacts(c: Client, log: Log)
    requires Consuming(c, log)
    ensures c.position.Some? && Safe(c, log) && Safe(c.(requested := true), log)
    ensures c.events != [] ==>
            && Consuming(c.(events := c.events[1..]), log)
            && Consuming(c.(events := c.events[1..], characters := c.characters - Width(c.events[0])), log)
            && Genuine(c.events[0], log) && c.events[0].epoch == c.position.value.epoch
  {
    hide Displays, Genuine, Width;
  }

  lemma ConsumeLoopUnfolds(c: Client, sink: Sink)
    requires c.position.Some?
    ensures ConsumeLoop(c, sink) ==
      if c.events == [] || !c.alive then c
      else
        var f, rest := c.events[0], c.events[1..];
        var d := c.(events := rest, characters := c.characters - Width(f));
        if f.sequence <= c.position.value.sequence then ConsumeLoop(c.(events := rest), sink)
        else if f.sequence != c.position.value.sequence + 1 then c.(requested := true)
        else if Apply(d, sink, f).position == None then Apply(d, sink, f)
        else ConsumeLoop(Apply(d, sink, f), sink)
  {
    hide Apply;
  }

  lemma {:induction false} ConsumeLoopSafe(c: Client, sink: Sink, log: Log)
    requires Consuming(c, log)
    ensures Safe(ConsumeLoop(c, sink), log)
    ensures var c' := ConsumeLoop(c, sink);
      c'.position.Some? ==> SameEpoch(c, c') && c'.phase == c.phase
    decreases |c.events|
  {
    hide Consuming, Safe, Apply, ConsumeLoop, Genuine, Width;
    ConsumingFacts(c, log);
    ConsumeLoopUnfolds(c, sink);
    if c.events != [] && c.alive {
      var f, rest := c.events[0], c.events[1..];
      if f.sequence <= c.position.value.sequence {
        ConsumeLoopSafe(c.(events := rest), sink, log);
      } else if f.sequence == c.position.value.sequence + 1 {
        var d := c.(events := rest, characters := c.characters - Width(f));
        ApplyConsuming(d, sink, f, log);
        if Apply(d, sink, f).position.Some? {
          ConsumeLoopSafe(Apply(d, sink, f), sink, log);
        }
      }
    }
  }

  lemma {:induction false} InsertKeeps(f: Frame, sorted: seq<Frame>)
    ensures multiset(Insert(f, sorted)) == multiset(sorted) + multiset{f}
    decreases |sorted|
  {
    if sorted != [] && !(f.sequence < sorted[0].sequence) {
      InsertKeeps(f, sorted[1..]);
      assert sorted == [sorted[0]] + sorted[1..];
    }
  }

  lemma LastApart(events: seq<Frame>)
    requires events != []
    ensures multiset(events) == multiset(events[..|events| - 1]) + multiset{events[|events| - 1]}
  {
    assert events == events[..|events| - 1] + [events[|events| - 1]];
  }

  lemma {:induction false} SortKeeps(events: seq<Frame>)
    ensures multiset(Sort(events)) == multiset(events)
  {
    if events != [] {
      hide Insert;
      var n := |events| - 1;
      SortKeeps(events[..n]);
      InsertKeeps(events[n], Sort(events[..n]));
      LastApart(events);
    }
  }

  predicate Ordered(events: seq<Frame>)
  {
    forall i, j :: 0 <= i < j < |events| ==> events[i].sequence <= events[j].sequence
  }

  lemma {:induction false} InsertOrders(f: Frame, sorted: seq<Frame>)
    requires Ordered(sorted)
    ensures Ordered(Insert(f, sorted))
    decreases |sorted|
  {
    if sorted != [] && !(f.sequence < sorted[0].sequence) {
      InsertOrders(f, sorted[1..]);
      InsertBounded(f, sorted[1..], sorted[0].sequence);
    }
  }

  lemma {:induction false} InsertBounded(f: Frame, sorted: seq<Frame>, low: nat)
    requires f.sequence >= low && forall i :: 0 <= i < |sorted| ==> sorted[i].sequence >= low
    ensures forall i :: 0 <= i < |Insert(f, sorted)| ==> Insert(f, sorted)[i].sequence >= low
    decreases |sorted|
  {
    if sorted != [] && !(f.sequence < sorted[0].sequence) {
      InsertBounded(f, sorted[1..], low);
    }
  }

  lemma {:induction false} SortOrders(events: seq<Frame>)
    ensures Ordered(Sort(events))
  {
    if events != [] {
      SortOrders(events[..|events| - 1]);
      InsertOrders(events[|events| - 1], Sort(events[..|events| - 1]));
    }
  }

  lemma {:induction false} AheadSafe(events: seq<Frame>, p: Position, log: Log)
    requires AllGenuine(events, log)
    ensures AllGenuine(Ahead(events, p), log) && OfEpoch(Ahead(events, p), p.epoch)
  {
    if events != [] {
      AheadSafe(events[..|events| - 1], p, log);
    }
  }

  lemma SortSafe(events: seq<Frame>, epoch: string, log: Log)
    requires AllGenuine(events, log) && OfEpoch(events, epoch)
    ensures AllGenuine(Sort(events), log) && OfEpoch(Sort(events), epoch)
  {
    SortKeeps(events);
    forall i | 0 <= i < |Sort(events)|
      ensures Genuine(Sort(events)[i], log) && Sort(events)[i].epoch == epoch
    {
      assert Sort(events)[i] in multiset(events);
      assert Sort(events)[i] in events;
    }
  }

  lemma ConsumeSafe(c: Client, sink: Sink, log: Log)
    requires !c.phase.Attaching? && Safe(c, log)
    ensures var c' := Consume(c, sink);
      && Safe(c', log)
      && (c'.position.Some? ==> SameEpoch(c, c') && c'.phase == c.phase)
  {
    if c.position.Some? && !ForeignEpoch(c, c.position.value.epoch) {
      hide Displays, Sort, Ahead, ConsumeLoop;
      var p := c.position.value;
      AheadSafe(c.events, p, log);
      SortSafe(Ahead(c.events, p), p.epoch, log);
      var ahead := Sort(Ahead(c.events, p));
      ConsumeLoopSafe(c.(events := ahead, characters := Characters(ahead)), sink, log);
    }
  }

  // The client with one more frame in its buffer.
  function Buffered(c: Client, epoch: string, sequence: nat, payload: Payload): Client
  {
    var f := Frame(c.arrivals, epoch, sequence, payload);
    c.(arrivals := c.arrivals + 1, events := c.events + [f], characters := c.characters + Width(f))
  }

  lemma BufferedSafe(c: Client, log: Log, epoch: string, sequence: nat)
    requires Safe(c, log) && epoch in log && 1 <= sequence <= |log[epoch]|
    ensures var d := Buffered(c, epoch, sequence, log[epoch][sequence - 1]);
      && Safe(d, log)
      && Safe(InvalidatePosition(d.(events := [], characters := 0)), log)
      && Safe(InvalidatePosition(d).(inputGeneration := d.inputGeneration + 1), log)
    ensures Safe(c.(arrivals := c.arrivals + 1), log)
  {
    hide Displays, Width;
  }

  lemma ReceiveSafe(c: Client, sink: Sink, log: Log, epoch: string, sequence: nat)
    requires Safe(c, log) && epoch in log && 1 <= sequence <= |log[epoch]|
    ensures Safe(Receive(c, sink, epoch, sequence, log[epoch][sequence - 1]), log)
  {
    hide Safe, Attach, Consume, Width, InvalidatePosition;
    var d := Buffered(c, epoch, sequence, log[epoch][sequence - 1]);
    BufferedSafe(c, log, epoch, sequence);
    AttachSafe(InvalidatePosition(d.(events := [], characters := 0)), log);
    AttachSafe(InvalidatePosition(d).(inputGeneration := d.inputGeneration + 1), log);
    if d.phase == Idle {
      ConsumeSafe(d, sink, log);
      AttachSafe(Consume(d, sink), log);
    }
  }

  lemma {:induction false} CurrentSafe(events: seq<Frame>, epoch: string, buffered: set<Frame>, log: Log)
    requires AllGenuine(events, log)
    ensures AllGenuine(Current(events, epoch, buffered), log)
  {
    if events != [] {
      CurrentSafe(events[..|events| - 1], epoch, buffered, log);
    }
  }

  function After(c: Client): Option<nat>
    requires c.phase.Attaching?
  {
    if c.phase.cursor.Some? then Some(c.phase.cursor.value.sequence) else None
  }

  // An answer to the request that is out, made when the server had at least what the client had seen.
  predicate AnswerTo(r: Reply, c: Client, log: Log)
  {
    && c.phase.Attaching?
    && Answers(r, log, After(c))
    && (c.phase.cursor.Some? && c.phase.cursor.value.epoch == r.epoch ==>
          c.phase.cursor.value.sequence <= r.sequence)
  }

  // Appended to what is shown, or instead of it, a snapshot ends at the answer's sequence.
  lemma SnapshotEndsAtAnswer(c: Client, log: Log, r: Reply)
    requires CursorShown(c, log) && AnswerTo(r, c, log)
    requires c.phase.display == c.displayGeneration
    requires c.phase.cursor.Some? ==> c.phase.cursor.value.epoch == r.epoch
    ensures if NeedsReset(c.phase.cursor, r) then Displays(r.snapshot, Some(r), log, r.epoch, r.sequence)
            else Displays(c.screen.shown + r.snapshot, c.screen.origin, log, r.epoch, r.sequence)
  {
    hide Printed, Suffix, Text;
    if NeedsReset(c.phase.cursor, r) {
      hide Displays;
      SnapshotDisplays(r, log, After(c));
    } else {
      DisplaysAppends(c.screen.shown, c.screen.origin, r.snapshot, log, r.epoch, c.phase.cursor.value.sequence, r.sequence);
    }
  }

  lemma AtAnswerFacts(c: Client, log: Log, r: Reply)
    requires c.phase.Attaching? && AllGenuine(c.events, log)
    ensures var a := AtAnswer(c, r);
      && a.phase == Working && a.position == Some(Position(r.epoch, r.sequence)) && a.screen.shown == c.screen.shown && a.screen.origin == c.screen.origin
      && AllGenuine(a.events, log)
  {
    hide Current;
    CurrentSafe(c.events, r.epoch, c.phase.buffered, log);
  }

  // Adopting an answer first writes its snapshot, which leaves the client safe at the answer's sequence.
  lemma AdoptWrites(c: Client, sink: Sink, log: Log, r: Reply) returns (written: Client)
    requires Safe(c, log) && AnswerTo(r, c, log)
    requires c.phase.display == c.displayGeneration
    requires c.phase.cursor.Some? ==> c.phase.cursor.value.epoch == r.epoch
    ensures written.phase == Working && Safe(written, log)
    ensures written.position.Some? ==> written.position.value.epoch == r.epoch
    ensures Adopt(c, sink, r).position == Consume(written, sink).position
    ensures Adopt(c, sink, r).screen.shown == Consume(written, sink).screen.shown
    ensures Adopt(c, sink, r).screen.origin == Consume(written, sink).screen.origin
    ensures Adopt(c, sink, r).events == Consume(written, sink).events
  {
    hide Displays, Answers, AtAnswer, WriteSnapshot, Consume, AllGenuine, NeedsReset;
    var reset := NeedsReset(c.phase.cursor, r);
    SnapshotEndsAtAnswer(c, log, r);
    AtAnswerFacts(c, log, r);
    SnapshotSafe(AtAnswer(c, r), sink, r, reset, log);
    written := WriteSnapshot(AtAnswer(c, r), sink, r, reset);
  }

  lemma AdoptSafe(c: Client, sink: Sink, log: Log, r: Reply)
    requires Safe(c, log) && AnswerTo(r, c, log)
    requires c.phase.display == c.displayGeneration
    requires c.phase.cursor.Some? ==> c.phase.cursor.value.epoch == r.epoch
    ensures PositionShown(Adopt(c, sink, r), log) && AllGenuine(Adopt(c, sink, r).events, log)
  {
    var written := AdoptWrites(c, sink, log, r);
    ConsumeSafe(written, sink, log);
    hide Displays, Answers, Adopt, Consume, Genuine;
  }

  lemma AttachAnsweredSafe(c: Client, sink: Sink, log: Log, r: Reply)
    requires Safe(c, log) && AnswerTo(r, c, log)
    ensures Safe(AttachAnswered(c, sink, r), log)
  {
    hide Displays, Answers, Adopt, NextAttempt;
    if c.alive {
      if c.phase.display == c.displayGeneration &&
         (c.phase.cursor.Some? ==> c.phase.cursor.value.epoch == r.epoch) {
        AdoptSafe(c, sink, log, r);
        NextAttemptSafe(Adopt(c, sink, r), log);
      } else if c.phase.display != c.displayGeneration {
        NextAttemptSafe(InvalidatePosition(c).(requested := true), log);
      } else {
        NextAttemptSafe(InvalidatePosition(c).(oldEpochs := c.oldEpochs + {c.phase.cursor.value.epoch},
                                               inputGeneration := c.inputGeneration + 1, requested := true), log);
      }
    }
  }

  lemma OtherCallbacksSafe(c: Client, log: Log, supported: bool)
    requires Safe(c, log)
    ensures Safe(PingAnswered(c, supported), log)
    ensures Safe(AttachEnded(c), log)
    ensures Safe(Resubscribe(c), log)
  {
    hide Printed, Suffix, Text;
  }

  lemma DisplayReadySafe(c: Client, log: Log)
    requires Safe(c, log)
    ensures Safe(DisplayReady(c), log)
  {
    hide Displays;
  }

  // ---- Runs ----

  // The client, the server's log, its current epoch, and the answer on its way to the client.
  datatype World = World(client: Client, log: Log, epoch: string, answer: Option<Reply>)

  datatype Event =
    | Emit(payload: Payload)
    | Restart(epoch: string)
    | Deliver(epoch: string, sequence: nat)
    | PingReturns(supported: bool)
    | ServerAnswers(first: nat, limit: nat)
    | AnswerArrives
    | RequestEnds
    | DisplayRestarts
    | Refresh
    | Environment(alive: bool)
    | EffectRestarts

  function Begin(epoch: string): World
  {
    World(Attach(Init()), map[epoch := []], epoch, None)
  }

  // A step that is not possible changes nothing.
  function Step(w: World, sink: Sink, e: Event): World
  {
    var c := w.client;
    match e
    case Emit(payload) =>
      if w.epoch in w.log then w.(log := w.log[w.epoch := w.log[w.epoch] + [payload]]) else w
    case Restart(epoch) =>
      if epoch in w.log then w
      else w.(log := w.log[epoch := [StatusChange("interrupted")]], epoch := epoch)
    case Deliver(epoch, sequence) =>
      if epoch in w.log && 1 <= sequence <= |w.log[epoch]| then
        w.(client := Receive(c, sink, epoch, sequence, w.log[epoch][sequence - 1]))
      else w
    case PingReturns(supported) => w.(client := PingAnswered(c, supported))
    case ServerAnswers(first, limit) =>
      if w.epoch in w.log && c.phase.Attaching? && w.answer == None && 1 <= first <= |w.log[w.epoch]| + 1 then
        w.(answer := Some(Serve(w.log, w.epoch, After(c), first, limit)))
      else w
    case AnswerArrives =>
      if c.phase.Attaching? && w.answer.Some? then
        w.(client := AttachAnswered(c, sink, w.answer.value), answer := None)
      else w
    case RequestEnds => w.(client := AttachEnded(c), answer := None)
    case DisplayRestarts => w.(client := DisplayReady(c))
    case Refresh => w.(client := Attach(c))
    case Environment(alive) => w.(client := c.(alive := alive))
    case EffectRestarts => w.(client := Resubscribe(c), answer := None)
  }

  predicate WorldInv(w: World)
  {
    && w.epoch in w.log
    && Safe(w.client, w.log)
    && (w.answer.Some? ==> AnswerTo(w.answer.value, w.client, w.log))
  }

  lemma LogGrows(w: World, later: Log, epoch: string)
    requires WorldInv(w) && Extends(later, w.log) && epoch in later
    ensures WorldInv(w.(log := later, epoch := epoch))
  {
    var c := w.client;
    if c.position.Some? {
      DisplaysExtends(c.screen.shown, c.screen.origin, w.log, later, c.position.value.epoch, c.position.value.sequence);
    }
    if c.phase.Attaching? && c.phase.cursor.Some? && c.phase.display == c.displayGeneration {
      DisplaysExtends(c.screen.shown, c.screen.origin, w.log, later, c.phase.cursor.value.epoch, c.phase.cursor.value.sequence);
    }
    if w.answer.Some? {
      AnswersExtends(w.answer.value, w.log, later, After(c));
    }
    hide Displays, Answers;
    forall i | 0 <= i < |c.events|
      ensures Genuine(c.events[i], later)
    {
      assert Genuine(c.events[i], w.log);
    }
  }

  // An outstanding request survives any callback that is not its own answer.
  lemma StillAttaching(c: Client, sink: Sink, epoch: string, sequence: nat, payload: Payload, supported: bool)
    requires c.phase.Attaching?
    ensures Receive(c, sink, epoch, sequence, payload).phase == c.phase
    ensures PingAnswered(c, supported).phase == c.phase
    ensures DisplayReady(c).phase == c.phase
    ensures Attach(c).phase == c.phase
  {
    hide Consume, Width;
  }

  lemma ServedAnswers(w: World, first: nat, limit: nat)
    requires WorldInv(w) && w.client.phase.Attaching? && 1 <= first <= |w.log[w.epoch]| + 1
    ensures AnswerTo(Serve(w.log, w.epoch, After(w.client), first, limit), w.client, w.log)
  {
    ServeAnswers(w.log, w.epoch, After(w.client), first, limit);
    hide Displays, Answers, Serve;
  }

  lemma EnvironmentSafe(c: Client, log: Log, alive: bool)
    requires Safe(c, log)
    ensures Safe(c.(alive := alive), log)
  {
    hide Displays, Genuine;
  }

  lemma StepKeeps(w: World, sink: Sink, e: Event)
    requires WorldInv(w)
    ensures WorldInv(Step(w, sink, e))
  {
    hide Safe, Answers, Extends, Receive, PingAnswered, AttachAnswered, AttachEnded, DisplayReady, Attach, Resubscribe,
         Serve;
    var c := w.client;
    if w.answer.Some? {
      StillAttaching(c, sink, "", 0, StatusChange(""), true);
    }
    match e
    case Emit(payload) =>
      AppendExtends(w, payload);
      LogGrows(w, w.log[w.epoch := w.log[w.epoch] + [payload]], w.epoch);
    case Restart(epoch) =>
      if epoch !in w.log {
        FreshExtends(w, epoch);
        LogGrows(w, w.log[epoch := [StatusChange("interrupted")]], epoch);
      }
    case Deliver(epoch, sequence) =>
      if epoch in w.log && 1 <= sequence <= |w.log[epoch]| {
        ReceiveSafe(c, sink, w.log, epoch, sequence);
        if w.answer.Some? {
          StillAttaching(c, sink, epoch, sequence, w.log[epoch][sequence - 1], true);
        }
      }
    case PingReturns(supported) =>
      OtherCallbacksSafe(c, w.log, supported);
      if w.answer.Some? {
        StillAttaching(c, sink, "", 0, StatusChange(""), supported);
      }
    case ServerAnswers(first, limit) =>
      if c.phase.Attaching? && 1 <= first <= |w.log[w.epoch]| + 1 {
        ServedAnswers(w, first, limit);
      }
    case AnswerArrives =>
      if c.phase.Attaching? && w.answer.Some? {
        AttachAnsweredSafe(c, sink, w.log, w.answer.value);
      }
    case RequestEnds => OtherCallbacksSafe(c, w.log, true);
    case DisplayRestarts => DisplayReadySafe(c, w.log);
    case Refresh => AttachSafe(c, w.log);
    case Environment(alive) => EnvironmentSafe(c, w.log, alive);
    case EffectRestarts => OtherCallbacksSafe(c, w.log, true);
  }

  lemma AppendExtends(w: World, payload: Payload)
    requires w.epoch in w.log
    ensures Extends(w.log[w.epoch := w.log[w.epoch] + [payload]], w.log)
  {
  }

  lemma FreshExtends(w: World, epoch: string)
    requires epoch !in w.log
    ensures Extends(w.log[epoch := [StatusChange("interrupted")]], w.log)
  {
  }

  function Run(w: World, sink: Sink, events: seq<Event>): World
    decreases |events|
  {
    if events == [] then w else Run(Step(w, sink, events[0]), sink, events[1..])
  }

  lemma {:induction false} RunKeeps(w: World, sink: Sink, events: seq<Event>)
    requires WorldInv(w)
    ensures WorldInv(Run(w, sink, events))
    decreases |events|
  {
    if events != [] {
      hide WorldInv, Step;
      StepKeeps(w, sink, events[0]);
      RunKeeps(Step(w, sink, events[0]), sink, events[1..]);
    }
  }

  lemma BeginInv(epoch: string)
    ensures WorldInv(Begin(epoch))
  {
  }

  /** Whatever is delivered, repeated, reordered or lost, whatever the output queue refuses, and however often the
      server, the display or the effect restarts: when the client has a position, the display was last reset with the
      snapshot of an answer of the position's own epoch, and has since been given exactly the output of the events after
      that answer up to the position, in order, none missing and none twice. If that snapshot was not truncated, the
      display holds everything the epoch has printed. */
  lemma DisplayIsContiguous(epoch: string, sink: Sink, events: seq<Event>)
    ensures var w := Run(Begin(epoch), sink, events);
      w.client.position.Some? ==>
        var p := w.client.position.value;
        && w.client.screen.origin.Some? && p.epoch in w.log
        && var r := w.client.screen.origin.value;
           && r.epoch == p.epoch && r.sequence <= p.sequence <= |w.log[p.epoch]|
           && w.client.screen.shown == r.snapshot + Text(w.log[p.epoch][r.sequence..p.sequence])
           && Suffix(r.snapshot, Printed(w.log, p.epoch, r.sequence))
           && Suffix(w.client.screen.shown, Printed(w.log, p.epoch, p.sequence))
           && (!r.truncated ==> w.client.screen.shown == Printed(w.log, p.epoch, p.sequence))
  {
    BeginInv(epoch);
    RunKeeps(Begin(epoch), sink, events);
    var w := Run(Begin(epoch), sink, events);
    hide Run, Text, Printed, Suffix;
    if w.client.position.Some? {
      WholeDisplays(w.client.screen.shown, w.client.screen.origin, w.log, w.client.position.value.epoch,
                    w.client.position.value.sequence);
    }
  }

  // The step that hands the answer of the request that is out to a client that adopts it.
  predicate AdoptsAnswer(w: World, e: Event)
  {
    var c := w.client;
    && e.AnswerArrives? && c.phase.Attaching? && w.answer.Some? && c.alive
    && c.phase.display == c.displayGeneration
    && (c.phase.cursor.Some? ==> c.phase.cursor.value.epoch == w.answer.value.epoch)
  }

  /** While an attach is under way, in any of its awaits, no step moves the position but the adoption of its answer: it
      stays as it is or is lost. */
  lemma AttachHoldsPosition(w: World, sink: Sink, e: Event)
    requires w.client.phase != Idle && !AdoptsAnswer(w, e)
    ensures var p := Step(w, sink, e).client.position; p == w.client.position || p == None
  {
    hide Receive, AttachAnswered, Serve, PingAnswered, AttachEnded, DisplayReady, Attach, Resubscribe;
    var c := w.client;
    match e
    case Deliver(epoch, sequence) =>
      if epoch in w.log && 1 <= sequence <= |w.log[epoch]| {
        DeliveryHoldsPosition(c, sink, epoch, sequence, w.log[epoch][sequence - 1]);
      }
    case AnswerArrives =>
      if c.phase.Attaching? && w.answer.Some? {
        RefusedAnswerHoldsPosition(w, sink);
      }
    case _ => OtherStepsHoldPosition(w, sink, e);
  }

  lemma OtherStepsHoldPosition(w: World, sink: Sink, e: Event)
    requires !e.Deliver? && !e.AnswerArrives?
    ensures var p := Step(w, sink, e).client.position; p == w.client.position || p == None
  {
    hide Receive, AttachAnswered, Serve;
  }

  lemma DeliveryHoldsPosition(c: Client, sink: Sink, epoch: string, sequence: nat, payload: Payload)
    requires c.phase != Idle
    ensures var p := Receive(c, sink, epoch, sequence, payload).position; p == c.position || p == None
  {
    hide Consume, Width;
  }

  lemma RefusedAnswerHoldsPosition(w: World, sink: Sink)
    requires w.client.phase.Attaching? && w.answer.Some? && !AdoptsAnswer(w, AnswerArrives)
    ensures var p := AttachAnswered(w.client, sink, w.answer.value).position; p == w.client.position || p == None
  {
    hide Adopt;
  }

  // An attach is under way all along, and none of its answers is adopted.
  predicate Awaits(w: World, sink: Sink, events: seq<Event>)
    decreases |events|
  {
    events == [] ||
    (w.client.phase != Idle && !AdoptsAnswer(w, events[0]) && Awaits(Step(w, sink, events[0]), sink, events[1..]))
  }

  lemma {:induction false} AwaitingHoldsPosition(w: World, sink: Sink, events: seq<Event>)
    requires Awaits(w, sink, events)
    ensures var p := Run(w, sink, events).client.position; p == w.client.position || p == None
    decreases |events|
  {
    if events != [] {
      AttachHoldsPosition(w, sink, events[0]);
      hide Step;
      AwaitingHoldsPosition(Step(w, sink, events[0]), sink, events[1..]);
    }
  }

  /** However long an attach awaits the ping, the server or a detach, and whatever arrives meanwhile, the position never
      advances: it is the one the attach found, or lost. While the request itself is out, it is the one that was named in
      it, or lost. */
  lemma PositionHeldWhileAttaching(epoch: string, sink: Sink, events: seq<Event>, more: seq<Event>)
    requires Awaits(Run(Begin(epoch), sink, events), sink, more)
    ensures var w := Run(Begin(epoch), sink, events);
      var c, d := w.client, Run(w, sink, more).client;
      && (d.position == c.position || d.position == None)
      && (c.phase.Attaching? && c.position.Some? ==> c.phase.cursor == c.position)
      && (d.phase.Attaching? && d.position.Some? ==> d.phase.cursor == d.position)
  {
    var w := Run(Begin(epoch), sink, events);
    BeginInv(epoch);
    RunKeeps(Begin(epoch), sink, events);
    RunKeeps(w, sink, more);
    hide Step, Awaits;
    AwaitingHoldsPosition(w, sink, more);
  }

  // ---- Epochs ----

  lemma AnswerKeepsEpoch(c: Client, sink: Sink, log: Log, r: Reply)
    requires Safe(c, log) && AnswerTo(r, c, log)
    ensures var c' := AttachAnswered(c, sink, r);
      c.position.Some? && c'.position.Some? ==> SameEpoch(c, c')
  {
    if c.alive && c.phase.display == c.displayGeneration &&
       (c.phase.cursor.Some? ==> c.phase.cursor.value.epoch == r.epoch) {
      AdoptedEpoch(c, sink, log, r);
    }
    hide Safe, Answers, Adopt;
  }

  lemma AdoptedEpoch(c: Client, sink: Sink, log: Log, r: Reply)
    requires Safe(c, log) && AnswerTo(r, c, log)
    requires c.phase.display == c.displayGeneration
    requires c.phase.cursor.Some? ==> c.phase.cursor.value.epoch == r.epoch
    ensures Adopt(c, sink, r).position.Some? ==> Adopt(c, sink, r).position.value.epoch == r.epoch
    ensures c.position.Some? ==> c.position.value.epoch == r.epoch
  {
    var written := AdoptWrites(c, sink, log, r);
    hide Safe, Answers, Consume;
    ConsumeSafe(written, sink, log);
  }

  lemma StepKeepsEpoch(w: World, sink: Sink, e: Event)
    requires WorldInv(w)
    ensures var c, c' := w.client, Step(w, sink, e).client;
      c.position.Some? && c'.position.Some? ==> SameEpoch(c, c')
  {
    hide Safe, Answers, Receive, AttachAnswered;
    var c := w.client;
    match e
    case Deliver(epoch, sequence) =>
      if epoch in w.log && 1 <= sequence <= |w.log[epoch]| {
        DeliveryKeepsEpoch(c, sink, w.log, epoch, sequence);
      }
    case AnswerArrives =>
      if c.phase.Attaching? && w.answer.Some? {
        AnswerKeepsEpoch(c, sink, w.log, w.answer.value);
      }
    case _ =>
  }

  /** No step of any run moves the client from a position in one epoch to a position in another: in between, the
      position is lost. */
  lemma EpochChangesOnlyThroughLoss(epoch: string, sink: Sink, events: seq<Event>, e: Event)
    ensures var w := Run(Begin(epoch), sink, events);
      var c, c' := w.client, Step(w, sink, e).client;
      c.position.Some? && c'.position.Some? ==> c'.position.value.epoch == c.position.value.epoch
  {
    hide WorldInv, Step;
    BeginInv(epoch);
    RunKeeps(Begin(epoch), sink, events);
    StepKeepsEpoch(Run(Begin(epoch), sink, events), sink, e);
  }

  lemma DeliveryKeepsEpoch(c: Client, sink: Sink, log: Log, epoch: string, sequence: nat)
    requires Safe(c, log) && epoch in log && 1 <= sequence <= |log[epoch]|
    ensures var c' := Receive(c, sink, epoch, sequence, log[epoch][sequence - 1]);
      c.position.Some? && c'.position.Some? ==> SameEpoch(c, c')
  {
    hide Safe, Consume, Width;
    var d := Buffered(c, epoch, sequence, log[epoch][sequence - 1]);
    BufferedSafe(c, log, epoch, sequence);
    if d.phase == Idle {
      ConsumeSafe(d, sink, log);
    }
  }

  /** An epoch change always forces a reset: between two moments of a run with positions in different epochs the output
      queue has accepted a snapshot of the later epoch as a reset, and the display holds nothing from before it. */
  lemma EpochChangeForcesReset(epoch: string, sink: Sink, events: seq<Event>, more: seq<Event>)
    requires var c, d := Run(Begin(epoch), sink, events).client, Run(Run(Begin(epoch), sink, events), sink, more).client;
      c.position.Some? && d.position.Some? && c.position.value.epoch != d.position.value.epoch
    ensures var v := Run(Run(Begin(epoch), sink, events), sink, more);
      var c, d := Run(Begin(epoch), sink, events).client, v.client;
      && d.screen.origin.Some? && d.screen.origin != c.screen.origin && d.position.value.epoch in v.log
      && var r, p := d.screen.origin.value, d.position.value;
         && r.epoch == p.epoch && r.sequence <= p.sequence <= |v.log[p.epoch]|
         && d.screen.shown == r.snapshot + Text(v.log[p.epoch][r.sequence..p.sequence])
         && Suffix(r.snapshot, Printed(v.log, p.epoch, r.sequence))
  {
    BeginInv(epoch);
    RunKeeps(Begin(epoch), sink, events);
    RunKeeps(Run(Begin(epoch), sink, events), sink, more);
    hide Run, Text, Printed, Suffix;
  }

  // ---- What an answer does to the display ----

  function WithShown(c: Client, shown: string): Client
  {
    c.(screen := c.screen.(shown := shown))
  }

  function WithMore(c: Client, x: string): Client
  {
    WithShown(c, x + c.screen.shown)
  }

  lemma WriteKeepsMore(c: Client, sink: Sink, data: string, x: string)
    ensures Write(WithMore(c, x), sink, data, false) == WithMore(Write(c, sink, data, false), x)
  {
    assert x + (c.screen.shown + data) == x + c.screen.shown + data;
    var lost := InvalidatePosition(c.(screen := c.screen.(pushes := c.screen.pushes + 1)));
    AttachKeepsMore(lost, x);
    hide Attach;
  }

  lemma AttachKeepsMore(c: Client, x: string)
    ensures Attach(WithMore(c, x)) == WithMore(Attach(c), x)
  {
  }

  lemma ApplyKeepsMore(c: Client, sink: Sink, f: Frame, x: string)
    ensures Apply(WithMore(c, x), sink, f) == WithMore(Apply(c, sink, f), x)
  {
    hide Write;
    var moved := c.(position := Some(Position(f.epoch, f.sequence)));
    assert WithMore(c, x).(position := moved.position) == WithMore(moved, x);
    if f.payload.Output? {
      WriteKeepsMore(moved, sink, f.payload.data, x);
    }
  }

  lemma {:induction false} ConsumeLoopKeepsMore(c: Client, sink: Sink, x: string)
    requires c.position.Some?
    ensures ConsumeLoop(WithMore(c, x), sink) == WithMore(ConsumeLoop(c, sink), x)
    decreases |c.events|
  {
    hide Apply, Width, ConsumeLoop;
    ConsumeLoopUnfolds(c, sink);
    ConsumeLoopUnfolds(WithMore(c, x), sink);
    if c.events != [] && c.alive {
      var f, rest := c.events[0], c.events[1..];
      var d := c.(events := rest, characters := c.characters - Width(f));
      assert WithMore(c, x).(events := rest) == WithMore(c.(events := rest), x);
      assert WithMore(c, x).(events := rest, characters := d.characters) == WithMore(d, x);
      if f.sequence <= c.position.value.sequence {
        ConsumeLoopKeepsMore(c.(events := rest), sink, x);
      } else if f.sequence == c.position.value.sequence + 1 {
        ApplyKeepsMore(d, sink, f, x);
        ApplyKeepsBuffer(d, sink, f);
        if Apply(d, sink, f).position.Some? {
          ConsumeLoopKeepsMore(Apply(d, sink, f), sink, x);
        }
      }
    }
  }

  lemma ConsumeKeepsMore(c: Client, sink: Sink, x: string)
    ensures Consume(WithMore(c, x), sink) == WithMore(Consume(c, sink), x)
  {
    hide ConsumeLoop, Sort, Ahead, Characters;
    if c.position.Some? && !ForeignEpoch(c, c.position.value.epoch) {
      var ahead := Sort(Ahead(c.events, c.position.value));
      var d := c.(events := ahead, characters := Characters(ahead));
      assert WithMore(c, x).(events := ahead, characters := d.characters) == WithMore(d, x);
      ConsumeLoopKeepsMore(d, sink, x);
    }
  }

  lemma AppendedAnswerKeepsMore(c: Client, sink: Sink, r: Reply, x: string)
    requires c.phase.Attaching? && !NeedsReset(c.phase.cursor, r)
    ensures Adopt(WithMore(c, x), sink, r).screen.shown == x + Adopt(c, sink, r).screen.shown
  {
    var a := AtAnswer(c, r);
    assert AtAnswer(WithMore(c, x), r) == WithMore(a, x) by {
      hide Current;
      assert Outdated(WithMore(c, x), r) == Outdated(c, r);
    }
    hide AtAnswer, Write, Consume;
    WriteKeepsMore(a, sink, r.snapshot, x);
    ConsumeKeepsMore(WriteSnapshot(a, sink, r, false), sink, x);
  }

  lemma ResetAnswerForgets(c: Client, sink: Sink, r: Reply, other: string)
    requires c.phase.Attaching? && NeedsReset(c.phase.cursor, r) && Adopt(c, sink, r).position.Some?
    ensures Adopt(WithShown(c, other), sink, r).screen.shown == Adopt(c, sink, r).screen.shown
  {
    hide Consume, Current;
    assert Outdated(c, r) == Outdated(WithShown(c, other), r);
    hide Outdated;
    if !sink(c.screen.pushes) {
      LostStaysLost(c, sink, r);
    }
  }

  lemma LostStaysLost(c: Client, sink: Sink, r: Reply)
    requires c.phase.Attaching? && !sink(c.screen.pushes)
    ensures Adopt(c, sink, r).position == None
  {
    hide ConsumeLoop, Current, Outdated;
  }

  // The display after an adopted answer does not depend on what it held before.
  ghost predicate Replaces(c: Client, sink: Sink, r: Reply)
    requires c.phase.Attaching?
  {
    forall other :: Adopt(WithShown(c, other), sink, r).screen.shown == Adopt(c, sink, r).screen.shown
  }

  /** A snapshot that is adopted replaces what was displayed exactly when its request was sent without a position, or
      named another epoch, or the snapshot is truncated. Otherwise it is appended, and that includes a position lost
      while the request was out: the display still ends at the position the request named. */
  lemma ReplacesExactly(c: Client, sink: Sink, r: Reply)
    requires c.phase.Attaching? && Adopt(c, sink, r).position.Some?
    ensures Replaces(c, sink, r) <==> NeedsReset(c.phase.cursor, r)
  {
    hide Adopt, NeedsReset;
    if NeedsReset(c.phase.cursor, r) {
      forall other
        ensures Adopt(WithShown(c, other), sink, r).screen.shown == Adopt(c, sink, r).screen.shown
      {
        ResetAnswerForgets(c, sink, r, other);
      }
    } else {
      AppendedAnswerKeepsMore(c, sink, r, "x");
      assert Adopt(WithShown(c, "x" + c.screen.shown), sink, r).screen.shown != Adopt(c, sink, r).screen.shown by {
        assert |"x" + Adopt(c, sink, r).screen.shown| == 1 + |Adopt(c, sink, r).screen.shown|;
      }
    }
  }

  /** In particular, after a request sent without a position, what the display then holds does not depend on anything it
      held before. */
  lemma LostPositionForcesReset(c: Client, sink: Sink, r: Reply, other: string)
    requires c.phase.Attaching? && c.phase.cursor == None
    ensures Adopt(c, sink, r).position.Some? ==>
            Adopt(c, sink, r).screen.shown == Adopt(WithShown(c, other), sink, r).screen.shown
  {
    hide Adopt;
    if Adopt(c, sink, r).position.Some? {
      ResetAnswerForgets(c, sink, r, other);
    }
  }

  // ---- Progress ----

  lemma {:induction false} ConsumeLoopDrains(c: Client, sink: Sink)
    requires c.position.Some? && c.alive && Ordered(c.events)
    ensures var c' := ConsumeLoop(c, sink);
      c'.position.Some? ==> forall i :: 0 <= i < |c'.events| ==> c'.events[i].sequence > c'.position.value.sequence + 1
    decreases |c.events|
  {
    hide ConsumeLoop, Apply;
    ConsumeLoopUnfolds(c, sink);
    if c.events != [] {
      var f, rest := c.events[0], c.events[1..];
      assert Ordered(rest);
      if f.sequence <= c.position.value.sequence {
        ConsumeLoopDrains(c.(events := rest), sink);
      } else if f.sequence == c.position.value.sequence + 1 {
        var d := c.(events := rest, characters := c.characters - Width(f));
        ApplyKeepsBuffer(d, sink, f);
        if Apply(d, sink, f).position.Some? {
          ConsumeLoopDrains(Apply(d, sink, f), sink);
        }
      }
    }
  }

  lemma ApplyKeepsBuffer(c: Client, sink: Sink, f: Frame)
    ensures Apply(c, sink, f).events == c.events && Apply(c, sink, f).alive == c.alive
  {
  }

  /** Consuming leaves nothing behind that could have been shown: if the position survives, every frame still buffered
      lies beyond a gap. */
  lemma ConsumeLeavesOnlyGaps(c: Client, sink: Sink)
    requires c.position.Some? && c.alive
    ensures var c' := Consume(c, sink);
      c'.position.Some? ==> forall i :: 0 <= i < |c'.events| ==> c'.events[i].sequence > c'.position.value.sequence + 1
  {
    hide ConsumeLoop, Sort, Ahead, Ordered;
    if !ForeignEpoch(c, c.position.value.epoch) {
      var ahead := Sort(Ahead(c.events, c.position.value));
      SortOrders(Ahead(c.events, c.position.value));
      ConsumeLoopDrains(c.(events := ahead, characters := Characters(ahead)), sink);
    }
  }
}
