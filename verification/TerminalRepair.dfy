/** Gap repair (Terminal.tsx): a frame that reaches an idle client is shown or makes it fetch what is missing, and a
    client that is behind can always catch up. */
module TerminalRepair {
  import opened Options
  import opened TerminalLog
  import opened TerminalStream
  import opened TerminalSafety

  // ---- Every frame is shown or fetched ----

  // An attach is under way that will ask the server again.
  predicate Repairing(c: Client)
  {
    c.phase.Pinging? || c.phase.Attaching?
  }

  predicate Reached(c: Client, epoch: string, sequence: nat)
  {
    c.position.Some? && c.position.value.epoch == epoch && sequence <= c.position.value.sequence
  }

  predicate AllReached(c: Client, events: seq<Frame>)
  {
    forall i :: 0 <= i < |events| ==> Reached(c, events[i].epoch, events[i].sequence)
  }

  // Attaching from rest always starts something: a ping, or the first of at most three requests.
  lemma AttachStarts(c: Client)
    requires c.phase == Idle && c.alive
    ensures Repairing(Attach(c))
  {
  }

  lemma WriteOrRepair(c: Client, sink: Sink, f: Frame)
    requires c.phase == Idle && c.alive
    ensures var c' := Apply(c, sink, f);
      && c'.events == c.events && c'.alive
      && (if c'.position.Some? then c'.phase == Idle && c'.position.value == Position(f.epoch, f.sequence)
          else Repairing(c'))
  {
  }

  // What a pass over the buffer ends in, from rest: a repair, or everything shown, or a gap that asks for one.
  predicate Passed(c: Client, events: seq<Frame>, c': Client)
    requires c.position.Some?
  {
    if c'.position == None then Repairing(c')
    else
      && c'.phase == Idle && c'.alive
      && Reached(c', c.position.value.epoch, c.position.value.sequence)
      && (if c'.events == [] then AllReached(c', events) else c'.requested)
  }

  lemma {:induction false} ConsumeLoopPasses(c: Client, sink: Sink)
    requires c.phase == Idle && c.alive && c.position.Some? && OfEpoch(c.events, c.position.value.epoch)
    ensures Passed(c, c.events, ConsumeLoop(c, sink))
    decreases |c.events|
  {
    hide ConsumeLoop, Apply;
    ConsumeLoopUnfolds(c, sink);
    if c.events != [] {
      var f, rest := c.events[0], c.events[1..];
      assert c.events == [f] + rest;
      if f.sequence <= c.position.value.sequence {
        ConsumeLoopPasses(c.(events := rest), sink);
      } else if f.sequence == c.position.value.sequence + 1 {
        var d := c.(events := rest, characters := c.characters - Width(f));
        WriteOrRepair(d, sink, f);
        if Apply(d, sink, f).position.Some? {
          ConsumeLoopPasses(Apply(d, sink, f), sink);
        }
      }
    }
  }

  lemma {:induction false} AheadHolds(events: seq<Frame>, p: Position)
    ensures OfEpoch(Ahead(events, p), p.epoch)
    ensures forall f :: f in events && f.epoch == p.epoch && f.sequence > p.sequence ==> f in Ahead(events, p)
  {
    if events != [] {
      AheadHolds(events[..|events| - 1], p);
      assert events == events[..|events| - 1] + [events[|events| - 1]];
    }
  }

  lemma SortHolds(events: seq<Frame>, epoch: string)
    requires OfEpoch(events, epoch)
    ensures OfEpoch(Sort(events), epoch)
    ensures forall f :: f in events ==> f in Sort(events)
  {
    hide Sort;
    SortKeeps(events);
    var sorted := Sort(events);
    forall f
      ensures f in sorted <==> f in events
    {
      assert f in multiset(sorted) <==> f in multiset(events);
    }
    forall i | 0 <= i < |sorted|
      ensures sorted[i].epoch == epoch
    {
      assert sorted[i] in sorted;
    }
  }

  // Where a consume at rest leaves a buffered frame of the position's epoch.
  predicate ShownOrAsked(d: Client, f: Frame)
  {
    || Repairing(d)
    || (d.phase == Idle && d.alive && d.requested)
    || (d.phase == Idle && d.alive && d.events == [] && Reached(d, f.epoch, f.sequence))
  }

  lemma ConsumeShowsOrAsks(c: Client, sink: Sink, f: Frame)
    requires c.phase == Idle && c.alive && c.position.Some? && f in c.events
    requires f.epoch == c.position.value.epoch && f.sequence > c.position.value.sequence
    ensures ShownOrAsked(Consume(c, sink), f)
  {
    var p := c.position.value;
    hide ConsumeLoop, Sort, Ahead;
    if !ForeignEpoch(c, p.epoch) {
      var ahead := Sort(Ahead(c.events, p));
      AheadHolds(c.events, p);
      SortHolds(Ahead(c.events, p), p.epoch);
      var d := c.(events := ahead, characters := Characters(ahead));
      ConsumeLoopPasses(d, sink);
      var i :| 0 <= i < |ahead| && ahead[i] == f;
    }
  }

  // Whether the subscription drops a frame before buffering it: its epoch is over, or it is not ahead of the position.
  predicate Dropped(c: Client, epoch: string, sequence: nat)
  {
    epoch in c.oldEpochs || Reached(c, epoch, sequence)
  }

  lemma AttachRepairs(c: Client)
    requires Repairing(c) || (c.phase == Idle && c.alive)
    ensures Repairing(Attach(c))
  {
  }

  // What the subscription does with a frame at rest: it starts an attach, unless consuming leaves nothing to ask for.
  lemma RepairsOrConsumes(c: Client, sink: Sink, epoch: string, sequence: nat, payload: Payload)
    requires c.phase == Idle && c.alive && !Dropped(c, epoch, sequence)
    ensures var c', consumed := Receive(c, sink, epoch, sequence, payload),
                                Consume(Buffered(c, epoch, sequence, payload), sink);
      || Repairing(c')
      || (c.position.Some? && c.position.value.epoch == epoch && c' == consumed && !consumed.requested)
      || (c.position.Some? && c.position.value.epoch == epoch && c' == Attach(consumed) && consumed.requested)
  {
    hide Consume, Attach, Width;
    var d := Buffered(c, epoch, sequence, payload);
    AttachStarts(InvalidatePosition(d.(events := [], characters := 0)));
    AttachStarts(InvalidatePosition(d).(inputGeneration := d.inputGeneration + 1));
  }

  /** A frame that reaches an idle client is dropped only if its epoch is over or the position is already past it, and
      then nothing else happens. Otherwise either an attach is under way afterwards, or the position has reached the frame
      and the buffer is empty. */
  lemma FrameShownOrFetched(c: Client, sink: Sink, epoch: string, sequence: nat, payload: Payload)
    requires c.phase == Idle && c.alive
    ensures var c' := Receive(c, sink, epoch, sequence, payload);
      if Dropped(c, epoch, sequence) then c' == c.(arrivals := c.arrivals + 1)
      else Repairing(c') || (c'.phase == Idle && c'.events == [] && Reached(c', epoch, sequence))
  {
    if !Dropped(c, epoch, sequence) {
      var f := Frame(c.arrivals, epoch, sequence, payload);
      var d := Buffered(c, epoch, sequence, payload);
      assert f == d.events[|d.events| - 1];
      RepairsOrConsumes(c, sink, epoch, sequence, payload);
      if d.position.Some? && d.position.value.epoch == epoch {
        ConsumeShowsOrAsks(d, sink, f);
      }
      hide Consume, Receive;
    }
  }

  lemma ConsumeStopsAtGap(c: Client, sink: Sink, f: Frame)
    requires c.phase == Idle && c.alive && c.position.Some? && c.events == [f]
    requires f.epoch == c.position.value.epoch && f.sequence > c.position.value.sequence + 1
    ensures var d := Consume(c, sink); d.phase == Idle && d.alive && d.requested
  {
    var p := c.position.value;
    assert [f][..0] == [];
    assert Ahead([f], p) == Ahead([], p) + [f] == [f];
    assert Sort([f]) == Insert(f, Sort([])) == [f];
    hide Ahead, Sort, Characters;
  }

  /** A gap is repaired: an idle client with nothing buffered that gets a frame beyond the next one asks the server. */
  lemma GapIsFetched(c: Client, sink: Sink, epoch: string, sequence: nat, payload: Payload)
    requires c.phase == Idle && c.alive && c.events == [] && epoch !in c.oldEpochs
    requires c.position.Some? && c.position.value.epoch == epoch && sequence > c.position.value.sequence + 1
    ensures Repairing(Receive(c, sink, epoch, sequence, payload))
  {
    var d := Buffered(c, epoch, sequence, payload);
    ConsumeStopsAtGap(d, sink, Frame(c.arrivals, epoch, sequence, payload));
    RepairsOrConsumes(c, sink, epoch, sequence, payload);
    AttachRepairs(Consume(d, sink));
    hide Consume, Receive, Attach;
  }

  // The frame just received, if the subscription buffers it.
  predicate Overflows(c: Client, payload: Payload)
  {
    |c.events| + 1 > 256 || c.characters + (if payload.Output? then |payload.data| else 0) > 131_072
  }

  /** While an attach is under way a frame waits in the buffer behind the others; only more than 256 frames or 128 KiB of
      output cost the buffer and the position, and then another request is asked for. */
  lemma FrameWaitsForAttach(c: Client, sink: Sink, epoch: string, sequence: nat, payload: Payload)
    requires c.phase != Idle && c.alive && !Dropped(c, epoch, sequence)
    ensures var c' := Receive(c, sink, epoch, sequence, payload);
      if Overflows(c, payload) then c'.events == [] && c'.position == None && c'.requested && c'.phase == c.phase
      else c'.events == c.events + [Frame(c.arrivals, epoch, sequence, payload)] && c'.position == c.position
           && c'.phase == c.phase && c'.screen == c.screen
  {
    hide Consume;
  }

  /** The next frame is shown at once: an idle client with an empty buffer whose output queue accepts it moves on by one
      and asks nobody. */
  lemma NextFrameIsShown(c: Client, sink: Sink, epoch: string, sequence: nat, payload: Payload)
    requires c.phase == Idle && c.alive && c.events == [] && c.characters == 0 && !c.requested && epoch !in c.oldEpochs
    requires c.position == Some(Position(epoch, sequence)) && !Overflows(c, payload)
    requires payload.Output? ==> sink(c.screen.pushes)
    ensures var c' := Receive(c, sink, epoch, sequence + 1, payload);
      && c'.phase == Idle && !c'.requested && c'.events == []
      && c'.position == Some(Position(epoch, sequence + 1))
      && c'.screen.shown == c.screen.shown + (if payload.Output? then payload.data else "")
  {
    var f := Frame(c.arrivals, epoch, sequence + 1, payload);
    var d := c.(arrivals := c.arrivals + 1, events := [], characters := 0);
    ReceiveApplies(c, sink, epoch, sequence, payload);
    AcceptedFrame(d, sink, f);
    hide Receive, Apply;
  }

  lemma ReceiveApplies(c: Client, sink: Sink, epoch: string, sequence: nat, payload: Payload)
    requires c.phase == Idle && c.alive && c.events == [] && c.characters == 0 && !c.requested && epoch !in c.oldEpochs
    requires c.position == Some(Position(epoch, sequence)) && !Overflows(c, payload)
    requires payload.Output? ==> sink(c.screen.pushes)
    ensures var f := Frame(c.arrivals, epoch, sequence + 1, payload);
      Receive(c, sink, epoch, sequence + 1, payload)
      == Apply(c.(arrivals := c.arrivals + 1, events := [], characters := 0), sink, f)
  {
    var f := Frame(c.arrivals, epoch, sequence + 1, payload);
    var d := Buffered(c, epoch, sequence + 1, payload);
    ReceiveConsumes(c, sink, epoch, sequence + 1, payload);
    assert d.events == [f];
    OnlyFrameConsumed(d, sink, f);
    AcceptedFrame(d.(events := [], characters := 0), sink, f);
    assert d.(events := [], characters := 0) == c.(arrivals := c.arrivals + 1, events := [], characters := 0);
    hide Consume, Receive, Attach, Apply, Width;
  }

  lemma ReceiveConsumes(c: Client, sink: Sink, epoch: string, sequence: nat, payload: Payload)
    requires c.phase == Idle && c.alive && !Dropped(c, epoch, sequence) && !Overflows(c, payload)
    requires c.position.Some? && c.position.value.epoch == epoch
    ensures var d := Buffered(c, epoch, sequence, payload);
      && d.events == c.events + [Frame(c.arrivals, epoch, sequence, payload)]
      && Receive(c, sink, epoch, sequence, payload) ==
         if Consume(d, sink).requested then Attach(Consume(d, sink)) else Consume(d, sink)
  {
    hide Consume, Attach;
  }

  // A frame the output queue takes.
  lemma AcceptedFrame(c: Client, sink: Sink, f: Frame)
    requires f.payload.Output? ==> sink(c.screen.pushes)
    ensures var c' := Apply(c, sink, f);
      && c'.position == Some(Position(f.epoch, f.sequence)) && c'.phase == c.phase && c'.requested == c.requested
      && c'.events == c.events
      && c'.screen.shown == c.screen.shown + (if f.payload.Output? then f.payload.data else "")
  {
    assert c.screen.shown + "" == c.screen.shown;
  }

  lemma OnlyFrameConsumed(c: Client, sink: Sink, f: Frame)
    requires c.alive && c.events == [f] && f.sequence >= 1 && c.position == Some(Position(f.epoch, f.sequence - 1))
    requires f.payload.Output? ==> sink(c.screen.pushes)
    ensures Consume(c, sink) == Apply(c.(events := [], characters := 0), sink, f)
  {
    var p := c.position.value;
    assert [f][..0] == [];
    assert Ahead([f], p) == Ahead([], p) + [f] == [f];
    assert Sort([f]) == Insert(f, Sort([])) == [f];
    assert Characters([f]) == Width(f);
    var d := c.(events := [f], characters := Width(f));
    ConsumeLoopUnfolds(d, sink);
    var e := Apply(d.(events := [], characters := 0), sink, f);
    ConsumeLoopUnfolds(e, sink);
    hide Ahead, Sort, Characters, ConsumeLoop;
  }

  /** In every reachable state: after a genuine frame was delivered to an idle client, its epoch is over, or an attach is
      under way, or the display has reached it; and unless it had been reached before, nothing is then left buffered. */
  lemma DeliveryIsShownOrFetched(first: string, sink: Sink, events: seq<Event>, epoch: string, sequence: nat)
    requires var w := Run(Begin(first), sink, events);
      && w.client.phase == Idle && w.client.alive
      && epoch in w.log && 1 <= sequence <= |w.log[epoch]|
    ensures var w := Run(Begin(first), sink, events);
      var c, c' := w.client, Step(w, sink, Deliver(epoch, sequence)).client;
      || epoch in c.oldEpochs
      || Repairing(c')
      || (Reached(c', epoch, sequence) && (c'.events == [] || Reached(c, epoch, sequence)))
  {
    var w := Run(Begin(first), sink, events);
    hide Run, Receive;
    FrameShownOrFetched(w.client, sink, epoch, sequence, w.log[epoch][sequence - 1]);
  }

  // ---- Catching up ----

  // Between two callbacks the attach is never in the middle of its synchronous part.
  predicate AtAwait(c: Client)
  {
    c.phase != Working
  }

  lemma {:induction false} ConsumeLoopAtAwait(c: Client, sink: Sink)
    requires AtAwait(c) && c.position.Some?
    ensures AtAwait(ConsumeLoop(c, sink))
    decreases |c.events|
  {
    hide ConsumeLoop, Apply;
    ConsumeLoopUnfolds(c, sink);
    if c.events != [] && c.alive {
      var f, rest := c.events[0], c.events[1..];
      if f.sequence <= c.position.value.sequence {
        ConsumeLoopAtAwait(c.(events := rest), sink);
      } else if f.sequence == c.position.value.sequence + 1 {
        var d := c.(events := rest, characters := c.characters - Width(f));
        ApplyAtAwait(d, sink, f);
        if Apply(d, sink, f).position.Some? {
          ConsumeLoopAtAwait(Apply(d, sink, f), sink);
        }
      }
    }
  }

  lemma ApplyAtAwait(c: Client, sink: Sink, f: Frame)
    requires AtAwait(c)
    ensures AtAwait(Apply(c, sink, f)) && Apply(c, sink, f).events == c.events
  {
  }

  lemma AttachAtAwait(c: Client)
    requires AtAwait(c)
    ensures AtAwait(Attach(c))
  {
  }

  lemma ReceiveAtAwait(c: Client, sink: Sink, epoch: string, sequence: nat, payload: Payload)
    requires AtAwait(c)
    ensures AtAwait(Receive(c, sink, epoch, sequence, payload))
  {
    hide Width, Consume, Attach;
    var d := Buffered(c, epoch, sequence, payload);
    AttachAtAwait(InvalidatePosition(d.(events := [], characters := 0)));
    AttachAtAwait(InvalidatePosition(d).(inputGeneration := d.inputGeneration + 1));
    if d.position.Some? {
      ConsumeAtAwait(d, sink);
      AttachAtAwait(Consume(d, sink));
    }
  }

  lemma ConsumeAtAwait(c: Client, sink: Sink)
    requires AtAwait(c)
    ensures AtAwait(Consume(c, sink))
  {
    hide ConsumeLoop, Sort, Ahead, Characters;
    if c.position.Some? && !ForeignEpoch(c, c.position.value.epoch) {
      var ahead := Sort(Ahead(c.events, c.position.value));
      ConsumeLoopAtAwait(c.(events := ahead, characters := Characters(ahead)), sink);
    }
  }

  lemma StepAtAwait(w: World, sink: Sink, e: Event)
    requires AtAwait(w.client)
    ensures AtAwait(Step(w, sink, e).client)
  {
    hide Receive, Adopt, Serve;
    if e.Deliver? && e.epoch in w.log && 1 <= e.sequence <= |w.log[e.epoch]| {
      ReceiveAtAwait(w.client, sink, e.epoch, e.sequence, w.log[e.epoch][e.sequence - 1]);
    }
  }

  lemma {:induction false} RunAtAwait(w: World, sink: Sink, events: seq<Event>)
    requires AtAwait(w.client)
    ensures AtAwait(Run(w, sink, events).client)
    decreases |events|
  {
    if events != [] {
      hide AtAwait, Step;
      StepAtAwait(w, sink, events[0]);
      RunAtAwait(Step(w, sink, events[0]), sink, events[1..]);
    }
  }

  // A request has just been sent, with everything buffered so far remembered.
  predicate Asking(c: Client)
  {
    && c.alive && !c.requested
    && c.phase == Attaching(c.position, c.displayGeneration, set f | f in c.events)
  }

  // At rest, up to date, with nothing buffered and nothing asked for.
  predicate CaughtUp(w: World)
  {
    var c := w.client;
    && c.phase == Idle && !c.requested && !c.recovering && c.events == []
    && w.epoch in w.log && c.position == Some(Position(w.epoch, |w.log[w.epoch]|))
  }

  lemma {:induction false} CurrentOfEpoch(events: seq<Frame>, epoch: string, buffered: set<Frame>)
    requires forall f :: f in events ==> f in buffered
    ensures OfEpoch(Current(events, epoch, buffered), epoch)
    ensures forall f :: f in Current(events, epoch, buffered) ==> f in events
  {
    if events != [] {
      CurrentOfEpoch(events[..|events| - 1], epoch, buffered);
    }
  }

  lemma {:induction false} NothingAhead(events: seq<Frame>, p: Position)
    requires forall f :: f in events ==> f.epoch == p.epoch && f.sequence <= p.sequence
    ensures Ahead(events, p) == []
  {
    if events != [] {
      NothingAhead(events[..|events| - 1], p);
    }
  }

  // Consuming behind the position empties the buffer and changes nothing else.
  lemma ConsumeBehind(c: Client, sink: Sink)
    requires c.position.Some?
    requires forall f :: f in c.events ==> f.epoch == c.position.value.epoch && f.sequence <= c.position.value.sequence
    ensures Consume(c, sink) == c.(events := [], characters := 0)
  {
    NothingAhead(c.events, c.position.value);
    assert Sort([]) == [] && Characters([]) == 0;
    hide Sort, Ahead, Characters;
  }

  lemma AnswerCatchesUp(c: Client, sink: Sink, r: Reply)
    requires Asking(c) && sink(c.screen.pushes)
    requires c.position.Some? ==> c.position.value.epoch == r.epoch
    requires forall f :: f in c.events && f.epoch == r.epoch ==> f.sequence <= r.sequence
    ensures var c' := AttachAnswered(c, sink, r);
      && c'.phase == Idle && !c'.requested && !c'.recovering && c'.events == []
      && c'.position == Some(Position(r.epoch, r.sequence))
  {
    CurrentOfEpoch(c.events, r.epoch, c.phase.buffered);
    hide Current, Consume, Outdated;
    var written := WriteSnapshot(AtAnswer(c, r), sink, r, NeedsReset(c.phase.cursor, r));
    ConsumeBehind(written, sink);
  }

  // An answer of another epoch than the request named costs the position and is asked for again.
  lemma ForeignAnswerAsksAgain(c: Client, sink: Sink, r: Reply)
    requires Asking(c) && c.attempts == 1 && c.position.Some? && c.position.value.epoch != r.epoch
    ensures var c' := AttachAnswered(c, sink, r);
      Asking(c') && c'.position == None && c'.screen == c.screen && c'.events == c.events
  {
    hide Adopt;
  }

  // From any await, giving up a request that is out, refreshing and a ping lead to a request.
  lemma RefreshAsks(c: Client)
    requires AtAwait(c) && c.alive
    ensures var c' := PingAnswered(Attach(AttachEnded(c)), true);
      && Asking(c') && c'.attempts == 1 && c'.position == c.position
      && c'.screen == c.screen && c'.events == c.events
  {
  }

  /** Only three requests are made for one attach; then it gives up and is at rest with nothing asked for. */
  lemma ThreeRequestsAtMost(c: Client)
    requires c.requested && c.alive
    ensures if c.attempts < 3 then Asking(NextAttempt(c)) && NextAttempt(c).attempts == c.attempts + 1
            else NextAttempt(c) == c.(phase := Idle, requested := false)
  {
  }

  const REFRESH: seq<Event> := [RequestEnds, Refresh, PingReturns(true)]

  lemma RefreshRun(w: World, sink: Sink)
    requires AtAwait(w.client) && w.client.alive
    ensures var w' := Run(w, sink, REFRESH);
      && w' == w.(client := w'.client, answer := None)
      && Asking(w'.client) && w'.client.attempts == 1 && w'.client.position == w.client.position
      && w'.client.screen == w.client.screen
  {
    RefreshAsks(w.client);
    hide Attach, AttachEnded, PingAnswered;
    var w1 := Step(w, sink, RequestEnds);
    var w2 := Step(w1, sink, Refresh);
    var w3 := Step(w2, sink, PingReturns(true));
    assert REFRESH[1..] == [Refresh, PingReturns(true)] && REFRESH[1..][1..] == [PingReturns(true)];
    hide Step;
    assert Run(w3, sink, []) == w3;
    assert Run(w2, sink, [PingReturns(true)]) == Run(w3, sink, []);
    assert Run(w1, sink, REFRESH[1..]) == Run(w2, sink, REFRESH[1..][1..]);
  }

  const ANSWER: seq<Event> := [ServerAnswers(1, 32 * 1024), AnswerArrives]

  lemma AnswerRun(w: World, sink: Sink)
    requires Asking(w.client) && w.answer == None && w.epoch in w.log
    ensures var r := Serve(w.log, w.epoch, After(w.client), 1, 32 * 1024);
      && r.epoch == w.epoch && r.sequence == |w.log[w.epoch]|
      && Run(w, sink, ANSWER) == w.(client := AttachAnswered(w.client, sink, r))
  {
    hide AttachAnswered, Text;
    var w1 := Step(w, sink, ServerAnswers(1, 32 * 1024));
    var w2 := Step(w1, sink, AnswerArrives);
    assert ANSWER[1..] == [AnswerArrives];
    hide Serve, Step;
    assert Run(w2, sink, []) == w2;
    assert Run(w1, sink, [AnswerArrives]) == Run(w2, sink, []);
  }

  lemma AnswerRunCatchesUp(w: World, sink: Sink)
    requires WorldInv(w) && Asking(w.client) && w.answer == None && sink(w.client.screen.pushes)
    requires w.client.position.Some? ==> w.client.position.value.epoch == w.epoch
    ensures var w' := Run(w, sink, ANSWER); CaughtUp(w') && w'.log == w.log && w'.epoch == w.epoch
  {
    AnswerRun(w, sink);
    hide Run, AttachAnswered, Serve, PositionShown, CursorShown, Answers;
    forall f | f in w.client.events && f.epoch == w.epoch
      ensures f.sequence <= |w.log[w.epoch]|
    {
      assert Genuine(f, w.log);
    }
    AnswerCatchesUp(w.client, sink, Serve(w.log, w.epoch, After(w.client), 1, 32 * 1024));
  }

  lemma {:induction false} RunConcat(w: World, sink: Sink, a: seq<Event>, b: seq<Event>)
    ensures Run(w, sink, a + b) == Run(Run(w, sink, a), sink, b)
    decreases |a|
  {
    if a == [] {
      assert a + b == b;
    } else {
      hide Step;
      assert (a + b)[1..] == a[1..] + b;
      RunConcat(Step(w, sink, a[0]), sink, a[1..], b);
    }
  }

  lemma AskingCatchesUp(w: World, sink: Sink) returns (more: seq<Event>)
    requires WorldInv(w) && Asking(w.client) && w.answer == None && sink(w.client.screen.pushes)
    requires w.client.attempts == 1
    ensures var w' := Run(w, sink, more); CaughtUp(w') && w'.log == w.log && w'.epoch == w.epoch
  {
    hide Run, AttachAnswered, Serve, Safe, Answers, CaughtUp;
    if w.client.position.Some? && w.client.position.value.epoch != w.epoch {
      AnswerRun(w, sink);
      ForeignAnswerAsksAgain(w.client, sink, Serve(w.log, w.epoch, After(w.client), 1, 32 * 1024));
      RunKeeps(w, sink, ANSWER);
      AnswerRunCatchesUp(Run(w, sink, ANSWER), sink);
      RunConcat(w, sink, ANSWER, ANSWER);
      more := ANSWER + ANSWER;
    } else {
      AnswerRunCatchesUp(w, sink);
      more := ANSWER;
    }
  }

  /** From every reachable state, whatever was lost before, a connected client can catch up: some continuation in which
      the server emits nothing leaves it at rest at the end of the current epoch's log with nothing buffered, if only the
      output queue takes its next write. */
  lemma CatchingUpIsPossible(epoch: string, sink: Sink, events: seq<Event>)
    requires var c := Run(Begin(epoch), sink, events).client; c.alive && sink(c.screen.pushes)
    ensures var w := Run(Begin(epoch), sink, events);
      exists more: seq<Event> ::
        var w' := Run(w, sink, more); CaughtUp(w') && w'.log == w.log && w'.epoch == w.epoch
  {
    var w := Run(Begin(epoch), sink, events);
    BeginInv(epoch);
    RunKeeps(Begin(epoch), sink, events);
    RunAtAwait(Begin(epoch), sink, events);
    hide Run, WorldInv, CaughtUp, AtAwait;
    RefreshRun(w, sink);
    RunKeeps(w, sink, REFRESH);
    var more := AskingCatchesUp(Run(w, sink, REFRESH), sink);
    RunConcat(w, sink, REFRESH, more);
    var whole := REFRESH + more;
    assert CaughtUp(Run(w, sink, whole));
  }

  // ---- Read-only while behind ----

  // Without a position, and while an attach is under way, the terminal is marked as recovering, which closes its input.
  predicate Careful(c: Client)
  {
    c.position == None || Repairing(c) ==> c.recovering
  }

  // What writing and consuming leave alone, or only tighten.
  predicate Tightens(c: Client, c': Client)
  {
    && c'.oldEpochs == c.oldEpochs && c'.alive == c.alive && c'.confirmed == c.confirmed
    && (c.recovering ==> c'.recovering) && (Careful(c) ==> Careful(c'))
    && (c.phase != Idle ==> c'.phase == c.phase)
  }

  lemma WriteTightens(c: Client, sink: Sink, data: string, reset: bool)
    ensures Tightens(c, Write(c, sink, data, reset))
  {
  }

  lemma ApplyTightens(c: Client, sink: Sink, f: Frame)
    ensures Tightens(c, Apply(c, sink, f))
  {
    if f.payload.Output? {
      WriteTightens(c.(position := Some(Position(f.epoch, f.sequence))), sink, f.payload.data, false);
      hide Write;
    }
  }

  lemma {:induction false} ConsumeLoopTightens(c: Client, sink: Sink)
    requires c.position.Some?
    ensures Tightens(c, ConsumeLoop(c, sink))
    decreases |c.events|
  {
    hide ConsumeLoop, Apply;
    ConsumeLoopUnfolds(c, sink);
    if c.events != [] && c.alive {
      var f, rest := c.events[0], c.events[1..];
      if f.sequence <= c.position.value.sequence {
        ConsumeLoopTightens(c.(events := rest), sink);
      } else if f.sequence == c.position.value.sequence + 1 {
        var d := c.(events := rest, characters := c.characters - Width(f));
        ApplyKeepsBuffer(d, sink, f);
        ApplyTightens(d, sink, f);
        if Apply(d, sink, f).position.Some? {
          ConsumeLoopTightens(Apply(d, sink, f), sink);
        }
      }
    }
  }

  lemma ConsumeTightens(c: Client, sink: Sink)
    ensures Tightens(c, Consume(c, sink))
  {
    hide ConsumeLoop, Sort, Ahead, Characters, ForeignEpoch;
    if c.position.Some? && !ForeignEpoch(c, c.position.value.epoch) {
      var ahead := Sort(Ahead(c.events, c.position.value));
      ConsumeLoopTightens(c.(events := ahead, characters := Characters(ahead)), sink);
    }
  }

  lemma AttachCareful(c: Client)
    requires Careful(c)
    ensures Careful(Attach(c))
  {
  }

  lemma ReceiveCareful(c: Client, sink: Sink, epoch: string, sequence: nat, payload: Payload)
    requires Careful(c)
    ensures Careful(Receive(c, sink, epoch, sequence, payload))
  {
    hide Width, Consume, Attach;
    var d := Buffered(c, epoch, sequence, payload);
    AttachCareful(InvalidatePosition(d.(events := [], characters := 0)));
    AttachCareful(InvalidatePosition(d).(inputGeneration := d.inputGeneration + 1));
    ConsumeTightens(d, sink);
    AttachCareful(Consume(d, sink));
  }

  // Adopting an answer retires the epochs it leaves behind, and lifts the mark only if nothing more is asked for.
  lemma AdoptTightens(c: Client, sink: Sink, r: Reply)
    requires c.phase.Attaching?
    ensures var c' := Adopt(c, sink, r);
      && c'.oldEpochs == AtAnswer(c, r).oldEpochs && c'.phase == Working && c'.alive == c.alive
      && (c'.position == None ==> c'.recovering)
      && (c.recovering && (c'.requested || !c.alive) ==> c'.recovering)
  {
    hide Consume, Write, Current, Outdated;
    var at := AtAnswer(c, r);
    var reset := NeedsReset(c.phase.cursor, r);
    WriteTightens(at, sink, r.snapshot, reset);
    ConsumeTightens(WriteSnapshot(at, sink, r, reset), sink);
  }

  lemma AnswerCareful(c: Client, sink: Sink, r: Reply)
    requires c.phase.Attaching? && Careful(c)
    ensures Careful(AttachAnswered(c, sink, r))
  {
    hide Adopt, AtAnswer;
    AdoptTightens(c, sink, r);
  }

  lemma StepCareful(w: World, sink: Sink, e: Event)
    requires Careful(w.client)
    ensures Careful(Step(w, sink, e).client)
  {
    hide Receive, AttachAnswered, Serve;
    if e.Deliver? && e.epoch in w.log && 1 <= e.sequence <= |w.log[e.epoch]| {
      ReceiveCareful(w.client, sink, e.epoch, e.sequence, w.log[e.epoch][e.sequence - 1]);
    } else if e.AnswerArrives? && w.client.phase.Attaching? && w.answer.Some? {
      AnswerCareful(w.client, sink, w.answer.value);
    }
  }

  lemma {:induction false} RunCareful(w: World, sink: Sink, events: seq<Event>)
    requires Careful(w.client)
    ensures Careful(Run(w, sink, events).client)
    decreases |events|
  {
    if events != [] {
      hide Careful, Step;
      StepCareful(w, sink, events[0]);
      RunCareful(Step(w, sink, events[0]), sink, events[1..]);
    }
  }

  /** In every reachable state the terminal is read-only while it is behind: as long as it has no position, and as long as
      an attach is under way. */
  lemma ReadOnlyWhileBehind(epoch: string, sink: Sink, events: seq<Event>)
    ensures var c := Run(Begin(epoch), sink, events).client;
      c.position == None || c.phase == Pinging || c.phase.Attaching? ==> c.recovering
  {
    RunCareful(Begin(epoch), sink, events);
  }

  // ---- Retired epochs and input ----

  /** An adopted answer retires every other epoch that a frame buffered before the request belonged to, and the epoch
      confirmed before, so that nothing of them is shown later; an answer of another epoch than the request named retires
      that epoch and everything queued for it. */
  lemma AnswerRetiresEpochs(c: Client, sink: Sink, r: Reply)
    requires c.phase.Attaching? && c.alive && c.phase.display == c.displayGeneration
    ensures var c' := AttachAnswered(c, sink, r);
      if c.phase.cursor.Some? && c.phase.cursor.value.epoch != r.epoch then
        && c.phase.cursor.value.epoch in c'.oldEpochs && c'.inputGeneration == c.inputGeneration + 1
        && c'.position == None
      else
        && (forall f :: f in c.events && f.epoch != r.epoch && f in c.phase.buffered ==> f.epoch in c'.oldEpochs)
        && (c.confirmed.Some? && c.confirmed.value != r.epoch ==> c.confirmed.value in c'.oldEpochs)
        && c.oldEpochs <= c'.oldEpochs
  {
    hide Adopt;
    AdoptTightens(c, sink, r);
  }

  /** A frame of an unknown epoch costs the position and retires everything queued; so does a restarted display. Both start
      an attach if none is under way. */
  lemma LossRetiresInput(c: Client, sink: Sink, epoch: string, sequence: nat, payload: Payload)
    requires c.phase == Idle && c.alive
    ensures !Dropped(c, epoch, sequence) && !Overflows(c, payload)
            && (c.position.Some? ==> c.position.value.epoch != epoch) ==>
      var c' := Receive(c, sink, epoch, sequence, payload);
      c'.position == None && c'.inputGeneration == c.inputGeneration + 1 && Repairing(c')
    ensures var c' := DisplayReady(c);
      && c'.position == None && c'.inputGeneration == c.inputGeneration + 1
      && c'.displayGeneration == c.displayGeneration + 1 && c'.screen.shown == "" && Repairing(c')
  {
    var d := InvalidatePosition(Buffered(c, epoch, sequence, payload)).(inputGeneration := c.inputGeneration + 1);
    var e := InvalidatePosition(c).(displayGeneration := c.displayGeneration + 1,
                                    inputGeneration := c.inputGeneration + 1, screen := Screen("", None, c.screen.pushes));
    AttachKeeps(d);
    AttachKeeps(e);
    hide Consume, Attach, Width;
  }

  lemma AttachKeeps(c: Client)
    requires c.phase == Idle && c.alive
    ensures var c' := Attach(c);
      && Repairing(c') && c'.position == c.position && c'.inputGeneration == c.inputGeneration
      && c'.displayGeneration == c.displayGeneration && c'.screen == c.screen
  {
  }
}
