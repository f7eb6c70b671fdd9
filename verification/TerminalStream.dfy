/** The terminal stream client (Terminal.tsx): pushed frames that may be reordered, repeated or lost, attach snapshots
    that repair gaps, and an output queue that may refuse a write. Each function is what one callback does between two
    awaits. */
module TerminalStream {
  import opened Options
  import opened TerminalLog

  const MAX_EVENTS := 256
  const MAX_EVENT_CHARACTERS := 128 * 1024
  const MAX_ATTACH_ATTEMPTS := 3

  // `arrival` is the identity of the delivered object: a repeated frame is another object.
  datatype Frame = Frame(arrival: nat, epoch: string, sequence: nat, payload: Payload)

  datatype Position = Position(epoch: string, sequence: nat)

  // Where the asynchronous attach stands: not running, awaiting the ping, awaiting the server, awaiting a detach,
  // or running synchronously.
  datatype Phase =
    | Idle
    | Pinging
    | Attaching(cursor: Option<Position>, display: nat, buffered: set<Frame>)
    | Detaching
    | Working

  datatype Client = Client(
    position: Option<Position>, events: seq<Frame>, characters: int, requested: bool, phase: Phase, attempts: nat,
    streamAvailable: bool, confirmed: Option<string>, oldEpochs: set<string>, recovering: bool,
    inputGeneration: nat, displayGeneration: nat, alive: bool,
    screen: Screen, arrivals: nat)

  // What the output queue accepted since it was last reset, the answer whose snapshot it was last reset with, and how
  // often it has been written to.
  datatype Screen = Screen(shown: string, origin: Option<Reply>, pushes: nat)

  // Whether the output queue takes its n-th write.
  type Sink = nat -> bool

  function Init(): Client
  {
    Client(None, [], 0, false, Idle, 0, false, None, {}, true, 0, 0, true, Screen("", None, 0), 0)
  }

  function Characters(events: seq<Frame>): nat
  {
    if events == [] then 0
    else Characters(events[..|events| - 1]) + Width(events[|events| - 1])
  }

  function Width(f: Frame): nat
  {
    if f.payload.Output? then |f.payload.data| else 0
  }

  function InvalidatePosition(c: Client): Client
  {
    c.(position := None, recovering := true)
  }

  // ---- attach ----

  // One turn of the attach loop: send another request, or give up.
  function NextAttempt(c: Client): Client
  {
    if c.requested && c.alive && c.attempts + 1 <= MAX_ATTACH_ATTEMPTS then
      c.(requested := false, attempts := c.attempts + 1,
         phase := Attaching(c.position, c.displayGeneration, set f | f in c.events))
    else
      c.(phase := Idle, requested := c.requested && !c.alive)
  }

  // Called from anywhere; a second call while one runs only asks it to go round again.
  function Attach(c: Client): Client
  {
    var c := c.(requested := true);
    if c.phase != Idle || !c.alive then c
    else
      var c := c.(recovering := true, attempts := 0);
      if c.streamAvailable then NextAttempt(c) else c.(phase := Pinging)
  }

  function Write(c: Client, sink: Sink, data: string, reset: bool): Client
  {
    var screen := c.screen.(pushes := c.screen.pushes + 1);
    if sink(c.screen.pushes) then c.(screen := screen.(shown := (if reset then "" else screen.shown) + data))
    else Attach(InvalidatePosition(c.(screen := screen)))
  }

  // ---- apply and consume ----

  function Apply(c: Client, sink: Sink, f: Frame): Client
  {
    var moved := c.(position := Some(Position(f.epoch, f.sequence)));
    if f.payload.Output? then Write(moved, sink, f.payload.data, false) else moved
  }

  function Insert(f: Frame, sorted: seq<Frame>): seq<Frame>
  {
    if sorted == [] || f.sequence < sorted[0].sequence then [f] + sorted
    else [sorted[0]] + Insert(f, sorted[1..])
  }

  // Stable, as JavaScript's sort is.
  function Sort(events: seq<Frame>): seq<Frame>
  {
    if events == [] then [] else Insert(events[|events| - 1], Sort(events[..|events| - 1]))
  }

  // The frames of the position's epoch that lie beyond it.
  function Ahead(events: seq<Frame>, p: Position): seq<Frame>
  {
    if events == [] then []
    else
      var last := events[|events| - 1];
      Ahead(events[..|events| - 1], p) + (if last.epoch == p.epoch && last.sequence > p.sequence then [last] else [])
  }

  predicate ForeignEpoch(c: Client, epoch: string)
  {
    exists i :: 0 <= i < |c.events| && c.events[i].epoch != epoch && c.events[i].epoch !in c.oldEpochs
  }

  function ConsumeLoop(c: Client, sink: Sink): Client
    decreases |c.events|
  {
    if c.events == [] || !c.alive || c.position == None then c
    else
      var f, rest := c.events[0], c.events[1..];
      if f.sequence <= c.position.value.sequence then ConsumeLoop(c.(events := rest), sink)
      else if f.sequence != c.position.value.sequence + 1 then c.(requested := true)
      else
        var c := c.(events := rest, characters := c.characters - Width(f));
        var c' := Apply(c, sink, f);
        if c'.position == None then c' else ConsumeLoop(c', sink)
  }

  function Consume(c: Client, sink: Sink): Client
  {
    if c.position == None then c
    else
      var p := c.position.value;
      if ForeignEpoch(c, p.epoch) then
        InvalidatePosition(c).(inputGeneration := c.inputGeneration + 1, requested := true)
      else
        var ahead := Sort(Ahead(c.events, p));
        ConsumeLoop(c.(events := ahead, characters := Characters(ahead)), sink)
  }

  // ---- the frame subscription ----

  // A frame that is neither behind nor of a past epoch is buffered; the buffer overflowing, an unknown epoch or a gap
  // all lead to an attach.
  function Buffer(c: Client, sink: Sink, f: Frame): Client
  {
    var c := c.(events := c.events + [f], characters := c.characters + Width(f));
    if |c.events| > MAX_EVENTS || c.characters > MAX_EVENT_CHARACTERS then
      Attach(InvalidatePosition(c.(events := [], characters := 0)))
    else if c.phase != Idle then c
    else if c.position == None || c.position.value.epoch != f.epoch then
      Attach(InvalidatePosition(c).(inputGeneration := c.inputGeneration + 1))
    else
      var c := Consume(c, sink);
      if c.requested then Attach(c) else c
  }

  function Receive(c: Client, sink: Sink, epoch: string, sequence: nat, payload: Payload): Client
  {
    var f := Frame(c.arrivals, epoch, sequence, payload);
    var c := c.(arrivals := c.arrivals + 1);
    if !c.alive || epoch in c.oldEpochs then c
    else if c.position.Some? && c.position.value.epoch == epoch && sequence <= c.position.value.sequence then c
    else Buffer(c, sink, f)
  }

  // ---- resuming the attach ----

  function PingAnswered(c: Client, supported: bool): Client
  {
    if c.phase != Pinging then c
    else if !c.alive || !supported then c.(phase := Idle)
    else NextAttempt(c.(streamAvailable := true, attempts := 0))
  }

  // Frames of another epoch that were already buffered when the request was sent belong to the past.
  function Outdated(c: Client, r: Reply): set<string>
    requires c.phase.Attaching?
  {
    set f | f in c.events && f.epoch != r.epoch && f in c.phase.buffered :: f.epoch
  }

  function Current(events: seq<Frame>, epoch: string, buffered: set<Frame>): seq<Frame>
  {
    if events == [] then []
    else
      var last := events[|events| - 1];
      Current(events[..|events| - 1], epoch, buffered)
      + (if last.epoch != epoch && last in buffered then [] else [last])
  }

  // The client at the answer's position, before the snapshot is written.
  function AtAnswer(c: Client, r: Reply): Client
    requires c.phase.Attaching?
  {
    var stale := if c.confirmed.Some? && c.confirmed.value != r.epoch then {c.confirmed.value} else {};
    c.(oldEpochs := c.oldEpochs + stale + Outdated(c, r),
       confirmed := Some(r.epoch),
       events := Current(c.events, r.epoch, c.phase.buffered),
       position := Some(Position(r.epoch, r.sequence)),
       phase := Working)
  }

  predicate NeedsReset(cursor: Option<Position>, r: Reply)
  {
    cursor == None || cursor.value.epoch != r.epoch || r.truncated
  }

  function WriteSnapshot(c: Client, sink: Sink, r: Reply, reset: bool): Client
  {
    var written := Write(c, sink, r.snapshot, reset);
    if reset && sink(c.screen.pushes) then written.(screen := written.screen.(origin := Some(r))) else written
  }

  function Adopt(c: Client, sink: Sink, r: Reply): Client
    requires c.phase.Attaching?
  {
    var c := Consume(WriteSnapshot(AtAnswer(c, r), sink, r, NeedsReset(c.phase.cursor, r)), sink);
    if !c.requested && c.alive && c.position.Some? then c.(recovering := false) else c
  }

  function AttachAnswered(c: Client, sink: Sink, r: Reply): Client
    requires c.phase.Attaching?
  {
    if !c.alive then c.(phase := Detaching)
    else if c.phase.display != c.displayGeneration then
      NextAttempt(InvalidatePosition(c).(requested := true))
    else if c.phase.cursor.Some? && c.phase.cursor.value.epoch != r.epoch then
      NextAttempt(InvalidatePosition(c).(oldEpochs := c.oldEpochs + {c.phase.cursor.value.epoch},
                                         inputGeneration := c.inputGeneration + 1, requested := true))
    else NextAttempt(Adopt(c, sink, r))
  }

  // The attach request, or the detach that follows a late answer, ended without an answer to adopt.
  function AttachEnded(c: Client): Client
  {
    if c.phase.Attaching? || c.phase == Detaching then c.(phase := Idle) else c
  }

  // The display restarted and lost what it showed.
  function DisplayReady(c: Client): Client
  {
    Attach(InvalidatePosition(c).(displayGeneration := c.displayGeneration + 1,
                                  inputGeneration := c.inputGeneration + 1, screen := Screen("", None, c.screen.pushes)))
  }

  // The effect is torn down and set up again: the position and the display survive, everything local does not.
  function FreshBuffer(c: Client): Client
  {
    c.(events := [], characters := 0, oldEpochs := {}, alive := true, inputGeneration := c.inputGeneration + 1)
  }

  function FreshAttach(c: Client): Client
  {
    c.(phase := Idle, requested := false, attempts := 0, streamAvailable := false,
       confirmed := if c.position.Some? then Some(c.position.value.epoch) else None)
  }

  function Resubscribe(c: Client): Client
  {
    Attach(FreshAttach(FreshBuffer(c)))
  }
}
