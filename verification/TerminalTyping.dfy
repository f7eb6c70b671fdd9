/** That typed text gets through: what the input queue takes, when a failure blocks it, and that a healthy terminal sends
    everything it took, in order (Terminal.tsx, terminal-input.ts). */
module TerminalTyping {
  import opened Options
  import opened Estimator
  import opened TerminalInput

  // ---- What is taken ----

  function Texts(chunks: seq<Chunk>): seq<seq<CodePoint>>
  {
    seq(|chunks|, i requires 0 <= i < |chunks| => chunks[i].text)
  }

  function Bytes(chunks: seq<Chunk>): nat
  {
    if chunks == [] then 0 else chunks[0].bytes + Bytes(chunks[1..])
  }

  // The input line is open: the terminal runs, is under control at a known position, and nothing pauses it.
  predicate Open(s: State)
  {
    && s.env.foreground && s.env.connected && !s.env.recovering && !s.blocked && !s.paused
    && s.env.positionEpoch.Some?
    && s.env.control.Some? && s.env.control.value.running && s.env.control.value.controlAllowed
  }

  // The task a chunk becomes.
  function TaskOf(s: State, number: nat, bytes: nat): Task
    requires s.env.control.Some? && s.env.positionEpoch.Some?
  {
    Task(Input(number), bytes, s.env.control.value.id, s.env.positionEpoch.value, s.generation, s.env.identity)
  }

  function Tasks(s: State, number: nat, chunks: seq<Chunk>): seq<Task>
    requires s.env.control.Some? && s.env.positionEpoch.Some?
  {
    seq(|chunks|, i requires 0 <= i < |chunks| => TaskOf(s, number + i, chunks[i].bytes))
  }

  // The state once these chunks have been taken.
  function Taken(s: State, chunks: seq<Chunk>): State
    requires s.env.control.Some? && s.env.positionEpoch.Some?
  {
    s.(count := s.count + |chunks|, bytes := s.bytes + Bytes(chunks),
       queue := s.queue + Tasks(s, |s.accepted|, chunks), accepted := s.accepted + Texts(chunks))
  }

  predicate Fits(s: State, chunks: seq<Chunk>)
  {
    s.count + |chunks| <= 128 && s.bytes + Bytes(chunks) <= 262_144
  }

  lemma TakenNext(s: State, chunks: seq<Chunk>, n: nat)
    requires s.env.control.Some? && s.env.positionEpoch.Some? && 1 <= n <= |chunks|
    ensures Taken(Taken(s, chunks[..1]), chunks[1..n]) == Taken(s, chunks[..n])
    ensures Bytes(chunks[..n]) == chunks[0].bytes + Bytes(chunks[1..n])
  {
    var one, rest, whole := chunks[..1], chunks[1..n], chunks[..n];
    assert whole == one + rest && whole[1..] == rest && one[1..] == [];
    assert Bytes(one) == chunks[0].bytes;
    assert Texts(whole) == Texts(one) + Texts(rest);
    assert s.accepted + Texts(whole) == s.accepted + Texts(one) + Texts(rest);
    assert Tasks(s, |s.accepted|, whole) == Tasks(s, |s.accepted|, one) + Tasks(s, |s.accepted| + 1, rest);
    assert s.queue + Tasks(s, |s.accepted|, whole)
        == s.queue + Tasks(s, |s.accepted|, one) + Tasks(s, |s.accepted| + 1, rest);
    assert Tasks(Taken(s, one), |s.accepted| + 1, rest) == Tasks(s, |s.accepted| + 1, rest);
  }

  lemma OneTaken(s: State, chunks: seq<Chunk>)
    requires s.env.control.Some? && s.env.positionEpoch.Some? && chunks != [] && !s.paused
    ensures var (s', taken) := Enqueue(s, Input(|s.accepted|), chunks[0].bytes, s.env.control.value,
                                       s.env.positionEpoch.value);
      && (taken <==> Fits(s, chunks[..1]))
      && (if taken then s'.(accepted := s'.accepted + [chunks[0].text]) == Taken(s, chunks[..1])
          else s' == s.(paused := true))
  {
    var one := chunks[..1];
    assert one[1..] == [] && Bytes(one) == chunks[0].bytes + Bytes([]);
    assert Texts(one) == [chunks[0].text];
    assert Tasks(s, |s.accepted|, one) == [TaskOf(s, |s.accepted|, chunks[0].bytes)];
  }

  lemma NoneTaken(s: State, chunks: seq<Chunk>)
    requires s.env.control.Some? && s.env.positionEpoch.Some?
    ensures Taken(s, []) == s && chunks[..0] == []
  {
    assert Texts([]) == [] && Tasks(s, |s.accepted|, []) == [];
    assert s.accepted + [] == s.accepted && s.queue + [] == s.queue;
  }

  lemma {:induction false} ChunksTaken(s: State, chunks: seq<Chunk>) returns (n: nat)
    requires s.env.control.Some? && s.env.positionEpoch.Some? && !s.paused
    ensures n <= |chunks|
    ensures var s' := EnqueueChunks(s, chunks, s.env.control.value, s.env.positionEpoch.value);
      if n == |chunks| then s' == Taken(s, chunks)
      else s' == Taken(s, chunks[..n]).(paused := true) && !Fits(s, chunks[..n + 1])
    ensures Fits(s, chunks) ==> n == |chunks|
    decreases |chunks|
  {
    NoneTaken(s, chunks);
    n := 0;
    if chunks != [] {
      OneTaken(s, chunks);
      TakenNext(s, chunks, |chunks|);
      assert chunks[..|chunks|] == chunks && chunks[1..|chunks|] == chunks[1..];
      hide Taken, Enqueue, Bytes;
      if Fits(s, chunks[..1]) {
        var first := Taken(s, chunks[..1]);
        FitsAfter(s, chunks);
        var rest := ChunksTaken(first, chunks[1..]);
        n := rest + 1;
        TakenNext(s, chunks, n);
        assert chunks[1..][..rest] == chunks[1..n];
        if n < |chunks| {
          assert chunks[1..][..rest + 1] == chunks[1..n + 1];
          TakenNext(s, chunks, n + 1);
        }
      } else {
        assert !Fits(s, chunks) by {
          if Fits(s, chunks) {
            FitsFirst(s, chunks);
          }
        }
      }
    }
  }

  lemma FitsFirst(s: State, chunks: seq<Chunk>)
    requires chunks != [] && Fits(s, chunks)
    ensures Fits(s, chunks[..1])
  {
    assert chunks[..1][1..] == [];
  }

  // Taking the first chunk leaves the budget of the rest.
  lemma FitsAfter(s: State, chunks: seq<Chunk>)
    requires s.env.control.Some? && s.env.positionEpoch.Some? && chunks != []
    ensures var first := Taken(s, chunks[..1]);
      && first.env == s.env && first.paused == s.paused && first.count == s.count + 1
      && first.bytes == s.bytes + chunks[0].bytes
  {
    assert chunks[..1][1..] == [];
    assert Bytes(chunks[..1]) == chunks[0].bytes + Bytes([]);
  }

  /** Typing on an open line takes the chunks in order, each as a task of this terminal, epoch, generation and identity,
      until one does not fit into 128 tasks and 256 KiB; that one pauses the line. On a line that is not open nothing
      happens. */
  lemma TypingTakes(s: State, chunks: seq<Chunk>) returns (n: nat)
    ensures n <= |chunks|
    ensures !Open(s) ==> Step(s, Typed(chunks)) == s
    ensures Open(s) ==>
      var s' := Step(s, Typed(chunks));
      if n == |chunks| then s' == Taken(s, chunks)
      else s' == Taken(s, chunks[..n]).(paused := true) && !Fits(s, chunks[..n + 1])
    ensures Open(s) && Fits(s, chunks) ==> n == |chunks|
  {
    n := 0;
    if Open(s) {
      n := ChunksTaken(s, chunks);
    }
    hide EnqueueChunks, Taken, Bytes;
  }

  /** Once its turn comes, typed input is sent exactly if nothing has changed since it was taken: the same generation,
      identity, terminal and epoch, on an active connected screen with the terminal running and under control, and the line
      not blocked. Otherwise it is dropped and its budget returned. */
  lemma InputIsSentExactly(s: State, number: nat)
    requires s.queue != [] && !s.inFlight && s.queue[0].work == Input(number)
    ensures var s', task := Step(s, Started), s.queue[0];
      var same :=
        && task.generation == s.generation && task.identity == s.env.identity
        && s.env.active && s.env.foreground && s.env.connected && !s.blocked
        && s.env.positionEpoch == Some(task.epoch)
        && s.env.control.Some? && s.env.control.value.id == task.terminalId && s.env.control.value.epoch == task.epoch
        && s.env.control.value.running && s.env.control.value.controlAllowed;
      if same then s' == s.(inFlight := true, sent := s.sent + [number])
      else s' == s.(queue := s.queue[1..], count := s.count - 1, bytes := s.bytes - task.bytes)
  {
  }

  // ---- When a failure blocks the line ----

  /** A confirmed request returns its budget and nothing else changes. An unconfirmed one blocks the line exactly if it was
      typed input for the terminal that is still under control and running, for the same identity, on an active screen;
      then everything queued is retired with it. */
  lemma FailureBlocks(s: State, confirmed: bool)
    requires s.queue != [] && s.inFlight && !s.blocked
    ensures var s', task := Step(s, Finished(confirmed)), s.queue[0];
      && s'.queue == s.queue[1..] && !s'.inFlight && s'.count == s.count - 1 && s'.bytes == s.bytes - task.bytes
      && (s'.blocked <==> && !confirmed && task.work.Input? && s.env.active && task.identity == s.env.identity
                          && s.env.control.Some? && s.env.control.value.id == task.terminalId
                          && s.env.control.value.running)
      && s'.generation == s.generation + (if s'.blocked then 1 else 0)
      && (s'.lastResize == if !confirmed && task.work.Resize? && s.lastResize == Some(task.work.dimensions) then None
                           else s.lastResize)
  {
  }

  // ---- Everything taken is sent ----

  // The line is open, the screen is active and the known position is in the terminal's own epoch.
  predicate Healthy(s: State)
  {
    Open(s) && s.env.active && s.env.positionEpoch.value == s.env.control.value.epoch
  }

  function Rounds(n: nat): seq<Event>
  {
    if n == 0 then [] else [Started, Finished(true)] + Rounds(n - 1)
  }

  function Numbers(first: nat, n: nat): seq<nat>
    decreases n
  {
    if n == 0 then [] else [first] + Numbers(first + 1, n - 1)
  }

  predicate Queued(s: State, first: nat)
  {
    && !s.inFlight
    && forall i :: 0 <= i < |s.queue| ==> s.queue[i].work == Input(first + i) && CanControl(s, s.queue[i])
  }

  lemma OneRound(s: State, first: nat)
    requires s.queue != [] && Queued(s, first)
    ensures var s' := Step(Step(s, Started), Finished(true));
      && Queued(s', first + 1) && s'.queue == s.queue[1..] && s'.sent == s.sent + [first]
      && s'.accepted == s.accepted && s'.blocked == s.blocked && s'.paused == s.paused
  {
    assert s.queue[0].work == Input(first + 0) && CanControl(s, s.queue[0]);
    var s' := Step(Step(s, Started), Finished(true));
    forall i | 0 <= i < |s'.queue|
      ensures s'.queue[i].work == Input(first + 1 + i) && CanControl(s', s'.queue[i])
    {
      assert s'.queue[i] == s.queue[i + 1] && s.queue[i + 1].work == Input(first + (i + 1));
      assert CanControl(s, s.queue[i + 1]);
    }
  }

  lemma TwoSteps(s: State, a: Event, b: Event, more: seq<Event>)
    ensures Run(s, [a, b] + more) == Run(Step(Step(s, a), b), more)
  {
    hide Step;
    assert ([a, b] + more)[1..] == [b] + more && ([b] + more)[1..] == more;
    assert Run(s, [a, b] + more) == Run(Step(s, a), [b] + more);
  }

  lemma {:induction false} RoundsSend(s: State, first: nat)
    requires Queued(s, first)
    ensures var s' := Run(s, Rounds(|s.queue|));
      && s'.queue == [] && s'.sent == s.sent + Numbers(first, |s.queue|) && s'.accepted == s.accepted
      && s'.blocked == s.blocked && s'.paused == s.paused
    decreases |s.queue|
  {
    var n := |s.queue|;
    if n > 0 {
      OneRound(s, first);
      TwoSteps(s, Started, Finished(true), Rounds(n - 1));
      hide Step, Run;
      var s' := Step(Step(s, Started), Finished(true));
      RoundsSend(s', first + 1);
      assert s.sent + [first] + Numbers(first + 1, n - 1) == s.sent + ([first] + Numbers(first + 1, n - 1));
    } else {
      assert s.sent + Numbers(first, 0) == s.sent;
    }
  }

  /** On a healthy terminal with an empty queue, text of up to 128 chunks and 256 KiB typed at once is accepted whole, and
      once every request for it has been confirmed every chunk has been sent, once, in order, and the line is open again. */
  lemma TypedTextIsSent(env: Environment, before: seq<Event>, chunks: seq<Chunk>)
    requires var s := Run(Init(env), before);
      Healthy(s) && s.queue == [] && |chunks| <= 128 && Bytes(chunks) <= 262_144
    ensures var s := Run(Init(env), before);
      var s' := Run(Step(s, Typed(chunks)), Rounds(|chunks|));
      && s'.accepted == s.accepted + Texts(chunks)
      && s'.sent == s.sent + Numbers(|s.accepted|, |chunks|)
      && s'.queue == [] && !s'.blocked && !s'.paused
  {
    var s := Run(Init(env), before);
    InitInv(env);
    RunInv(Init(env), before);
    EmptyQueue(s);
    hide Inv, Run;
    TypedFromEmpty(s, chunks);
  }

  lemma EmptyQueue(s: State)
    requires Inv(s) && s.queue == []
    ensures s.count == 0 && s.bytes == 0 && !s.inFlight
  {
    hide Waiting, Increasing, Below;
  }

  lemma TypedFromEmpty(s: State, chunks: seq<Chunk>)
    requires Healthy(s) && s.queue == [] && !s.inFlight && s.count == 0 && s.bytes == 0
    requires |chunks| <= 128 && Bytes(chunks) <= 262_144
    ensures var s' := Run(Step(s, Typed(chunks)), Rounds(|chunks|));
      && s'.accepted == s.accepted + Texts(chunks)
      && s'.sent == s.sent + Numbers(|s.accepted|, |chunks|)
      && s'.queue == [] && !s'.blocked && !s'.paused
  {
    var n := TypingTakes(s, chunks);
    TakenQueued(s, chunks);
    hide Bytes, Run, Queued, Taken, Rounds, Numbers;
    RoundsSend(Taken(s, chunks), |s.accepted|);
    hide Step;
  }

  lemma TakenQueued(s: State, chunks: seq<Chunk>)
    requires Healthy(s) && s.queue == [] && !s.inFlight
    ensures var s' := Taken(s, chunks);
      && Queued(s', |s.accepted|) && |s'.queue| == |chunks| && s'.accepted == s.accepted + Texts(chunks)
      && s'.sent == s.sent && s'.blocked == s.blocked && s'.paused == s.paused
  {
    hide Bytes;
    assert [] + Tasks(s, |s.accepted|, chunks) == Tasks(s, |s.accepted|, chunks);
  }

  // ---- The cut, in bytes ----

  /** Every chunk is nonempty text of at most 65,536 bytes, its size is its length in UTF-8, and each but the last is as
      full as it can be. */
  lemma CutMeans(chunks: seq<Chunk>)
    requires Cut(chunks)
    ensures forall i :: 0 <= i < |chunks| ==>
              chunks[i].text != [] && chunks[i].bytes == |Utf8Encode(chunks[i].text)| <= 65_536
    ensures forall i :: 0 <= i < |chunks| - 1 ==>
              chunks[i].bytes + |Utf8Character(chunks[i + 1].text[0])| > 65_536
  {
    forall i | 0 <= i < |chunks|
      ensures chunks[i].text != [] && chunks[i].bytes == |Utf8Encode(chunks[i].text)| <= 65_536
    {
      assert WellCut(chunks[i]);
    }
    forall i | 0 <= i < |chunks| - 1
      ensures chunks[i].bytes + |Utf8Character(chunks[i + 1].text[0])| > 65_536
    {
      assert Full(chunks[i], chunks[i + 1].text);
    }
  }
}
