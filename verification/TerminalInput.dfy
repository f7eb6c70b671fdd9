/** Terminal input (Terminal.tsx, terminal-input.ts): typed text is cut into bounded chunks, queued on one promise chain
    under a budget, and never sent again once a result is unconfirmed. */
module TerminalInput {
  import opened Options
  import opened Estimator

  const MAX_CHUNK_BYTES := 64 * 1024
  const MAX_PENDING := 128
  const MAX_PENDING_BYTES := 256 * 1024

  datatype Chunk = Chunk(text: seq<CodePoint>, bytes: nat)

  // ---- Cutting typed text ----

  function Joined(chunks: seq<Chunk>): seq<CodePoint>
  {
    if chunks == [] then [] else Joined(chunks[..|chunks| - 1]) + chunks[|chunks| - 1].text
  }

  predicate WellCut(c: Chunk)
  {
    c.text != [] && c.bytes == |Utf8Encode(c.text)| && c.bytes <= MAX_CHUNK_BYTES
  }

  // The first character of `next` did not fit into `c`.
  predicate Full(c: Chunk, next: seq<CodePoint>)
  {
    next != [] && c.bytes + |Utf8Character(next[0])| > MAX_CHUNK_BYTES
  }

  predicate Cut(chunks: seq<Chunk>)
  {
    && (forall i :: 0 <= i < |chunks| ==> WellCut(chunks[i]))
    && (forall i :: 0 <= i < |chunks| - 1 ==> Full(chunks[i], chunks[i + 1].text))
  }

  predicate FullBefore(chunks: seq<Chunk>, next: seq<CodePoint>)
  {
    chunks != [] ==> Full(chunks[|chunks| - 1], next)
  }

  lemma Utf8Snoc(text: seq<CodePoint>, c: CodePoint)
    ensures |Utf8Encode(text + [c])| == |Utf8Encode(text)| + |Utf8Character(c)|
  {
    assert (text + [c])[..|text|] == text;
  }

  lemma CutSnoc(chunks: seq<Chunk>, c: Chunk)
    requires Cut(chunks) && WellCut(c) && FullBefore(chunks, c.text)
    ensures Cut(chunks + [c]) && Joined(chunks + [c]) == Joined(chunks) + c.text
  {
    hide Full, WellCut;
    assert (chunks + [c])[..|chunks|] == chunks;
  }

  /** The chunks are the typed text, cut between code points, each at most 64 KiB of UTF-8 and none empty; a chunk is
      closed only when the next character does not fit. */
  method TerminalInputChunks(data: seq<CodePoint>) returns (chunks: seq<Chunk>)
    ensures Joined(chunks) == data
    ensures Cut(chunks)
  {
    chunks := [];
    var chunk: seq<CodePoint>, bytes := [], 0;
    EmptyText();
    hide Utf8Encode, Utf8Character, Joined, Full, WellCut, Cut;
    for i := 0 to |data|
      invariant Joined(chunks) + chunk == data[..i]
      invariant bytes == |Utf8Encode(chunk)| <= MAX_CHUNK_BYTES
      invariant Cut(chunks)
      invariant chunk != [] ==> FullBefore(chunks, chunk)
      invariant chunk == [] ==> chunks == []
    {
      var code := data[i];
      var length := if code <= 0x7F then 1 else if code <= 0x7FF then 2 else if code <= 0xFFFF then 3 else 4;
      CharacterLength(code);
      Utf8Snoc(chunk, code);
      assert data[..i + 1] == data[..i] + [code];
      if bytes + length > MAX_CHUNK_BYTES {
        var closed := Chunk(chunk, bytes);
        Closing(closed, code);
        CutSnoc(chunks, closed);
        chunks := chunks + [closed];
        chunk, bytes := [], 0;
        Utf8Snoc([], code);
      } else {
        StillFull(chunks, chunk, code);
      }
      assert [] + [code] == [code];
      chunk := chunk + [code];
      bytes := bytes + length;
    }
    assert data[..|data|] == data;
    if chunk != [] {
      assert WellCut(Chunk(chunk, bytes)) by {
        Closing(Chunk(chunk, bytes), chunk[0]);
      }
      CutSnoc(chunks, Chunk(chunk, bytes));
      chunks := chunks + [Chunk(chunk, bytes)];
    }
  }

  lemma EmptyText()
    ensures |Utf8Encode([])| == 0 && Joined([]) == [] && Cut([])
  {
  }

  lemma CharacterLength(code: CodePoint)
    ensures |Utf8Character(code)| == if code <= 0x7F then 1 else if code <= 0x7FF then 2 else if code <= 0xFFFF then 3 else 4
  {
  }

  lemma Closing(c: Chunk, code: CodePoint)
    requires c.bytes == |Utf8Encode(c.text)| <= MAX_CHUNK_BYTES
    ensures c.text != [] ==> WellCut(c)
    ensures c.bytes + |Utf8Character(code)| > MAX_CHUNK_BYTES ==> WellCut(c) && Full(c, [code])
  {
    CharacterLength(code);
    EmptyText();
    hide Utf8Encode, Utf8Character;
  }

  lemma StillFull(chunks: seq<Chunk>, chunk: seq<CodePoint>, code: CodePoint)
    requires chunk != [] ==> FullBefore(chunks, chunk)
    requires chunk == [] ==> chunks == []
    ensures FullBefore(chunks, chunk + [code])
  {
    hide Utf8Character;
  }

  // ---- The queue ----

  // The terminal a client controls, as the stream last confirmed it.
  datatype Terminal = Terminal(id: string, epoch: string, running: bool, controlAllowed: bool, resizeSupported: bool)

  datatype Size = Size(cols: int, rows: int)

  // A size as it is requested: of one terminal in one epoch.
  datatype Dimensions = Dimensions(terminalId: string, epoch: string, size: Size)

  datatype Environment = Environment(active: bool, foreground: bool, connected: bool, identity: string,
                                     control: Option<Terminal>, positionEpoch: Option<string>, recovering: bool)

  // `number` counts typed chunks in the order the queue accepted them.
  datatype Work = Input(number: nat) | Resize(dimensions: Dimensions)

  // What a queued closure captured.
  datatype Task = Task(work: Work, bytes: nat, terminalId: string, epoch: string, generation: nat, identity: string)

  datatype State = State(
    env: Environment,
    generation: nat, blocked: bool, paused: bool,
    count: int, bytes: int,  // the budget
    queue: seq<Task>, inFlight: bool,  // whether the first task has started
    lastResize: Option<Dimensions>, desiredSize: Option<Size>,
    accepted: seq<seq<CodePoint>>,  // the text of every accepted chunk
    sent: seq<nat>)  // the numbers of the chunks sent, in order

  function Init(env: Environment): State
  {
    State(env, 0, false, false, 0, 0, [], false, None, None, [], [])
  }

  function Enqueue(s: State, work: Work, bytes: nat, t: Terminal, epoch: string): (State, bool)
  {
    if s.paused then (s, false)
    else if s.count >= MAX_PENDING || s.bytes + bytes > MAX_PENDING_BYTES then (s.(paused := true), false)
    else
      (s.(count := s.count + 1, bytes := s.bytes + bytes,
          queue := s.queue + [Task(work, bytes, t.id, epoch, s.generation, s.env.identity)]),
       true)
  }

  // Queues the chunks until one is refused.
  function EnqueueChunks(s: State, chunks: seq<Chunk>, t: Terminal, epoch: string): State
    decreases |chunks|
  {
    if chunks == [] then s
    else
      var (s', taken) := Enqueue(s, Input(|s.accepted|), chunks[0].bytes, t, epoch);
      if taken then EnqueueChunks(s'.(accepted := s'.accepted + [chunks[0].text]), chunks[1..], t, epoch) else s'
  }

  predicate MayType(s: State)
  {
    && s.env.control.Some? && s.env.control.value.running && s.env.control.value.controlAllowed
    && s.env.positionEpoch.Some?
    && s.env.foreground && s.env.connected && !s.blocked && !s.paused && !s.env.recovering
  }

  function Type(s: State, chunks: seq<Chunk>): State
  {
    if !MayType(s) then s else EnqueueChunks(s, chunks, s.env.control.value, s.env.positionEpoch.value)
  }

  predicate CanControl(s: State, task: Task)
  {
    && s.env.active && task.generation == s.generation && task.identity == s.env.identity
    && s.env.foreground && s.env.connected && !s.blocked
    && s.env.control.Some?
    && var t := s.env.control.value;
       && t.id == task.terminalId && t.controlAllowed && t.running
       && s.env.positionEpoch == Some(task.epoch) && t.epoch == task.epoch
  }

  // The size is remembered, and requested where the terminal can be controlled and supports it.
  function AskResize(s: State, size: Size): State
  {
    RequestResize(s.(desiredSize := Some(size)), size)
  }

  function RequestResize(s: State, size: Size): State
  {
    if s.env.control == None || s.env.positionEpoch == None || s.env.recovering then s
    else
      var t, epoch := s.env.control.value, s.env.positionEpoch.value;
      var work := Resize(Dimensions(t.id, epoch, size));
      if t.resizeSupported && t.running && CanControl(s, Task(work, 0, t.id, epoch, s.generation, s.env.identity)) then
        Enqueue(s, work, 0, t, epoch).0
      else s
  }

  // The finally clause: the first task leaves the queue and gives its budget back.
  function Leave(s: State): State
    requires s.queue != []
  {
    s.(queue := s.queue[1..], inFlight := false, count := s.count - 1, bytes := s.bytes - s.queue[0].bytes)
  }

  // The first task starts once everything before it has ended.
  function Start(s: State): State
  {
    if s.queue == [] || s.inFlight then s
    else
      var task := s.queue[0];
      if !CanControl(s, task) then Leave(s)
      else
        match task.work
        case Input(number) => s.(inFlight := true, sent := s.sent + [number])
        case Resize(dimensions) =>
          if s.lastResize == Some(dimensions) then Leave(s)
          else s.(inFlight := true, lastResize := Some(dimensions))
  }

  // A request that failed while this terminal is still the one under control.
  predicate Unconfirmed(s: State)
  {
    && s.queue != [] && s.inFlight && s.queue[0].work.Input?
    && s.env.active && s.queue[0].identity == s.env.identity
    && s.env.control.Some? && s.env.control.value.id == s.queue[0].terminalId && s.env.control.value.running
  }

  function Finish(s: State, confirmed: bool): State
  {
    if s.queue == [] || !s.inFlight then s
    else if confirmed then Leave(s)
    else if Unconfirmed(s) then Leave(s.(generation := s.generation + 1, blocked := true))
    else if s.queue[0].work.Resize? && s.lastResize == Some(s.queue[0].work.dimensions) then
      Leave(s.(lastResize := None))
    else Leave(s)
  }

  // The button that resumes input; it waits for everything accepted to end, and requests the remembered size again.
  function Resume(s: State): State
  {
    if s.count > 0 then s
    else
      var s := s.(generation := s.generation + 1, blocked := false, paused := false);
      if s.desiredSize.Some? then AskResize(s, s.desiredSize.value) else s
  }

  // Another terminal is selected: everything queued is retired, and its position is not known yet.
  function Switch(s: State): State
  {
    s.(generation := s.generation + 1, blocked := false, paused := false, lastResize := None,
       env := s.env.(positionEpoch := None, recovering := true))
  }

  datatype Event =
    | Typed(chunks: seq<Chunk>)
    | Resized(size: Size)
    | Started
    | Finished(confirmed: bool)
    | Resumed
    | Switched
    | Bumped
    | Changed(env: Environment)

  function Step(s: State, e: Event): State
  {
    match e
    case Typed(chunks) => Type(s, chunks)
    case Resized(size) => AskResize(s, size)
    case Started => Start(s)
    case Finished(confirmed) => Finish(s, confirmed)
    case Resumed => Resume(s)
    case Switched => Switch(s)
    case Bumped => s.(generation := s.generation + 1)
    case Changed(env) => s.(env := env)
  }

  function Run(s: State, events: seq<Event>): State
    decreases |events|
  {
    if events == [] then s else Run(Step(s, events[0]), events[1..])
  }

  // ---- Order, budget ----

  function TotalBytes(queue: seq<Task>): nat
  {
    if queue == [] then 0 else queue[0].bytes + TotalBytes(queue[1..])
  }

  // What a task adds to what may still be sent.
  function NumbersOf(task: Task): seq<nat>
  {
    if task.work.Input? then [task.work.number] else []
  }

  // The chunk numbers still waiting, oldest first; the task in flight has already been sent.
  function Waiting(queue: seq<Task>): seq<nat>
  {
    if queue == [] then []
    else NumbersOf(queue[0]) + Waiting(queue[1..])
  }

  predicate Increasing(numbers: seq<nat>)
  {
    forall i, j :: 0 <= i < j < |numbers| ==> numbers[i] < numbers[j]
  }

  predicate Below(numbers: seq<nat>, limit: nat)
  {
    forall i :: 0 <= i < |numbers| ==> numbers[i] < limit
  }

  // Everything sent, then everything that may still be sent.
  function Outlook(s: State): seq<nat>
  {
    s.sent + Waiting(if s.inFlight && s.queue != [] then s.queue[1..] else s.queue)
  }

  predicate Inv(s: State)
  {
    && s.count == |s.queue| <= MAX_PENDING
    && s.bytes == TotalBytes(s.queue) <= MAX_PENDING_BYTES
    && (s.inFlight ==> s.queue != [])
    && Increasing(Outlook(s)) && Below(Outlook(s), |s.accepted|)
    && (forall i :: 0 <= i < |s.queue| ==> s.queue[i].generation <= s.generation)
  }

  lemma {:induction false} TotalBytesSnoc(queue: seq<Task>, task: Task)
    ensures TotalBytes(queue + [task]) == TotalBytes(queue) + task.bytes
  {
    if queue == [] {
      assert queue + [task] == [task];
    } else {
      assert (queue + [task])[1..] == queue[1..] + [task];
      TotalBytesSnoc(queue[1..], task);
    }
  }

  lemma {:induction false} WaitingSnoc(queue: seq<Task>, task: Task)
    ensures Waiting(queue + [task]) == Waiting(queue) + NumbersOf(task)
  {
    hide NumbersOf;
    if queue == [] {
      assert queue + [task] == [task];
      assert NumbersOf(task) + [] == [] + NumbersOf(task);
    } else {
      assert (queue + [task])[1..] == queue[1..] + [task];
      WaitingSnoc(queue[1..], task);
      var first, rest := NumbersOf(queue[0]), Waiting(queue[1..]);
      assert first + (rest + NumbersOf(task)) == first + rest + NumbersOf(task);
    }
  }

  lemma OutlookSnoc(s: State, task: Task)
    requires s.inFlight ==> s.queue != []
    ensures Outlook(s.(queue := s.queue + [task])) == Outlook(s) + NumbersOf(task)
  {
    WaitingSnoc(s.queue, task);
    if s.inFlight {
      WaitingSnoc(s.queue[1..], task);
      assert (s.queue + [task])[1..] == s.queue[1..] + [task];
    }
    hide Waiting, NumbersOf;
  }

  lemma EnqueueInv(s: State, work: Work, bytes: nat, t: Terminal, epoch: string, text: seq<CodePoint>)
    requires Inv(s) && (work.Input? ==> work.number == |s.accepted|)
    ensures var (s', taken) := Enqueue(s, work, bytes, t, epoch);
      if taken && work.Input? then Inv(s'.(accepted := s'.accepted + [text])) else Inv(s')
  {
    var task := Task(work, bytes, t.id, epoch, s.generation, s.env.identity);
    TotalBytesSnoc(s.queue, task);
    OutlookSnoc(s, task);
    hide TotalBytes, Waiting;
    var (s', taken) := Enqueue(s, work, bytes, t, epoch);
    if taken {
      var s'' := if work.Input? then s'.(accepted := s'.accepted + [text]) else s';
      assert Outlook(s'') == Outlook(s.(queue := s.queue + [task]));
      OneNumberMore(Outlook(s), task, |s.accepted|, |s''.accepted|);
    } else {
      assert Outlook(s') == Outlook(s);
    }
  }

  lemma OneNumberMore(numbers: seq<nat>, task: Task, limit: nat, limit': nat)
    requires Increasing(numbers) && Below(numbers, limit)
    requires if task.work.Input? then task.work.number == limit && limit' == limit + 1 else limit' == limit
    ensures Increasing(numbers + NumbersOf(task)) && Below(numbers + NumbersOf(task), limit')
  {
  }

  lemma {:induction false} EnqueueChunksInv(s: State, chunks: seq<Chunk>, t: Terminal, epoch: string)
    requires Inv(s)
    ensures Inv(EnqueueChunks(s, chunks, t, epoch))
    decreases |chunks|
  {
    hide Inv, Enqueue;
    if chunks != [] {
      EnqueueInv(s, Input(|s.accepted|), chunks[0].bytes, t, epoch, chunks[0].text);
      EnqueueKeeps(s, Input(|s.accepted|), chunks[0].bytes, t, epoch);
      var (s', taken) := Enqueue(s, Input(|s.accepted|), chunks[0].bytes, t, epoch);
      if taken {
        EnqueueChunksInv(s'.(accepted := s'.accepted + [chunks[0].text]), chunks[1..], t, epoch);
      }
    }
  }

  lemma EnqueueKeeps(s: State, work: Work, bytes: nat, t: Terminal, epoch: string)
    ensures Enqueue(s, work, bytes, t, epoch).0.accepted == s.accepted
    ensures Enqueue(s, work, bytes, t, epoch).0.sent == s.sent
  {
  }

  // Starting the first task moves its chunk, if it has one, from waiting to sent, or drops it.
  lemma StartOutlook(s: State)
    requires s.queue != [] && !s.inFlight
    ensures var s', rest := Start(s), Waiting(s.queue[1..]);
      match s.queue[0].work
      case Input(number) =>
        && Outlook(s) == s.sent + [number] + rest
        && (Outlook(s') == s.sent + [number] + rest || Outlook(s') == s.sent + rest)
      case Resize(_) => Outlook(s) == Outlook(s') == s.sent + rest
  {
    hide CanControl;
    var rest := Waiting(s.queue[1..]);
    assert [] + rest == rest;
    if s.queue[0].work.Input? {
      assert s.sent + ([s.queue[0].work.number] + rest) == s.sent + [s.queue[0].work.number] + rest;
    }
  }

  lemma StartInv(s: State)
    requires Inv(s)
    ensures Inv(Start(s))
  {
    if s.queue != [] && !s.inFlight {
      StartOutlook(s);
      hide CanControl, Waiting, Outlook;
      if s.queue[0].work.Input? {
        Drop(s.sent, s.queue[0].work.number, Waiting(s.queue[1..]), |s.accepted|);
      }
    }
  }

  lemma Drop(a: seq<nat>, x: nat, b: seq<nat>, limit: nat)
    requires Increasing(a + [x] + b) && Below(a + [x] + b, limit)
    ensures Increasing(a + b) && Below(a + b, limit)
  {
    var whole := a + [x] + b;
    forall i, j | 0 <= i < j < |a + b|
      ensures (a + b)[i] < (a + b)[j]
    {
      assert (a + b)[i] == whole[if i < |a| then i else i + 1];
      assert (a + b)[j] == whole[if j < |a| then j else j + 1];
    }
    forall i | 0 <= i < |a + b|
      ensures (a + b)[i] < limit
    {
      assert (a + b)[i] == whole[if i < |a| then i else i + 1];
    }
  }

  lemma ResizeInv(s: State, size: Size)
    requires Inv(s)
    ensures Inv(AskResize(s, size))
  {
    var remembered := s.(desiredSize := Some(size));
    assert Inv(remembered) by {
      assert Outlook(remembered) == Outlook(s);
      hide Waiting, TotalBytes;
    }
    hide Inv, CanControl, Enqueue;
    if s.env.control.Some? && s.env.positionEpoch.Some? {
      var t, epoch := s.env.control.value, s.env.positionEpoch.value;
      EnqueueInv(remembered, Resize(Dimensions(t.id, epoch, size)), 0, t, epoch, []);
    }
  }

  lemma TypeInv(s: State, chunks: seq<Chunk>)
    requires Inv(s)
    ensures Inv(Type(s, chunks))
  {
    hide Inv, EnqueueChunks;
    if MayType(s) {
      EnqueueChunksInv(s, chunks, s.env.control.value, s.env.positionEpoch.value);
    }
  }

  lemma FinishInv(s: State, confirmed: bool)
    requires Inv(s)
    ensures Inv(Finish(s, confirmed))
  {
    hide Unconfirmed, Waiting;
  }

  lemma OtherStepsInv(s: State, e: Event)
    requires Inv(s) && (e.Switched? || e.Bumped? || e.Changed?)
    ensures Inv(Step(s, e))
  {
    hide Waiting, TotalBytes;
  }

  lemma ResumeInv(s: State)
    requires Inv(s)
    ensures Inv(Resume(s))
  {
    var resumed := s.(generation := s.generation + 1, blocked := false, paused := false);
    assert Inv(resumed) by {
      assert Outlook(resumed) == Outlook(s);
      hide Waiting, TotalBytes;
    }
    hide Inv, AskResize;
    if s.desiredSize.Some? {
      ResizeInv(resumed, s.desiredSize.value);
    }
  }

  lemma StepInv(s: State, e: Event)
    requires Inv(s)
    ensures Inv(Step(s, e))
  {
    hide Inv, Type, AskResize, Start, Finish, Resume;
    match e
    case Typed(chunks) => TypeInv(s, chunks);
    case Resized(size) => ResizeInv(s, size);
    case Resumed => ResumeInv(s);
    case Started => StartInv(s);
    case Finished(confirmed) => FinishInv(s, confirmed);
    case _ => OtherStepsInv(s, e);
  }

  lemma {:induction false} RunInv(s: State, events: seq<Event>)
    requires Inv(s)
    ensures Inv(Run(s, events))
    decreases |events|
  {
    if events != [] {
      hide Inv, Step;
      StepInv(s, events[0]);
      RunInv(Step(s, events[0]), events[1..]);
    }
  }

  /** In every run the chunks sent are accepted chunks in the order they were typed, none twice, and the budget is
      exactly what is queued, at most 128 tasks and 256 KiB. */
  lemma InputIsOrderedAndAtMostOnce(env: Environment, events: seq<Event>)
    ensures var s := Run(Init(env), events);
      && Increasing(s.sent) && Below(s.sent, |s.accepted|)
      && s.count == |s.queue| <= 128
      && s.bytes == TotalBytes(s.queue) <= 262_144
  {
    InitInv(env);
    RunInv(Init(env), events);
    var s := Run(Init(env), events);
    hide Waiting, TotalBytes, Run;
    forall i, j | 0 <= i < j < |s.sent|
      ensures s.sent[i] < s.sent[j]
    {
      assert s.sent[i] == Outlook(s)[i] && s.sent[j] == Outlook(s)[j];
    }
    forall i | 0 <= i < |s.sent|
      ensures s.sent[i] < |s.accepted|
    {
      assert s.sent[i] == Outlook(s)[i];
    }
  }

  // ---- No resending ----

  // Everything queued was captured under an earlier generation than the current one.
  predicate Stale(s: State, chunks: nat, generation: nat)
  {
    && s.generation >= generation && |s.accepted| >= chunks
    && forall i :: 0 <= i < |s.queue| ==>
         s.queue[i].work.Input? && s.queue[i].work.number < chunks ==> s.queue[i].generation < generation
  }

  // Only chunks numbered from `chunks` on were sent after the first `already`.
  predicate NewOnly(s: State, already: nat, chunks: nat)
  {
    already <= |s.sent| && forall i :: already <= i < |s.sent| ==> s.sent[i] >= chunks
  }

  lemma {:induction false} EnqueueChunksStale(s: State, chunks: seq<Chunk>, t: Terminal, epoch: string,
                                              before: nat, generation: nat)
    requires Stale(s, before, generation)
    ensures Stale(EnqueueChunks(s, chunks, t, epoch), before, generation)
    ensures EnqueueChunks(s, chunks, t, epoch).sent == s.sent
    decreases |chunks|
  {
    if chunks != [] {
      var (s', taken) := Enqueue(s, Input(|s.accepted|), chunks[0].bytes, t, epoch);
      if taken {
        EnqueueChunksStale(s'.(accepted := s'.accepted + [chunks[0].text]), chunks[1..], t, epoch, before, generation);
      }
    }
  }

  lemma StaleStep(s: State, e: Event, already: nat, chunks: nat, generation: nat)
    requires Stale(s, chunks, generation) && NewOnly(s, already, chunks)
    ensures Stale(Step(s, e), chunks, generation) && NewOnly(Step(s, e), already, chunks)
  {
    hide Start, Finish, AskResize, Type;
    match e
    case Typed(typed) => TypeStale(s, typed, chunks, generation);
    case Resized(size) => ResizeStale(s, size, chunks, generation);
    case Resumed =>
      if s.desiredSize.Some? {
        ResizeStale(s.(generation := s.generation + 1, blocked := false, paused := false), s.desiredSize.value, chunks,
                    generation);
      }
    case Started => StartStale(s, already, chunks, generation);
    case Finished(confirmed) => FinishStale(s, confirmed, chunks, generation);
    case _ =>
  }

  lemma TypeStale(s: State, typed: seq<Chunk>, chunks: nat, generation: nat)
    requires Stale(s, chunks, generation)
    ensures Stale(Type(s, typed), chunks, generation) && Type(s, typed).sent == s.sent
  {
    if MayType(s) {
      EnqueueChunksStale(s, typed, s.env.control.value, s.env.positionEpoch.value, chunks, generation);
      hide EnqueueChunks;
    }
  }

  lemma StartStale(s: State, already: nat, chunks: nat, generation: nat)
    requires Stale(s, chunks, generation) && NewOnly(s, already, chunks)
    ensures Stale(Start(s), chunks, generation) && NewOnly(Start(s), already, chunks)
  {
    hide TotalBytes;
  }

  lemma FinishStale(s: State, confirmed: bool, chunks: nat, generation: nat)
    requires Stale(s, chunks, generation)
    ensures Stale(Finish(s, confirmed), chunks, generation) && Finish(s, confirmed).sent == s.sent
  {
    hide Unconfirmed;
  }

  lemma ResizeStale(s: State, size: Size, chunks: nat, generation: nat)
    requires Stale(s, chunks, generation)
    ensures Stale(AskResize(s, size), chunks, generation) && AskResize(s, size).sent == s.sent
  {
    hide CanControl;
  }

  lemma {:induction false} StaleRun(s: State, events: seq<Event>, already: nat, chunks: nat, generation: nat)
    requires Stale(s, chunks, generation) && NewOnly(s, already, chunks)
    ensures NewOnly(Run(s, events), already, chunks)
    decreases |events|
  {
    if events != [] {
      hide Stale, NewOnly, Step;
      StaleStep(s, events[0], already, chunks, generation);
      StaleRun(Step(s, events[0]), events[1..], already, chunks, generation);
    }
  }

  lemma InitInv(env: Environment)
    ensures Inv(Init(env))
  {
  }

  lemma GenerationsBelow(s: State)
    requires Inv(s) && Unconfirmed(s)
    ensures Stale(Step(s, Finished(false)), |s.accepted|, s.generation + 1)
    ensures NewOnly(Step(s, Finished(false)), |s.sent|, |s.accepted|)
  {
    hide Waiting, TotalBytes, Increasing, Below;
  }

  /** After a request on the terminal under control fails unconfirmed, nothing accepted before is ever sent again or for
      the first time, whatever happens later, resuming included. */
  lemma UnconfirmedInputIsNeverResent(env: Environment, events: seq<Event>, more: seq<Event>)
    requires Unconfirmed(Run(Init(env), events))
    ensures var s := Run(Init(env), events);
      NewOnly(Run(Step(s, Finished(false)), more), |s.sent|, |s.accepted|)
  {
    var s := Run(Init(env), events);
    InitInv(env);
    RunInv(Init(env), events);
    hide Run, Waiting, TotalBytes, Increasing, Below;
    GenerationsBelow(s);
    hide Inv, Stale, NewOnly, Finish;
    StaleRun(Step(s, Finished(false)), more, |s.sent|, |s.accepted|, s.generation + 1);
  }

  predicate Resumes(e: Event)
  {
    e.Resumed? || e.Switched?
  }

  /** Until the user resumes or selects another terminal, blocked input accepts nothing and sends nothing; and resuming
      waits until the queue is empty. */
  lemma {:induction false} BlockedInputStaysSilent(s: State, events: seq<Event>)
    requires s.blocked && forall i :: 0 <= i < |events| ==> !Resumes(events[i])
    ensures var s' := Run(s, events);
      s'.blocked && s'.accepted == s.accepted && s'.sent == s.sent
    decreases |events|
  {
    if events != [] {
      BlockedStep(s, events[0]);
      hide Step;
      BlockedInputStaysSilent(Step(s, events[0]), events[1..]);
    }
  }

  lemma BlockedStep(s: State, e: Event)
    requires s.blocked && !Resumes(e)
    ensures var s' := Step(s, e);
      s'.blocked && s'.accepted == s.accepted && s'.sent == s.sent
  {
  }

  lemma ResumeWaitsForQueue(env: Environment, events: seq<Event>)
    ensures var s := Run(Init(env), events);
      && (s.queue != [] ==> Step(s, Resumed) == s)
      && (s.queue == [] ==> !Step(s, Resumed).blocked && Step(s, Resumed).generation == s.generation + 1)
  {
    InitInv(env);
    RunInv(Init(env), events);
    hide Run, Waiting, TotalBytes, CanControl;
  }

  // The size of the last resize in a run.
  function LastAsked(events: seq<Event>): Option<Size>
  {
    if events == [] then None
    else
      var later := LastAsked(events[1..]);
      if later.Some? then later else if events[0].Resized? then Some(events[0].size) else None
  }

  lemma SizeStep(s: State, e: Event)
    ensures Step(s, e).desiredSize == if e.Resized? then Some(e.size) else s.desiredSize
  {
    hide CanControl;
    if e.Typed? && MayType(s) {
      ChunksKeepSize(s, e.chunks, s.env.control.value, s.env.positionEpoch.value);
    }
    hide EnqueueChunks, Unconfirmed;
  }

  lemma {:induction false} ChunksKeepSize(s: State, chunks: seq<Chunk>, t: Terminal, epoch: string)
    ensures EnqueueChunks(s, chunks, t, epoch).desiredSize == s.desiredSize
    decreases |chunks|
  {
    if chunks != [] {
      var (s', taken) := Enqueue(s, Input(|s.accepted|), chunks[0].bytes, t, epoch);
      if taken {
        ChunksKeepSize(s'.(accepted := s'.accepted + [chunks[0].text]), chunks[1..], t, epoch);
      }
    }
  }

  /** The size last asked for is never lost, whatever happens to the requests for it. */
  lemma {:induction false} SizeIsRemembered(s: State, events: seq<Event>)
    ensures Run(s, events).desiredSize == if LastAsked(events).Some? then LastAsked(events) else s.desiredSize
    decreases |events|
  {
    if events != [] {
      SizeStep(s, events[0]);
      hide Step;
      SizeIsRemembered(Step(s, events[0]), events[1..]);
    }
  }

  /** Resuming asks for the size that was last asked for in the run, and queues exactly one request for it if the terminal
      is under control, supports it and its position is known. */
  lemma ResumeAsksForRememberedSize(env: Environment, events: seq<Event>)
    requires Run(Init(env), events).queue == []
    ensures var s := Run(Init(env), events);
      var s' := Step(s, Resumed);
      && s.desiredSize == LastAsked(events) == s'.desiredSize
      && (s'.queue != [] <==>
            && s.desiredSize.Some? && s.env.control.Some? && s.env.positionEpoch.Some? && !s.env.recovering
            && var t, epoch := s.env.control.value, s.env.positionEpoch.value;
               && t.resizeSupported && t.running && t.controlAllowed && t.epoch == epoch
               && s.env.active && s.env.foreground && s.env.connected)
      && (s'.queue != [] ==>
            && |s'.queue| == 1
            && s'.queue[0].work == Resize(Dimensions(s.env.control.value.id, s.env.positionEpoch.value,
                                                     s.desiredSize.value)))
  {
    InitInv(env);
    RunInv(Init(env), events);
    SizeIsRemembered(Init(env), events);
    hide Run, Waiting, Increasing, Below, LastAsked;
  }
}
