/** The server side of a terminal stream: a log of payloads per resource epoch, numbered from 1, and the snapshot an
    attach request gets (workbar-terminal-authority.ts, desktop-workbar-terminal-service.ts). */
module TerminalLog {
  import opened Options

  datatype Payload = Output(data: string) | StatusChange(status: string)

  function Text(payloads: seq<Payload>): string
  {
    if payloads == [] then ""
    else
      var last := payloads[|payloads| - 1];
      Text(payloads[..|payloads| - 1]) + (if last.Output? then last.data else "")
  }

  type Log = map<string, seq<Payload>>

  // Everything an epoch had printed once its event `sequence` was emitted.
  function Printed(log: Log, epoch: string, sequence: nat): string
    requires epoch in log && sequence <= |log[epoch]|
  {
    Text(log[epoch][..sequence])
  }

  predicate Suffix(s: string, t: string)
  {
    |s| <= |t| && t[|t| - |s|..] == s
  }

  // Part of what an epoch printed, ending at a sequence number it reached.
  predicate Tail(shown: string, log: Log, epoch: string, sequence: nat)
  {
    epoch in log && sequence <= |log[epoch]| && Suffix(shown, Printed(log, epoch, sequence))
  }

  datatype Reply = Reply(epoch: string, sequence: nat, snapshot: string, truncated: bool)

  // The ring still holds the events from `first` on; at most `limit` characters are sent, the last ones.
  function Serve(log: Log, epoch: string, after: Option<nat>, first: nat, limit: nat): (r: Reply)
    requires epoch in log && 1 <= first <= |log[epoch]| + 1
  {
    var n := |log[epoch]|;
    var a := if after.Some? then after.value else 0;
    var from := if a < first - 1 then first - 1 else a;
    var text := if from >= n then "" else Text(log[epoch][from..]);
    var cut := |text| > limit;
    Reply(epoch, n, if cut then text[|text| - limit..] else text, cut || (n > 0 && a < first - 1))
  }

  // What a client may rely on about a reply to a request that named `after`.
  predicate Answers(r: Reply, log: Log, after: Option<nat>)
  {
    && r.epoch in log && r.sequence <= |log[r.epoch]|
    && (r.truncated ==> Tail(r.snapshot, log, r.epoch, r.sequence))
    && (!r.truncated ==>
          var a := if after.Some? then after.value else 0;
          a <= r.sequence ==> Printed(log, r.epoch, a) + r.snapshot == Printed(log, r.epoch, r.sequence))
  }

  lemma {:induction false} TextConcat(a: seq<Payload>, b: seq<Payload>)
    ensures Text(a + b) == Text(a) + Text(b)
  {
    if b == [] {
      assert a + b == a;
    } else {
      var n := |b| - 1;
      assert (a + b)[..|a + b| - 1] == a + b[..n];
      TextConcat(a, b[..n]);
    }
  }

  lemma TextSplits(payloads: seq<Payload>, i: nat)
    requires i <= |payloads|
    ensures Text(payloads) == Text(payloads[..i]) + Text(payloads[i..])
  {
    hide Text;
    TextConcat(payloads[..i], payloads[i..]);
    assert payloads[..i] + payloads[i..] == payloads;
  }

  lemma SuffixOfSum(a: string, b: string, k: nat)
    requires k <= |b|
    ensures Suffix(b[k..], a + b)
  {
  }

  // What is left from `from` on, if anything, completes what was printed up to it.
  lemma RestOfLog(log: Log, epoch: string, from: nat)
    requires epoch in log
    ensures var n := |log[epoch]|;
      var text := if from >= n then "" else Text(log[epoch][from..]);
      && Printed(log, epoch, n) == Text(log[epoch])
      && (from <= n ==> Printed(log, epoch, from) + text == Printed(log, epoch, n))
      && forall k: nat :: k <= |text| ==> Suffix(text[k..], Printed(log, epoch, n))
  {
    var n := |log[epoch]|;
    var text := if from >= n then "" else Text(log[epoch][from..]);
    assert log[epoch][..n] == log[epoch];
    if from < n {
      TextSplits(log[epoch], from);
    }
    forall k: nat | k <= |text|
      ensures Suffix(text[k..], Printed(log, epoch, n))
    {
      if from < n {
        SuffixOfSum(Printed(log, epoch, from), text, k);
      }
    }
  }

  lemma ServeAnswers(log: Log, epoch: string, after: Option<nat>, first: nat, limit: nat)
    requires epoch in log && 1 <= first <= |log[epoch]| + 1
    ensures Answers(Serve(log, epoch, after, first, limit), log, after)
    ensures Serve(log, epoch, after, first, limit).sequence == |log[epoch]|
  {
    var a := if after.Some? then after.value else 0;
    var from := if a < first - 1 then first - 1 else a;
    RestOfLog(log, epoch, from);
    hide Printed, Suffix, Text;
    var text := if from >= |log[epoch]| then "" else Text(log[epoch][from..]);
    assert text[0..] == text;
  }

  // What an unbroken display holds: it was restarted from the snapshot of one answer and has since been given exactly
  // the output of the events after that answer, up to a sequence number of the same epoch. The snapshot is all that
  // was printed up to the answer, or a marked tail of it.
  predicate Displays(shown: string, origin: Option<Reply>, log: Log, epoch: string, sequence: nat)
  {
    && epoch in log && sequence <= |log[epoch]| && origin.Some?
    && var r := origin.value;
       && r.epoch == epoch && r.sequence <= sequence
       && shown == r.snapshot + Text(log[epoch][r.sequence..sequence])
       && Suffix(r.snapshot, Printed(log, epoch, r.sequence))
       && (!r.truncated ==> r.snapshot == Printed(log, epoch, r.sequence))
  }

  lemma DisplaysExtends(shown: string, origin: Option<Reply>, earlier: Log, later: Log, epoch: string, sequence: nat)
    requires Extends(later, earlier) && Displays(shown, origin, earlier, epoch, sequence)
    ensures Displays(shown, origin, later, epoch, sequence)
  {
    var n := origin.value.sequence;
    assert later[epoch][..n] == earlier[epoch][..n];
    assert later[epoch][n..sequence] == earlier[epoch][n..sequence];
  }

  // What completes the printed text of one sequence number to that of another is the output in between.
  lemma OutputBetween(data: string, log: Log, epoch: string, from: nat, to: nat)
    requires epoch in log && from <= to <= |log[epoch]|
    requires Printed(log, epoch, from) + data == Printed(log, epoch, to)
    ensures data == Text(log[epoch][from..to])
  {
    var all := log[epoch][..to];
    assert all[..from] == log[epoch][..from] && all[from..] == log[epoch][from..to];
    TextSplits(all, from);
    hide Text;
    var before := Text(all[..from]);
    assert (before + data)[|before|..] == data;
    assert (before + Text(all[from..]))[|before|..] == Text(all[from..]);
  }

  lemma DisplaysAppends(shown: string, origin: Option<Reply>, data: string, log: Log, epoch: string, from: nat, to: nat)
    requires Displays(shown, origin, log, epoch, from) && from <= to <= |log[epoch]|
    requires Printed(log, epoch, from) + data == Printed(log, epoch, to)
    ensures Displays(shown + data, origin, log, epoch, to)
  {
    OutputBetween(data, log, epoch, from, to);
    StretchSplits(log[epoch], origin.value.sequence, from, to);
    hide Text, Printed, Suffix;
  }

  lemma StretchSplits(payloads: seq<Payload>, n: nat, from: nat, to: nat)
    requires n <= from <= to <= |payloads|
    ensures Text(payloads[n..to]) == Text(payloads[n..from]) + Text(payloads[from..to])
  {
    var stretch := payloads[n..to];
    assert stretch[..from - n] == payloads[n..from] && stretch[from - n..] == payloads[from..to];
    TextSplits(stretch, from - n);
  }

  // A restarted display holds the snapshot and nothing else.
  lemma SnapshotDisplays(r: Reply, log: Log, after: Option<nat>)
    requires Answers(r, log, after) && (after == None || r.truncated)
    ensures Displays(r.snapshot, Some(r), log, r.epoch, r.sequence)
  {
    assert log[r.epoch][r.sequence..r.sequence] == [];
    assert Printed(log, r.epoch, 0) == "";
    assert "" + r.snapshot == r.snapshot == r.snapshot + "";
  }

  // A display that started from a whole snapshot holds everything printed.
  lemma WholeDisplays(shown: string, origin: Option<Reply>, log: Log, epoch: string, sequence: nat)
    requires Displays(shown, origin, log, epoch, sequence)
    ensures !origin.value.truncated ==> shown == Printed(log, epoch, sequence)
    ensures Suffix(shown, Printed(log, epoch, sequence))
  {
    var n := origin.value.sequence;
    var all := log[epoch][..sequence];
    assert all[..n] == log[epoch][..n] && all[n..] == log[epoch][n..sequence];
    TextSplits(all, n);
  }

  // The log only grows: an epoch keeps what it has, and a new epoch is fresh.
  predicate Extends(later: Log, earlier: Log)
  {
    forall e :: e in earlier ==> e in later && earlier[e] <= later[e]
  }

  lemma AnswersExtends(r: Reply, earlier: Log, later: Log, after: Option<nat>)
    requires Extends(later, earlier) && Answers(r, earlier, after)
    ensures Answers(r, later, after)
  {
    forall n: nat | n <= r.sequence
      ensures later[r.epoch][..n] == earlier[r.epoch][..n]
    {
    }
    assert later[r.epoch][..r.sequence] == earlier[r.epoch][..r.sequence];
    if after.Some? && after.value <= r.sequence {
      assert later[r.epoch][..after.value] == earlier[r.epoch][..after.value];
    } else {
      assert later[r.epoch][..0] == earlier[r.epoch][..0];
    }
  }

  lemma PrintedStep(log: Log, epoch: string, sequence: nat)
    requires epoch in log && sequence < |log[epoch]|
    ensures Printed(log, epoch, sequence + 1) ==
            Printed(log, epoch, sequence) +
            (if log[epoch][sequence].Output? then log[epoch][sequence].data else "")
  {
    assert log[epoch][..sequence + 1][..sequence] == log[epoch][..sequence];
  }
}
