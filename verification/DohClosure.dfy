/** The addresses a DNS-over-HTTPS answer yields for a host (public_egress.py, `_parse_doh_response`): aliases are
    followed by a loop of at most 64 expansions over at most 64 answers. CNAME is section 3.6.2 of RFC 1034. */
module DohClosure {
  import opened Options

  const DOH_MAX_ANSWERS := 64
  const MAX_TTL := 0xFFFF_FFFF

  type Name = string
  type Ipv4 = a: int | 0 <= a < 0x1_0000_0000

  // The data of one answer once parsed; a name or address that does not parse is None.
  datatype Data = Cname(target: Option<Name>) | Address(address: Option<Ipv4>) | OtherType

  datatype Answer = Answer(owner: Option<Name>, ttl: int, data: Data)

  datatype Error = ResolutionFailed | NonPublicAddress

  datatype Result = Addresses(addresses: seq<Ipv4>) | Failed(error: Error)

  // ---- What the answer means ----

  function AnswerError(a: Answer, isPublic: Ipv4 -> bool): Option<Error>
  {
    if !(0 <= a.ttl <= MAX_TTL) || a.owner == None then Some(ResolutionFailed)
    else
      match a.data
      case Cname(target) => if target == None then Some(ResolutionFailed) else None
      case OtherType => Some(ResolutionFailed)
      case Address(address) =>
        if address == None then Some(ResolutionFailed)
        else if !isPublic(address.value) then Some(NonPublicAddress)
        else None
  }

  function FirstError(answers: seq<Answer>, isPublic: Ipv4 -> bool): Option<Error>
  {
    if answers == [] then None
    else
      var before := FirstError(answers[..|answers| - 1], isPublic);
      if before.Some? then before else AnswerError(answers[|answers| - 1], isPublic)
  }

  // An answer the parse can use: a named owner, a 32-bit time to live, and an alias target or a public address.
  predicate Good(a: Answer, isPublic: Ipv4 -> bool)
  {
    && a.owner.Some? && 0 <= a.ttl <= 4_294_967_295
    && match a.data
       case Cname(target) => target.Some?
       case Address(address) => address.Some? && isPublic(address.value)
       case OtherType => false
  }

  // Good but for its address, which is not public.
  predicate OnlyPrivate(a: Answer, isPublic: Ipv4 -> bool)
  {
    && a.owner.Some? && 0 <= a.ttl <= 4_294_967_295
    && a.data.Address? && a.data.address.Some? && !isPublic(a.data.address.value)
  }

  predicate FirstBad(answers: seq<Answer>, isPublic: Ipv4 -> bool, i: int)
  {
    0 <= i < |answers| && !Good(answers[i], isPublic) && forall j :: 0 <= j < i ==> Good(answers[j], isPublic)
  }

  /** The parse has an error exactly when some answer cannot be used, and the first such answer decides which. */
  lemma {:induction false} FirstBadDecides(answers: seq<Answer>, isPublic: Ipv4 -> bool)
    ensures FirstError(answers, isPublic) == None <==> forall i :: 0 <= i < |answers| ==> Good(answers[i], isPublic)
    ensures forall i :: FirstBad(answers, isPublic, i) ==>
      FirstError(answers, isPublic)
      == Some(if OnlyPrivate(answers[i], isPublic) then NonPublicAddress else ResolutionFailed)
  {
    if answers != [] {
      var init := answers[..|answers| - 1];
      FirstBadDecides(init, isPublic);
      assert forall i :: 0 <= i < |init| ==> init[i] == answers[i];
      forall i | FirstBad(answers, isPublic, i)
        ensures FirstError(answers, isPublic)
          == Some(if OnlyPrivate(answers[i], isPublic) then NonPublicAddress else ResolutionFailed)
      {
        assert i < |init| ==> FirstBad(init, isPublic, i);
      }
    }
  }

  // One answer says that `a` is an alias of `b`.
  predicate Alias(answers: seq<Answer>, a: Name, b: Name)
  {
    exists i :: 0 <= i < |answers| && answers[i].owner == Some(a) && answers[i].data == Cname(Some(b))
  }

  // A chain of aliases from the first name to the last.
  predicate Chain(answers: seq<Answer>, names: seq<Name>)
  {
    names != [] && forall i :: 0 <= i < |names| - 1 ==> Alias(answers, names[i], names[i + 1])
  }

  ghost predicate Reachable(answers: seq<Answer>, host: Name, name: Name)
  {
    exists names :: Chain(answers, names) && names[0] == host && names[|names| - 1] == name
  }

  predicate Owns(answers: seq<Answer>, name: Name, address: Ipv4)
  {
    exists i :: 0 <= i < |answers| && answers[i].owner == Some(name) && answers[i].data == Address(Some(address))
  }

  // The addresses owned by the given names, in the order of the answers.
  function Owned(answers: seq<Answer>, names: set<Name>): seq<Ipv4>
  {
    if answers == [] then []
    else
      var last := answers[|answers| - 1];
      Owned(answers[..|answers| - 1], names) +
      (if last.owner.Some? && last.owner.value in names && last.data.Address? && last.data.address.Some?
       then [last.data.address.value] else [])
  }

  // Each element once, where it first occurs.
  function FirstOccurrences(s: seq<Ipv4>): seq<Ipv4>
  {
    if s == [] then []
    else
      var before := FirstOccurrences(s[..|s| - 1]);
      if s[|s| - 1] in before then before else before + [s[|s| - 1]]
  }

  predicate Distinct(s: seq<Ipv4>)
  {
    forall i, j :: 0 <= i < j < |s| ==> s[i] != s[j]
  }

  lemma {:induction false} FirstOccurrencesMeaning(s: seq<Ipv4>)
    ensures Distinct(FirstOccurrences(s))
    ensures forall a :: a in FirstOccurrences(s) <==> a in s
  {
    if s != [] {
      var init, last := s[..|s| - 1], s[|s| - 1];
      FirstOccurrencesMeaning(init);
      assert s == init + [last];
    }
  }

  // The answer gives this address to one of the names.
  predicate Gives(a: Answer, names: set<Name>, address: Ipv4)
  {
    a.owner.Some? && a.owner.value in names && a.data == Address(Some(address))
  }

  lemma {:induction false} GivenIsOwned(answers: seq<Answer>, names: set<Name>, address: Ipv4)
    ensures address in Owned(answers, names) <==> exists p :: 0 <= p < |answers| && Gives(answers[p], names, address)
  {
    if answers != [] {
      var n := |answers| - 1;
      GivenIsOwned(answers[..n], names, address);
      assert (exists p :: 0 <= p < |answers| && Gives(answers[p], names, address)) <==>
             Gives(answers[n], names, address) || exists p :: 0 <= p < n && Gives(answers[..n][p], names, address);
    }
  }

  // Some answer gives the first address before any gives the second.
  predicate GivenFirst(answers: seq<Answer>, names: set<Name>, first: Ipv4, second: Ipv4)
  {
    exists p :: 0 <= p < |answers| && Gives(answers[p], names, first)
                && forall q :: 0 <= q <= p ==> !Gives(answers[q], names, second)
  }

  lemma GivenFirstStays(answers: seq<Answer>, names: set<Name>, first: Ipv4, second: Ipv4)
    requires answers != [] && GivenFirst(answers[..|answers| - 1], names, first, second)
    ensures GivenFirst(answers, names, first, second)
  {
    hide Gives;
    var init := answers[..|answers| - 1];
    var p :| 0 <= p < |init| && Gives(init[p], names, first) && forall q :: 0 <= q <= p ==> !Gives(init[q], names, second);
    assert init[p] == answers[p] && forall q :: 0 <= q <= p ==> answers[q] == init[q];
  }

  lemma OnlyFirstGiven(answers: seq<Answer>, names: set<Name>, first: Ipv4, second: Ipv4)
    requires first in Owned(answers, names) && second !in Owned(answers, names)
    ensures GivenFirst(answers, names, first, second)
  {
    GivenIsOwned(answers, names, first);
    GivenIsOwned(answers, names, second);
    hide Owned, Gives;
  }

  /** The addresses come in the order in which the answers first give them. */
  lemma {:induction false} InAnswerOrder(answers: seq<Answer>, names: set<Name>, i: nat, j: nat)
    requires i < j < |FirstOccurrences(Owned(answers, names))|
    ensures var r := FirstOccurrences(Owned(answers, names)); GivenFirst(answers, names, r[i], r[j])
  {
    assert answers != [];
    var init := answers[..|answers| - 1];
    var r, r' := FirstOccurrences(Owned(answers, names)), FirstOccurrences(Owned(init, names));
    LastOwned(answers, names);
    FirstOccurrencesMeaning(Owned(init, names));
    hide Owned, FirstOccurrences, GivenFirst;
    assert r[i] == r'[i];
    if j < |r'| {
      InAnswerOrder(init, names, i, j);
    } else {
      OnlyFirstGiven(init, names, r[i], r[j]);
    }
    GivenFirstStays(answers, names, r[i], r[j]);
  }

  lemma LastOwned(answers: seq<Answer>, names: set<Name>)
    requires answers != []
    ensures var before := Owned(answers[..|answers| - 1], names);
      var r, r' := FirstOccurrences(Owned(answers, names)), FirstOccurrences(before);
      r == r' || (|r| == |r'| + 1 && r == r' + [r[|r'|]] && r[|r'|] !in before)
  {
    var before := Owned(answers[..|answers| - 1], names);
    FirstOccurrencesMeaning(before);
    if Owned(answers, names) != before {
      assert Owned(answers, names)[..|before|] == before;
    } else {
      assert before + [] == before;
    }
  }

  lemma NotOwned(answers: seq<Answer>, name: Name, a: Ipv4)
    requires answers != [] && !Owns(answers[..|answers| - 1], name, a)
    requires var last := answers[|answers| - 1]; last.owner == Some(name) ==> last.data != Address(Some(a))
    ensures !Owns(answers, name, a)
  {
    var init := answers[..|answers| - 1];
    forall i | 0 <= i < |answers|
      ensures !(answers[i].owner == Some(name) && answers[i].data == Address(Some(a)))
    {
      assert i < |init| ==> init[i] == answers[i];
    }
  }

  lemma {:induction false} OwnedMeaning(answers: seq<Answer>, names: set<Name>)
    ensures forall a :: a in Owned(answers, names) <==> exists n :: n in names && Owns(answers, n, a)
  {
    if answers != [] {
      var init, last := answers[..|answers| - 1], answers[|answers| - 1];
      OwnedMeaning(init, names);
      forall a
        ensures a in Owned(answers, names) <==> exists n :: n in names && Owns(answers, n, a)
      {
        if a in Owned(init, names) {
          var n :| n in names && Owns(init, n, a);
          var i :| 0 <= i < |init| && init[i].owner == Some(n) && init[i].data == Address(Some(a));
          assert answers[i] == init[i];
          assert Owns(answers, n, a);
        } else if a in Owned(answers, names) {
          assert answers[|answers| - 1] == last;
          assert Owns(answers, last.owner.value, a);
        } else {
          forall n | n in names
            ensures !Owns(answers, n, a)
          {
            NotOwned(answers, n, a);
          }
        }
      }
    }
  }

  // ---- The loops ----

  type Edges = map<Name, set<Name>>

  predicate EdgesOf(edges: Edges, answers: seq<Answer>)
  {
    && (forall a, b :: a in edges && b in edges[a] ==> Alias(answers, a, b))
    && (forall i :: 0 <= i < |answers| && answers[i].owner.Some? && answers[i].data.Cname? && answers[i].data.target.Some?
          ==> answers[i].owner.value in edges && answers[i].data.target.value in edges[answers[i].owner.value])
  }

  // Targets of aliases among the answers.
  function Targets(answers: seq<Answer>): set<Name>
  {
    set i | 0 <= i < |answers| && answers[i].data.Cname? && answers[i].data.target.Some? :: answers[i].data.target.value
  }

  function Successors(edges: Edges, names: set<Name>): set<Name>
  {
    set a, b | a in names && a in edges && b in edges[a] :: b
  }

  lemma {:induction false} FewTargets(answers: seq<Answer>)
    ensures |Targets(answers)| <= |answers|
  {
    if answers != [] {
      var init, last := answers[..|answers| - 1], answers[|answers| - 1];
      FewTargets(init);
      var extra := if last.data.Cname? && last.data.target.Some? then {last.data.target.value} else {};
      assert Targets(answers) == Targets(init) + extra by {
        forall n | n in Targets(answers)
          ensures n in Targets(init) + extra
        {
          var i :| 0 <= i < |answers| && answers[i].data.Cname? && answers[i].data.target == Some(n);
          assert i < |init| ==> init[i] == answers[i];
        }
        forall n | n in Targets(init) + extra
          ensures n in Targets(answers)
        {
          if n in Targets(init) {
            var i :| 0 <= i < |init| && init[i].data.Cname? && init[i].data.target == Some(n);
            assert answers[i] == init[i];
          } else {
            assert answers[|answers| - 1] == last;
          }
        }
      }
      assert |Targets(answers)| <= |Targets(init)| + |extra|;
    }
  }

  lemma SuccessorIsTarget(edges: Edges, answers: seq<Answer>, names: set<Name>)
    requires EdgesOf(edges, answers)
    ensures Successors(edges, names) <= Targets(answers)
  {
    forall b | b in Successors(edges, names)
      ensures b in Targets(answers)
    {
      var a :| a in names && a in edges && b in edges[a];
      assert Alias(answers, a, b);
      var i :| 0 <= i < |answers| && answers[i].owner == Some(a) && answers[i].data == Cname(Some(b));
    }
  }

  // Following one more alias extends the chain.
  lemma SuccessorReachable(edges: Edges, answers: seq<Answer>, host: Name, names: set<Name>)
    requires EdgesOf(edges, answers) && forall n :: n in names ==> Reachable(answers, host, n)
    ensures forall n :: n in Successors(edges, names) ==> Reachable(answers, host, n)
  {
    forall b | b in Successors(edges, names)
      ensures Reachable(answers, host, b)
    {
      var a :| a in names && a in edges && b in edges[a];
      assert Alias(answers, a, b);
      var chain :| Chain(answers, chain) && chain[0] == host && chain[|chain| - 1] == a;
      var longer := chain + [b];
      forall i | 0 <= i < |longer| - 1
        ensures Alias(answers, longer[i], longer[i + 1])
      {
        if i < |chain| - 1 {
          assert Alias(answers, chain[i], chain[i + 1]);
        }
      }
      assert Chain(answers, longer) && longer[0] == host && longer[|longer| - 1] == b;
    }
  }

  predicate Closed(edges: Edges, names: set<Name>)
  {
    Successors(edges, names) <= names
  }

  lemma {:induction false} ClosedHoldsChains(edges: Edges, answers: seq<Answer>, names: set<Name>, chain: seq<Name>)
    requires EdgesOf(edges, answers) && Closed(edges, names) && Chain(answers, chain) && chain[0] in names
    ensures chain[|chain| - 1] in names
    decreases |chain|
  {
    if |chain| > 1 {
      assert Alias(answers, chain[0], chain[1]);
      var i :| 0 <= i < |answers| && answers[i].owner == Some(chain[0]) && answers[i].data == Cname(Some(chain[1]));
      assert chain[1] in Successors(edges, names);
      forall j | 0 <= j < |chain[1..]| - 1
        ensures Alias(answers, chain[1..][j], chain[1..][j + 1])
      {
        assert Alias(answers, chain[j + 1], chain[j + 2]);
      }
      ClosedHoldsChains(edges, answers, names, chain[1..]);
    }
  }

  /** A closed set that contains the host and only reachable names is the set of reachable names. */
  lemma ClosedIsReachable(edges: Edges, answers: seq<Answer>, host: Name, names: set<Name>)
    requires EdgesOf(edges, answers) && Closed(edges, names) && host in names
    requires forall n :: n in names ==> Reachable(answers, host, n)
    ensures forall n :: n in names <==> Reachable(answers, host, n)
  {
    forall n | Reachable(answers, host, n)
      ensures n in names
    {
      var chain :| Chain(answers, chain) && chain[0] == host && chain[|chain| - 1] == n;
      ClosedHoldsChains(edges, answers, names, chain);
    }
  }

  /** The expansion loop. It stops when nothing new appears, and otherwise after as many rounds as there can be answers;
      each round that goes on has found a new alias target, so either way nothing is missing, cycles included. */
  method Expand(ghost answers: seq<Answer>, edges: Edges, host: Name) returns (reachable: set<Name>)
    requires EdgesOf(edges, answers) && |answers| <= DOH_MAX_ANSWERS
    ensures forall n :: n in reachable <==> Reachable(answers, host, n)
  {
    reachable := {host};
    HostReachable(answers, host);
    var round := 0;
    while round < DOH_MAX_ANSWERS
      invariant 0 <= round <= DOH_MAX_ANSWERS
      invariant host in reachable && reachable <= {host} + Targets(answers)
      invariant |reachable| >= 1 + round
      invariant forall n :: n in reachable ==> Reachable(answers, host, n)
    {
      SuccessorIsTarget(edges, answers, reachable);
      SuccessorReachable(edges, answers, host, reachable);
      var expanded := reachable + Successors(edges, reachable);
      if expanded == reachable {
        assert Closed(edges, reachable);
        ClosedIsReachable(edges, answers, host, reachable);
        return;
      }
      assert reachable < expanded;
      StrictlyLarger(reachable, expanded);
      reachable := expanded;
      round := round + 1;
    }
    FewTargets(answers);
    NoRoomLeft(reachable, {host} + Targets(answers));
    SuccessorIsTarget(edges, answers, reachable);
    assert Closed(edges, reachable);
    ClosedIsReachable(edges, answers, host, reachable);
  }

  lemma HostReachable(answers: seq<Answer>, host: Name)
    ensures Reachable(answers, host, host)
  {
    assert Chain(answers, [host]);
  }

  lemma StrictlyLarger(a: set<Name>, b: set<Name>)
    requires a < b
    ensures |a| < |b|
  {
    assert b == a + (b - a);
    assert |b| == |a| + |b - a|;
    assert b - a != {};
  }

  lemma NoRoomLeft(a: set<Name>, b: set<Name>)
    requires a <= b && |a| >= |b|
    ensures a == b
  {
    assert b == a + (b - a);
    assert |b| == |a| + |b - a|;
  }

  // Sorts the answers into alias edges and address records, stopping at the first bad one.
  method Collect(answers: seq<Answer>, isPublic: Ipv4 -> bool)
    returns (error: Option<Error>, edges: Edges, records: seq<(Name, Ipv4)>)
    ensures error == FirstError(answers, isPublic)
    ensures error == None ==> EdgesOf(edges, answers)
    ensures error == None ==> forall names :: Picked(records, names) == Owned(answers, names)
    ensures error == None ==> forall i :: 0 <= i < |records| ==> isPublic(records[i].1)
  {
    edges, records := map[], [];
    NothingCollected(answers, isPublic);
    hide FirstError, Owned, Picked, EdgesOf, AnswerError;
    for i := 0 to |answers|
      invariant FirstError(answers[..i], isPublic) == None
      invariant EdgesOf(edges, answers[..i])
      invariant forall names :: Picked(records, names) == Owned(answers[..i], names)
      invariant forall j :: 0 <= j < |records| ==> isPublic(records[j].1)
    {
      var a := answers[i];
      error := AnswerError(a, isPublic);
      Advances(answers, isPublic, records, i);
      if error.Some? {
        FirstErrorStays(answers, isPublic, i + 1);
        return;
      }
      match a.data
      case Cname(target) =>
        var owner := a.owner.value;
        var known := if owner in edges then edges[owner] else {};
        EdgeAdded(edges, answers, i);
        edges := edges[owner := known + {target.value}];
      case Address(address) =>
        AddressKeepsEdges(edges, answers, i);
        records := records + [(a.owner.value, address.value)];
      case OtherType =>
    }
    assert answers[..|answers|] == answers;
    error := None;
  }

  lemma NothingCollected(answers: seq<Answer>, isPublic: Ipv4 -> bool)
    ensures FirstError(answers[..0], isPublic) == None && EdgesOf(map[], answers[..0])
    ensures forall names :: Picked([], names) == Owned(answers[..0], names)
  {
  }

  // One more answer: its error, and the address it adds to the records.
  lemma Advances(answers: seq<Answer>, isPublic: Ipv4 -> bool, records: seq<(Name, Ipv4)>, i: nat)
    requires i < |answers| && FirstError(answers[..i], isPublic) == None
    requires forall names :: Picked(records, names) == Owned(answers[..i], names)
    ensures FirstError(answers[..i + 1], isPublic) == AnswerError(answers[i], isPublic)
    ensures AnswerError(answers[i], isPublic) == None ==>
      var a := answers[i];
      && a.owner.Some? && (a.data.Cname? ==> a.data.target.Some?) && (a.data.Address? ==> a.data.address.Some?)
      && !a.data.OtherType? && (a.data.Address? ==> isPublic(a.data.address.value))
      && (a.data.Cname? ==> forall names :: Picked(records, names) == Owned(answers[..i + 1], names))
      && (a.data.Address? ==>
            forall names :: Picked(records + [(a.owner.value, a.data.address.value)], names)
                            == Owned(answers[..i + 1], names))
  {
    var a := answers[i];
    assert answers[..i + 1][..i] == answers[..i];
    if AnswerError(a, isPublic) == None && a.data.Address? {
      var record := (a.owner.value, a.data.address.value);
      assert (records + [record])[..|records|] == records;
    }
  }

  lemma {:induction false} FirstErrorStays(answers: seq<Answer>, isPublic: Ipv4 -> bool, i: nat)
    requires i <= |answers| && FirstError(answers[..i], isPublic).Some?
    ensures FirstError(answers, isPublic) == FirstError(answers[..i], isPublic)
    decreases |answers| - i
  {
    if i < |answers| {
      assert answers[..i + 1][..i] == answers[..i];
      FirstErrorStays(answers, isPublic, i + 1);
    } else {
      assert answers[..i] == answers;
    }
  }

  lemma EdgeAdded(edges: Edges, answers: seq<Answer>, i: nat)
    requires i < |answers| && EdgesOf(edges, answers[..i])
    requires answers[i].owner.Some? && answers[i].data.Cname? && answers[i].data.target.Some?
    ensures var owner := answers[i].owner.value;
      var known := if owner in edges then edges[owner] else {};
      EdgesOf(edges[owner := known + {answers[i].data.target.value}], answers[..i + 1])
  {
    var owner, target := answers[i].owner.value, answers[i].data.target.value;
    var edges' := edges[owner := (if owner in edges then edges[owner] else {}) + {target}];
    forall a, b | a in edges' && b in edges'[a]
      ensures Alias(answers[..i + 1], a, b)
    {
      if a in edges && b in edges[a] {
        AliasStays(answers, i, a, b);
      } else {
        assert answers[..i + 1][i].owner == Some(a) && answers[..i + 1][i].data == Cname(Some(b));
      }
    }
    forall j | 0 <= j < i + 1 && answers[j].owner.Some? && answers[j].data.Cname? && answers[j].data.target.Some?
      ensures answers[j].owner.value in edges' && answers[j].data.target.value in edges'[answers[j].owner.value]
    {
      if j < i {
        assert answers[..i][j] == answers[j];
      }
    }
  }

  lemma AliasStays(answers: seq<Answer>, i: nat, a: Name, b: Name)
    requires i < |answers| && Alias(answers[..i], a, b)
    ensures Alias(answers[..i + 1], a, b)
  {
    var j :| 0 <= j < i && answers[..i][j].owner == Some(a) && answers[..i][j].data == Cname(Some(b));
    assert answers[..i + 1][j] == answers[..i][j];
  }

  lemma AddressKeepsEdges(edges: Edges, answers: seq<Answer>, i: nat)
    requires i < |answers| && EdgesOf(edges, answers[..i]) && answers[i].data.Address?
    ensures EdgesOf(edges, answers[..i + 1])
  {
    forall a, b | a in edges && b in edges[a]
      ensures Alias(answers[..i + 1], a, b)
    {
      AliasStays(answers, i, a, b);
    }
    forall j | 0 <= j < i + 1 && answers[j].owner.Some? && answers[j].data.Cname? && answers[j].data.target.Some?
      ensures answers[j].owner.value in edges && answers[j].data.target.value in edges[answers[j].owner.value]
    {
      assert answers[..i][j] == answers[j];
    }
  }

  function Picked(records: seq<(Name, Ipv4)>, names: set<Name>): seq<Ipv4>
  {
    if records == [] then []
    else
      Picked(records[..|records| - 1], names) +
      (if records[|records| - 1].0 in names then [records[|records| - 1].1] else [])
  }

  // The distinct addresses whose owner is reachable, where they first occur.
  method Select(records: seq<(Name, Ipv4)>, reachable: set<Name>) returns (result: seq<Ipv4>)
    ensures result == FirstOccurrences(Picked(records, reachable))
  {
    result := [];
    var seen: set<Ipv4> := {};
    for i := 0 to |records|
      invariant result == FirstOccurrences(Picked(records[..i], reachable))
      invariant forall a :: a in seen <==> a in result
    {
      assert records[..i + 1][..i] == records[..i];
      var (owner, address) := records[i];
      ghost var before := Picked(records[..i], reachable);
      if owner in reachable {
        assert (before + [address])[..|before|] == before;
        assert Picked(records[..i + 1], reachable) == before + [address];
      } else {
        assert Picked(records[..i + 1], reachable) == before + [] == before;
      }
      if owner in reachable && address !in seen {
        seen := seen + {address};
        result := result + [address];
      }
    }
    assert records[..|records|] == records;
  }

  /** The whole parse. An answer with too many records or a bad one fails with the first error; otherwise the result is
      exactly the distinct addresses owned by names the host reaches through aliases, in first-occurrence order, all of
      them public. */
  method ParseAnswers(host: Name, answers: seq<Answer>, isPublic: Ipv4 -> bool) returns (r: Result)
    ensures |answers| > 64 ==> r == Failed(ResolutionFailed)
    ensures |answers| <= 64 ==> forall i :: FirstBad(answers, isPublic, i) ==>
      r == Failed(if OnlyPrivate(answers[i], isPublic) then NonPublicAddress else ResolutionFailed)
    ensures |answers| <= 64 && (forall i :: 0 <= i < |answers| ==> Good(answers[i], isPublic)) ==>
      && r.Addresses?
      && Distinct(r.addresses)
      && (forall a :: a in r.addresses <==> exists n :: Reachable(answers, host, n) && Owns(answers, n, a))
      && (forall i :: 0 <= i < |r.addresses| ==> isPublic(r.addresses[i]))
      && exists names: set<Name> :: (forall n :: n in names <==> Reachable(answers, host, n))
                                    && r.addresses == FirstOccurrences(Owned(answers, names))
  {
    if |answers| > DOH_MAX_ANSWERS {
      return Failed(ResolutionFailed);
    }
    var error, edges, records := Collect(answers, isPublic);
    FirstBadDecides(answers, isPublic);
    if error.Some? {
      return Failed(error.value);
    }
    var reachable := Expand(answers, edges, host);
    var addresses := Select(records, reachable);
    FirstOccurrencesMeaning(Owned(answers, reachable));
    OwnedMeaning(answers, reachable);
    PickedPublic(records, reachable, isPublic);
    r := Addresses(addresses);
    assert forall n :: n in reachable <==> Reachable(answers, host, n);
    assert Picked(records, reachable) == Owned(answers, reachable);
    forall i | 0 <= i < |addresses|
      ensures isPublic(addresses[i])
    {
      assert addresses[i] in Owned(answers, reachable);
      assert addresses[i] in Picked(records, reachable);
    }
  }

  lemma {:induction false} PickedPublic(records: seq<(Name, Ipv4)>, names: set<Name>, isPublic: Ipv4 -> bool)
    requires forall i :: 0 <= i < |records| ==> isPublic(records[i].1)
    ensures forall a :: a in Picked(records, names) ==> isPublic(a)
  {
    if records != [] {
      PickedPublic(records[..|records| - 1], names, isPublic);
    }
  }
}
