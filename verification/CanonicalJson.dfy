/** The canonical text of a JSON value (experiment.ts, `canonical`): two values have the same text exactly when they are
    equal up to the order of object keys. Numbers are integers that JavaScript holds and prints exactly. */
module CanonicalJson {
  import opened Options
  import opened JsonText

  type SafeInteger = n: int | -0x20_0000_0000_0000 < n < 0x20_0000_0000_0000

  datatype Json =
    | Null
    | Bool(b: bool)
    | Number(n: SafeInteger)
    | String(s: Text)
    | Array(items: seq<Json>)
    | Object(members: seq<Member>)  // in insertion order

  datatype Member = Member(key: Text, value: Json)

  predicate DistinctKeys(ms: seq<Member>)
  {
    forall i, j :: 0 <= i < j < |ms| ==> ms[i].key != ms[j].key
  }

  // Every object in the value has each key once.
  predicate WellFormed(v: Json)
  {
    match v
    case Array(items) => forall i :: 0 <= i < |items| ==> WellFormed(items[i])
    case Object(ms) => DistinctKeys(ms) && forall i :: 0 <= i < |ms| ==> WellFormed(ms[i].value)
    case _ => true
  }

  // Equal up to the order of object keys.
  ghost predicate Same(a: Json, b: Json)
    decreases a
  {
    match (a, b)
    case (Array(xs), Array(ys)) => |xs| == |ys| && forall i :: 0 <= i < |xs| ==> Same(xs[i], ys[i])
    case (Object(ms), Object(ns)) =>
      |ms| == |ns| && forall i :: 0 <= i < |ms| ==> Paired(ms[i], ns)
    case _ => a == b
  }

  // The list has a member of this key with the same value.
  ghost predicate Paired(m: Member, ns: seq<Member>)
    decreases m
  {
    exists j :: 0 <= j < |ns| && m.key == ns[j].key && Same(m.value, ns[j].value)
  }

  // ---- Sorting by key, in UTF-16 code unit order ----

  predicate Less(a: Text, b: Text)
  {
    b != [] && (a == [] || a[0] < b[0] || (a[0] == b[0] && Less(a[1..], b[1..])))
  }

  /** The order is that of code units: the first differing unit decides, and a proper prefix comes first. */
  lemma {:induction false} FirstDifferenceDecides(p: Text, x: Unit, y: Unit, a: Text, b: Text)
    ensures Less(p + [x] + a, p + [y] + b) <==> x < y || (x == y && Less(a, b))
    ensures Less(p, p + [x] + a) && !Less(p + [x] + a, p)
  {
    var s, t := p + [x] + a, p + [y] + b;
    if p == [] {
      assert s == [x] + a && t == [y] + b && s[1..] == a && t[1..] == b;
    } else {
      FirstDifferenceDecides(p[1..], x, y, a, b);
      assert s[1..] == p[1..] + [x] + a && t[1..] == p[1..] + [y] + b;
    }
  }

  lemma {:induction false} LessIsOrder(a: Text, b: Text, c: Text)
    ensures !Less(a, a) && (Less(a, b) || a == b || Less(b, a)) && (Less(a, b) && Less(b, c) ==> Less(a, c))
    ensures !(Less(a, b) && Less(b, a))
  {
    if a != [] && b != [] {
      LessIsOrder(a[1..], b[1..], if c == [] then [] else c[1..]);
      assert a[0] == b[0] && a[1..] == b[1..] ==> a == [a[0]] + a[1..] == [b[0]] + b[1..] == b;
    } else if a != [] {
      LessIsOrder(a[1..], [], []);
    }
  }

  predicate Sorted(ms: seq<Member>)
  {
    forall i, j :: 0 <= i < j < |ms| ==> Less(ms[i].key, ms[j].key)
  }

  function Insert(m: Member, ms: seq<Member>): seq<Member>
  {
    if ms == [] then [m] else if Less(m.key, ms[0].key) then [m] + ms else [ms[0]] + Insert(m, ms[1..])
  }

  function Sort(ms: seq<Member>): (r: seq<Member>)
    ensures multiset(r) == multiset(ms)
  {
    if ms == [] then []
    else
      InsertKeeps(ms[0], Sort(ms[1..]));
      assert ms == [ms[0]] + ms[1..];
      Insert(ms[0], Sort(ms[1..]))
  }

  lemma {:induction false} InsertKeeps(m: Member, ms: seq<Member>)
    ensures multiset(Insert(m, ms)) == multiset{m} + multiset(ms)
  {
    if ms != [] && !Less(m.key, ms[0].key) {
      InsertKeeps(m, ms[1..]);
      assert ms == [ms[0]] + ms[1..];
    }
  }

  lemma SmallestFirst(m: Member, ms: seq<Member>)
    requires Sorted(ms) && forall x :: x in multiset(ms) ==> Less(m.key, x.key)
    ensures Sorted([m] + ms)
  {
    hide Less;
    var all := [m] + ms;
    forall i, j | 0 <= i < j < |all|
      ensures Less(all[i].key, all[j].key)
    {
      assert all[j] == ms[j - 1] && ms[j - 1] in multiset(ms);
      assert i > 0 ==> all[i] == ms[i - 1];
    }
  }

  lemma TailSorted(ms: seq<Member>)
    requires Sorted(ms) && ms != []
    ensures Sorted(ms[1..]) && forall x :: x in multiset(ms[1..]) ==> Less(ms[0].key, x.key)
  {
    hide Less;
  }

  lemma {:induction false} InsertSorts(m: Member, ms: seq<Member>)
    requires Sorted(ms) && forall x :: x in multiset(ms) ==> x.key != m.key
    ensures Sorted(Insert(m, ms))
  {
    hide Less, Sorted;
    if ms == [] {
      SortedOne(m);
    } else {
      var first, rest := ms[0], ms[1..];
      assert ms == [first] + rest && first in multiset(ms);
      TailSorted(ms);
      LessIsOrder(m.key, first.key, first.key);
      if Less(m.key, first.key) {
        forall x | x in multiset(ms)
          ensures Less(m.key, x.key)
        {
          LessIsOrder(m.key, first.key, x.key);
        }
        SmallestFirst(m, ms);
      } else {
        InsertSorts(m, rest);
        InsertKeeps(m, rest);
        SmallestFirst(first, Insert(m, rest));
      }
    }
  }

  lemma SortedOne(m: Member)
    ensures Sorted([m])
  {
  }

  lemma {:induction false} SortSorts(ms: seq<Member>)
    requires DistinctKeys(ms)
    ensures Sorted(Sort(ms))
  {
    if ms != [] {
      SortSorts(ms[1..]);
      forall x | x in multiset(Sort(ms[1..]))
        ensures x.key != ms[0].key
      {
        assert x in multiset(ms[1..]);
      }
      InsertSorts(ms[0], Sort(ms[1..]));
    }
  }

  // ---- Printing ----

  const COMMA: Unit := 0x2C
  const COLON: Unit := 0x3A
  const OPEN_LIST: Unit := 0x5B
  const CLOSE_LIST: Unit := 0x5D
  const OPEN_OBJECT: Unit := 0x7B
  const CLOSE_OBJECT: Unit := 0x7D
  const NULL_TEXT: Text := [0x6E, 0x75, 0x6C, 0x6C]
  const TRUE_TEXT: Text := [0x74, 0x72, 0x75, 0x65]
  const FALSE_TEXT: Text := [0x66, 0x61, 0x6C, 0x73, 0x65]

  // What is printed between the brackets, in order: values of a list, or keys with values, sorted.
  datatype Entry = Entry(name: Option<Text>, value: Json)

  function Entries(v: Json): seq<Entry>
  {
    match v
    case Array(items) => seq(|items|, i requires 0 <= i < |items| => Entry(None, items[i]))
    case Object(ms) =>
      var sorted := Sort(ms);
      seq(|sorted|, i requires 0 <= i < |sorted| => Entry(Some(sorted[i].key), sorted[i].value))
    case _ => []
  }

  lemma EntrySmaller(v: Json, i: nat)
    requires i < |Entries(v)|
    ensures Entries(v)[i].value < v
  {
    if v.Object? {
      var sorted := Sort(v.members);
      assert sorted[i] in multiset(sorted);
      var j :| 0 <= j < |v.members| && v.members[j] == sorted[i];
    }
  }

  function LabelText(name: Option<Text>): Text
  {
    if name.Some? then Quoted(name.value) + [COLON] else []
  }

  function Join(parts: seq<Text>): Text
  {
    if parts == [] then [] else if |parts| == 1 then parts[0] else parts[0] + [COMMA] + Join(parts[1..])
  }

  function Part(v: Json, i: nat): Text
    requires i < |Entries(v)|
    decreases v, 0
  {
    EntrySmaller(v, i);
    LabelText(Entries(v)[i].name) + Canonical(Entries(v)[i].value)
  }

  function Parts(v: Json): seq<Text>
    decreases v, 1
  {
    seq(|Entries(v)|, i requires 0 <= i < |Entries(v)| => Part(v, i))
  }

  function Canonical(v: Json): Text
    decreases v, 2
  {
    match v
    case Null => NULL_TEXT
    case Bool(b) => if b then TRUE_TEXT else FALSE_TEXT
    case Number(n) => Decimal(n)
    case String(s) => Quoted(s)
    case Array(_) => [OPEN_LIST] + Join(Parts(v)) + [CLOSE_LIST]
    case Object(_) => [OPEN_OBJECT] + Join(Parts(v)) + [CLOSE_OBJECT]
  }

  // ---- Reading back ----

  // What may follow a value inside a list or an object, or after the whole text.
  predicate Ends(r: Text)
  {
    r == [] || r[0] in {COMMA, CLOSE_LIST, CLOSE_OBJECT}
  }

  datatype Kind = KNull | KTrue | KFalse | KNumber | KString | KArray | KObject

  function KindOf(v: Json): Kind
  {
    match v
    case Null => KNull
    case Bool(b) => if b then KTrue else KFalse
    case Number(_) => KNumber
    case String(_) => KString
    case Array(_) => KArray
    case Object(_) => KObject
  }

  function KindFromFirst(c: Unit): Kind
  {
    if c == 0x6E then KNull else if c == 0x74 then KTrue else if c == 0x66 then KFalse
    else if c == QUOTE then KString else if c == OPEN_LIST then KArray else if c == OPEN_OBJECT then KObject
    else KNumber
  }

  // The first unit gives the kind away, and is never one that ends something.
  lemma FirstUnit(v: Json, r: Text)
    ensures Canonical(v) != [] && KindFromFirst(Canonical(v)[0]) == KindOf(v)
    ensures Canonical(v)[0] !in {COMMA, COLON, CLOSE_LIST, CLOSE_OBJECT}
    ensures (Canonical(v) + r)[0] == Canonical(v)[0]
  {
    hide Decimal, Escaped, Join;
  }

  function CloseOf(v: Json): Unit
  {
    if v.Array? then CLOSE_LIST else CLOSE_OBJECT
  }

  // What follows the first `i` entries of a list or object, with the rest `r` of the text.
  function From(v: Json, i: nat, r: Text): Text
    requires i <= |Entries(v)|
  {
    Join(Parts(v)[i..]) + [CloseOf(v)] + r
  }

  function AfterEntry(v: Json, i: nat, r: Text): (t: Text)
    requires i < |Entries(v)|
    ensures Ends(t) && t != []
  {
    if i + 1 == |Entries(v)| then [CloseOf(v)] + r else [COMMA] + From(v, i + 1, r)
  }

  lemma JoinHead(parts: seq<Text>, close: Text, r: Text)
    requires parts != []
    ensures Join(parts) + close + r
      == parts[0] + (if |parts| == 1 then close + r else [COMMA] + (Join(parts[1..]) + close + r))
  {
    if |parts| == 1 {
      Regroup(parts[0], close, r);
    } else {
      RegroupFive(parts[0], [COMMA], Join(parts[1..]), close, r);
    }
  }

  lemma RegroupFive(a: Text, b: Text, c: Text, d: Text, e: Text)
    ensures a + b + c + d + e == a + (b + (c + d + e))
  {
  }

  lemma FromSplits(v: Json, i: nat, r: Text)
    requires i < |Entries(v)|
    ensures var e := Entries(v)[i];
      From(v, i, r) == LabelText(e.name) + (Canonical(e.value) + AfterEntry(v, i, r))
  {
    var parts := Parts(v)[i..];
    assert parts[0] == Part(v, i) && parts[1..] == Parts(v)[i + 1..] && |parts| == |Entries(v)| - i;
    hide Canonical, Entries, LabelText, Parts, Join;
    JoinHead(parts, [CloseOf(v)], r);
    var e := Entries(v)[i];
    Regroup(LabelText(e.name), Canonical(e.value), AfterEntry(v, i, r));
  }

  lemma Regroup(a: Text, b: Text, c: Text)
    ensures a + b + c == a + (b + c)
  {
  }

  lemma FromEmpty(v: Json, r: Text)
    ensures From(v, |Entries(v)|, r) == [CloseOf(v)] + r
  {
    assert Parts(v)[|Entries(v)|..] == [];
  }

  // Nothing is left exactly when a closing bracket comes first.
  lemma FromFirst(v: Json, i: nat, r: Text)
    requires i <= |Entries(v)|
    ensures From(v, i, r) != [] && (From(v, i, r)[0] in {CLOSE_LIST, CLOSE_OBJECT} <==> i == |Entries(v)|)
  {
    if i == |Entries(v)| {
      FromEmpty(v, r);
    } else {
      FromSplits(v, i, r);
      var e := Entries(v)[i];
      FirstUnit(e.value, AfterEntry(v, i, r));
    }
  }

  // Two lists of entries are the same from the `i`th on.
  ghost predicate SameFrom(es: seq<Entry>, fs: seq<Entry>, i: nat)
  {
    |es| == |fs| && forall k :: i <= k < |es| ==> es[k].name == fs[k].name && Same(es[k].value, fs[k].value)
  }

  ghost predicate SameEntries(es: seq<Entry>, fs: seq<Entry>)
  {
    SameFrom(es, fs, 0)
  }

  // The name of an entry is read back; names are all present or all absent.
  lemma NameReadable(m: Option<Text>, n: Option<Text>, r: Text, s: Text)
    requires LabelText(m) + r == LabelText(n) + s && (m.Some? <==> n.Some?)
    ensures m == n && r == s
  {
    hide Quoted;
    if m.Some? {
      var a, b := Quoted(m.value), Quoted(n.value);
      assert a + [COLON] + r == a + ([COLON] + r) && b + [COLON] + s == b + ([COLON] + s);
      QuotedReadable(m.value, n.value, [COLON] + r, [COLON] + s);
      assert ([COLON] + r)[1..] == r && ([COLON] + s)[1..] == s;
    } else {
      assert [] + r == r && [] + s == s;
    }
  }

  lemma AfterEntriesReadable(a: Json, b: Json, i: nat, r: Text, s: Text)
    requires i < |Entries(a)| && i < |Entries(b)| && CloseOf(a) == CloseOf(b)
    requires AfterEntry(a, i, r) == AfterEntry(b, i, s)
    ensures i + 1 == |Entries(a)| <==> i + 1 == |Entries(b)|
    ensures i + 1 == |Entries(a)| ==> r == s
    ensures i + 1 < |Entries(a)| ==> From(a, i + 1, r) == From(b, i + 1, s)
  {
    hide From;
    assert i + 1 == |Entries(a)| <==> AfterEntry(a, i, r)[0] != COMMA;
    assert i + 1 == |Entries(b)| <==> AfterEntry(b, i, s)[0] != COMMA;
    if i + 1 == |Entries(a)| {
      assert ([CloseOf(a)] + r)[1..] == r && ([CloseOf(b)] + s)[1..] == s;
    } else {
      assert ([COMMA] + From(a, i + 1, r))[1..] == From(a, i + 1, r);
      assert ([COMMA] + From(b, i + 1, s))[1..] == From(b, i + 1, s);
    }
  }

  predicate Bracketed(a: Json)
  {
    a.Array? || a.Object?
  }

  lemma SameFromHere(es: seq<Entry>, fs: seq<Entry>, i: nat)
    requires i < |es| && i < |fs| && es[i].name == fs[i].name && Same(es[i].value, fs[i].value)
    requires i + 1 < |es| ==> SameFrom(es, fs, i + 1)
    requires i + 1 == |es| <==> i + 1 == |fs|
    ensures SameFrom(es, fs, i)
  {
    hide Same;
  }

  lemma SameFromEnd(es: seq<Entry>, fs: seq<Entry>)
    requires |es| == |fs|
    ensures SameFrom(es, fs, |es|)
  {
  }

  lemma {:induction false} EntriesReadable(a: Json, b: Json, i: nat, r: Text, s: Text)
    requires KindOf(a) == KindOf(b) && Bracketed(a) && i <= |Entries(a)| && i <= |Entries(b)|
    requires From(a, i, r) == From(b, i, s)
    ensures SameFrom(Entries(a), Entries(b), i) && r == s
    decreases a, 0, |Entries(a)| - i, 1
  {
    SameClose(a, b);
    hide *;
    FromFirst(a, i, r);
    FromFirst(b, i, s);
    if i == |Entries(a)| {
      EmptyReadable(a, b, r, s);
      SameFromEnd(Entries(a), Entries(b));
    } else {
      EntryReadable(a, b, i, r, s);
      AfterEntriesReadable(a, b, i, r, s);
      if i + 1 < |Entries(a)| {
        EntriesReadable(a, b, i + 1, r, s);
      }
      SameFromHere(Entries(a), Entries(b), i);
    }
  }

  lemma SameClose(a: Json, b: Json)
    requires KindOf(a) == KindOf(b)
    ensures CloseOf(a) == CloseOf(b) && (a.Object? <==> b.Object?)
  {
  }

  lemma EmptyReadable(a: Json, b: Json, r: Text, s: Text)
    requires CloseOf(a) == CloseOf(b) && From(a, |Entries(a)|, r) == From(b, |Entries(b)|, s)
    ensures r == s
  {
    FromEmpty(a, r);
    FromEmpty(b, s);
    assert ([CloseOf(a)] + r)[1..] == r && ([CloseOf(b)] + s)[1..] == s;
  }

  lemma {:induction false} EntryReadable(a: Json, b: Json, i: nat, r: Text, s: Text)
    requires KindOf(a) == KindOf(b) && Bracketed(a) && i < |Entries(a)| && i < |Entries(b)|
    requires From(a, i, r) == From(b, i, s)
    ensures AfterEntry(a, i, r) == AfterEntry(b, i, s)
    ensures Entries(a)[i].name == Entries(b)[i].name && Same(Entries(a)[i].value, Entries(b)[i].value)
    decreases a, 0, |Entries(a)| - i, 0
  {
    SameClose(a, b);
    hide *;
    EntrySmaller(a, i);
    var e, f := Entries(a)[i], Entries(b)[i];
    var after, after' := AfterEntry(a, i, r), AfterEntry(b, i, s);
    FromSplits(a, i, r);
    FromSplits(b, i, s);
    NamesByKind(a, i);
    NamesByKind(b, i);
    NameReadable(e.name, f.name, Canonical(e.value) + after, Canonical(f.value) + after');
    Readable(e.value, f.value, after, after');
  }

  lemma NamesByKind(v: Json, i: nat)
    requires i < |Entries(v)|
    ensures Entries(v)[i].name.Some? <==> v.Object?
  {
  }

  lemma BracketedText(v: Json, r: Text)
    requires Bracketed(v)
    ensures Canonical(v) + r != [] && (Canonical(v) + r)[1..] == From(v, 0, r)
  {
    hide Parts, Join;
    assert Parts(v)[0..] == Parts(v);
  }

  lemma EndsNoDigit(r: Text)
    requires Ends(r)
    ensures NoDigitFirst(r)
  {
  }

  /** Unique readability: texts that agree, and start with the canonical texts of two values followed by something that
      ends a value, start with the same value and go on alike. */
  lemma {:induction false} Readable(a: Json, b: Json, r: Text, s: Text)
    requires Canonical(a) + r == Canonical(b) + s && Ends(r) && Ends(s)
    ensures Same(a, b) && r == s
    decreases a, 1, 0, 0
  {
    FirstUnit(a, r);
    FirstUnit(b, s);
    assert KindOf(a) == KindOf(b);
    hide Entries, Parts, From, KindFromFirst;
    match a
    case Number(n) =>
      EndsNoDigit(r);
      EndsNoDigit(s);
      DecimalReadable(n, b.n, r, s);
    case String(u) => QuotedReadable(u, b.s, r, s);
    case Array(_) => BracketedReadable(a, b, r, s);
    case Object(_) => BracketedReadable(a, b, r, s);
    case _ =>
      assert a == b;
      SameHeads(Canonical(a), r, Canonical(b), s);
  }

  lemma {:induction false} BracketedReadable(a: Json, b: Json, r: Text, s: Text)
    requires KindOf(a) == KindOf(b) && Bracketed(a) && Canonical(a) + r == Canonical(b) + s
    ensures Same(a, b) && r == s
    decreases a, 0, |Entries(a)| + 1, 0
  {
    hide Canonical, From, Same, Entries;
    BracketedText(a, r);
    BracketedText(b, s);
    EntriesReadable(a, b, 0, r, s);
    assert SameEntries(Entries(a), Entries(b));
    SameFromEntries(a, b);
  }

  // Pairs in sorted order are pairs by key.
  lemma SameFromEntries(a: Json, b: Json)
    requires KindOf(a) == KindOf(b) && Bracketed(a) && SameEntries(Entries(a), Entries(b))
    ensures Same(a, b)
  {
    if a.Array? {
      ItemsFromEntries(a.items, b.items);
    } else {
      MembersFromEntries(a, b);
    }
  }

  lemma MembersFromEntries(a: Json, b: Json)
    requires a.Object? && b.Object? && SameEntries(Entries(a), Entries(b))
    ensures Same(a, b)
  {
    SortLength(a.members);
    SortLength(b.members);
    assert |a.members| == |b.members|;
    hide Sort, Entries, Same, Paired;
    forall i | 0 <= i < |a.members|
      ensures Paired(a.members[i], b.members)
    {
      PairedFromEntries(a.members, b.members, i);
    }
    SameWhenPaired(a, b);
  }

  lemma SameWhenPaired(a: Json, b: Json)
    requires a.Object? && b.Object? && |a.members| == |b.members|
    requires forall i :: 0 <= i < |a.members| ==> Paired(a.members[i], b.members)
    ensures Same(a, b)
  {
  }

  lemma ItemsFromEntries(xs: seq<Json>, ys: seq<Json>)
    requires SameEntries(Entries(Array(xs)), Entries(Array(ys)))
    ensures Same(Array(xs), Array(ys))
  {
    forall i | 0 <= i < |xs|
      ensures Same(xs[i], ys[i])
    {
      assert Entries(Array(xs))[i].value == xs[i] && Entries(Array(ys))[i].value == ys[i];
    }
  }

  lemma PairedFromEntries(ms: seq<Member>, ns: seq<Member>, i: nat)
    requires SameEntries(Entries(Object(ms)), Entries(Object(ns))) && i < |ms|
    ensures Paired(ms[i], ns)
  {
    var k := InSorted(ms, ms[i]);
    EntryOf(ms, k);
    SortLength(ms);
    SortLength(ns);
    assert |Entries(Object(ns))| == |Sort(ns)|;
    EntryOf(ns, k);
    hide Sort, Entries, Same;
    assert Entries(Object(ms))[k].name == Entries(Object(ns))[k].name;
    var j := FromSorted(ns, k);
  }

  lemma EntryOf(ms: seq<Member>, k: nat)
    requires k < |Sort(ms)|
    ensures Entries(Object(ms))[k] == Entry(Some(Sort(ms)[k].key), Sort(ms)[k].value)
    ensures |Entries(Object(ms))| == |Sort(ms)|
  {
  }

  lemma SortLength(ms: seq<Member>)
    ensures |Sort(ms)| == |ms|
  {
    assert |multiset(Sort(ms))| == |multiset(ms)|;
  }

  lemma InSorted(ms: seq<Member>, m: Member) returns (k: nat)
    requires m in ms
    ensures k < |Sort(ms)| && Sort(ms)[k] == m
  {
    assert m in multiset(ms);
    assert m in multiset(Sort(ms));
    k :| 0 <= k < |Sort(ms)| && Sort(ms)[k] == m;
  }

  lemma FromSorted(ms: seq<Member>, k: nat) returns (j: nat)
    requires k < |Sort(ms)|
    ensures j < |ms| && ms[j] == Sort(ms)[k]
  {
    assert Sort(ms)[k] in multiset(Sort(ms));
    assert Sort(ms)[k] in multiset(ms);
    j :| 0 <= j < |ms| && ms[j] == Sort(ms)[k];
  }

  // ---- Equal values are printed alike ----

  ghost function Keys(ms: seq<Member>): set<Text>
  {
    set m | m in ms :: m.key
  }

  lemma {:induction false} KeyCount(ms: seq<Member>)
    requires DistinctKeys(ms)
    ensures |Keys(ms)| == |ms|
  {
    if ms != [] {
      var rest := ms[1..];
      KeyCount(rest);
      FirstKey(ms);
      assert ms[0].key !in Keys(rest);
    }
  }

  lemma FirstKey(ms: seq<Member>)
    requires ms != []
    ensures Keys(ms) == {ms[0].key} + Keys(ms[1..])
  {
    assert forall m :: m in ms <==> m == ms[0] || m in ms[1..];
    assert forall m :: m in ms ==> m.key in Keys(ms);
    assert forall m :: m in ms[1..] ==> m.key in Keys(ms[1..]);
  }

  lemma SubsetSameSize(a: set<Text>, b: set<Text>)
    requires a <= b && |a| == |b|
    ensures a == b
  {
    assert b == a + (b - a);
    assert |b| == |a| + |b - a|;
  }

  // Sorted lists with the same keys have the same keys in the same places.
  lemma {:induction false} SortedKeysAgree(ms: seq<Member>, ns: seq<Member>)
    requires Sorted(ms) && Sorted(ns) && Keys(ms) == Keys(ns)
    ensures |ms| == |ns| && forall i :: 0 <= i < |ms| ==> ms[i].key == ns[i].key
  {
    hide Less, Sorted;
    if ms == [] || ns == [] {
      assert ms != [] ==> ms[0].key in Keys(ms);
      assert ns != [] ==> ns[0].key in Keys(ns);
    } else {
      var x, y := ms[0], ns[0];
      assert ms == [x] + ms[1..] && ns == [y] + ns[1..];
      TailSorted(ms);
      TailSorted(ns);
      assert x.key in Keys(ms) && y.key in Keys(ns);
      LessIsOrder(x.key, y.key, x.key);
      assert x.key == y.key;
      TailKeys(ms);
      TailKeys(ns);
      SortedKeysAgree(ms[1..], ns[1..]);
    }
  }

  lemma TailKeys(ms: seq<Member>)
    requires Sorted(ms) && ms != []
    ensures Keys(ms[1..]) == Keys(ms) - {ms[0].key}
  {
    TailSorted(ms);
    hide Less, Sorted;
    assert ms == [ms[0]] + ms[1..];
    LessIsOrder(ms[0].key, ms[0].key, ms[0].key);
    assert forall m :: m in ms[1..] ==> m in multiset(ms[1..]);
  }

  lemma SortKeepsKeys(ms: seq<Member>)
    ensures Keys(Sort(ms)) == Keys(ms)
  {
    hide Sort;
    assert forall m :: m in Sort(ms) <==> m in multiset(Sort(ms));
    assert forall m :: m in ms <==> m in multiset(ms);
  }

  lemma KeysOfSame(ms: seq<Member>, ns: seq<Member>)
    requires DistinctKeys(ms) && DistinctKeys(ns) && AllPaired(ms, ns)
    ensures Keys(ms) == Keys(ns)
  {
    forall k | k in Keys(ms)
      ensures k in Keys(ns)
    {
      var m :| m in ms && m.key == k;
      var i :| 0 <= i < |ms| && ms[i] == m;
      var j :| 0 <= j < |ns| && m.key == ns[j].key && Same(m.value, ns[j].value);
      assert ns[j] in ns;
    }
    KeyCount(ms);
    KeyCount(ns);
    SubsetSameSize(Keys(ms), Keys(ns));
  }

  ghost predicate AllPaired(ms: seq<Member>, ns: seq<Member>)
  {
    |ms| == |ns| && forall i :: 0 <= i < |ms| ==> Paired(ms[i], ns)
  }

  lemma KeysLineUp(ms: seq<Member>, ns: seq<Member>)
    requires DistinctKeys(ms) && DistinctKeys(ns) && AllPaired(ms, ns)
    ensures |Sort(ms)| == |Sort(ns)| && forall k :: 0 <= k < |Sort(ms)| ==> Sort(ms)[k].key == Sort(ns)[k].key
  {
    KeysOfSame(ms, ns);
    hide *;
    SortKeepsKeys(ms);
    SortKeepsKeys(ns);
    SortSorts(ms);
    SortSorts(ns);
    SortedKeysAgree(Sort(ms), Sort(ns));
  }

  lemma ValueLinesUp(ms: seq<Member>, ns: seq<Member>, k: nat)
    requires DistinctKeys(ns) && AllPaired(ms, ns)
    requires k < |Sort(ms)| && k < |Sort(ns)| && Sort(ms)[k].key == Sort(ns)[k].key
    ensures Same(Sort(ms)[k].value, Sort(ns)[k].value)
  {
    hide Sort, Same;
    var i := FromSorted(ms, k);
    assert Paired(ms[i], ns);
    var j :| 0 <= j < |ns| && ms[i].key == ns[j].key && Same(ms[i].value, ns[j].value);
    var j' := FromSorted(ns, k);
    assert j == j';
  }

  // Equal objects, entry by entry in sorted order.
  lemma EntriesOfSame(a: Json, b: Json)
    requires a.Object? && b.Object? && WellFormed(a) && WellFormed(b) && Same(a, b)
    ensures SameEntries(Entries(a), Entries(b))
  {
    var ms, ns := a.members, b.members;
    assert AllPaired(ms, ns);
    assert DistinctKeys(ms) && DistinctKeys(ns);
    hide Sort, Same, WellFormed, AllPaired, DistinctKeys;
    KeysLineUp(ms, ns);
    forall k | 0 <= k < |Sort(ms)|
      ensures Same(Sort(ms)[k].value, Sort(ns)[k].value)
    {
      ValueLinesUp(ms, ns, k);
    }
  }

  lemma EntriesWellFormed(v: Json)
    requires WellFormed(v)
    ensures forall i :: 0 <= i < |Entries(v)| ==> WellFormed(Entries(v)[i].value)
  {
    hide Sort;
    if v.Object? {
      forall i | 0 <= i < |Sort(v.members)|
        ensures WellFormed(Entries(v)[i].value)
      {
        EntryOf(v.members, i);
        var j := FromSorted(v.members, i);
      }
    }
  }

  lemma {:induction false} SamePrintsAlike(a: Json, b: Json)
    requires WellFormed(a) && WellFormed(b) && Same(a, b)
    ensures Canonical(a) == Canonical(b)
    decreases a
  {
    if Bracketed(a) {
      BracketedOfSame(a, b);
      EntriesWellFormed(a);
      EntriesWellFormed(b);
      hide *;
      forall i | 0 <= i < |Entries(a)|
        ensures Canonical(Entries(a)[i].value) == Canonical(Entries(b)[i].value)
      {
        EntrySmaller(a, i);
        SamePrintsAlike(Entries(a)[i].value, Entries(b)[i].value);
      }
      BracketedPrintAlike(a, b);
    }
  }

  lemma BracketedOfSame(a: Json, b: Json)
    requires Bracketed(a) && WellFormed(a) && WellFormed(b) && Same(a, b)
    ensures KindOf(a) == KindOf(b) && |Entries(a)| == |Entries(b)|
    ensures forall i :: 0 <= i < |Entries(a)| ==>
      Entries(a)[i].name == Entries(b)[i].name && Same(Entries(a)[i].value, Entries(b)[i].value)
  {
    if a.Object? {
      EntriesOfSame(a, b);
      hide Same, Entries, WellFormed;
    }
  }

  lemma BracketedPrintAlike(a: Json, b: Json)
    requires Bracketed(a) && KindOf(a) == KindOf(b) && |Entries(a)| == |Entries(b)|
    requires forall i :: 0 <= i < |Entries(a)| ==>
      && Entries(a)[i].name == Entries(b)[i].name
      && Canonical(Entries(a)[i].value) == Canonical(Entries(b)[i].value)
    ensures Canonical(a) == Canonical(b)
  {
    hide Entries, LabelText, Join;
    assert Parts(a) == Parts(b);
  }

  /** The canonical text is faithful: it is the same for two values exactly when they are equal up to the order of object
      keys. So equal text before hashing means an equal specification, and reordering keys never changes the hash. */
  lemma CanonicalIsFaithful(a: Json, b: Json)
    requires WellFormed(a) && WellFormed(b)
    ensures Canonical(a) == Canonical(b) <==> Same(a, b)
  {
    if Canonical(a) == Canonical(b) {
      assert Canonical(a) + [] == Canonical(b) + [];
      Readable(a, b, [], []);
    }
    if Same(a, b) {
      SamePrintsAlike(a, b);
    }
  }
}
