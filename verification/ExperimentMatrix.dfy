/** The cells of an experiment (experiment.ts, `expandExperiment`): one for each subject, scenario and repetition, the
    subjects in reverse order in every second repetition. */
module ExperimentMatrix {
  import opened Options
  import opened JsonText
  import opened CanonicalJson

  type Digest = string

  datatype Spec = Spec(schemaVersion: SafeInteger, id: Text, subjects: seq<Text>, scenarios: seq<Text>,
                       repetitions: SafeInteger, config: Json)

  datatype Cell = Cell(id: Digest, subject: Text, scenario: Text, repetition: SafeInteger)

  // SHA-256 of the canonical text is a parameter; what is proved of identities assumes that it has no collisions.
  ghost predicate Injective(hash: Text -> Digest)
  {
    forall a, b :: hash(a) == hash(b) ==> a == b
  }

  function CellKey(subject: Text, scenario: Text, repetition: SafeInteger): Json
  {
    Array([String(subject), String(scenario), Number(repetition)])
  }

  function MakeCell(hash: Text -> Digest, subject: Text, scenario: Text, repetition: SafeInteger): Cell
  {
    Cell(hash(Canonical(CellKey(subject, scenario, repetition))), subject, scenario, repetition)
  }

  predicate ValidIds(ids: seq<Text>)
  {
    ids != [] && [] !in ids && forall i, j :: 0 <= i < j < |ids| ==> ids[i] != ids[j]
  }

  predicate ValidSpec(spec: Spec)
  {
    spec.schemaVersion == 1 && spec.id != [] && spec.repetitions >= 1 && ValidIds(spec.subjects)
    && ValidIds(spec.scenarios)
  }

  function Reverse(s: seq<Text>): seq<Text>
  {
    if s == [] then [] else Reverse(s[1..]) + [s[0]]
  }

  // The subjects in the order they take in a repetition.
  function Order(spec: Spec, repetition: SafeInteger): seq<Text>
  {
    if repetition % 2 != 0 then spec.subjects else Reverse(spec.subjects)
  }

  // One scenario of one repetition, then all scenarios of it, then all repetitions.
  function Line(hash: Text -> Digest, subjects: seq<Text>, scenario: Text, repetition: SafeInteger): seq<Cell>
  {
    if subjects == [] then []
    else [MakeCell(hash, subjects[0], scenario, repetition)] + Line(hash, subjects[1..], scenario, repetition)
  }

  function Sheet(hash: Text -> Digest, subjects: seq<Text>, scenarios: seq<Text>, repetition: SafeInteger): seq<Cell>
  {
    if scenarios == [] then []
    else Line(hash, subjects, scenarios[0], repetition) + Sheet(hash, subjects, scenarios[1..], repetition)
  }

  function Matrix(hash: Text -> Digest, spec: Spec, repetitions: SafeInteger): seq<Cell>
    requires repetitions >= 0
    decreases repetitions
  {
    if repetitions == 0 then []
    else
      Matrix(hash, spec, repetitions - 1) +
      Sheet(hash, Order(spec, repetitions), spec.scenarios, repetitions)
  }

  function Expand(hash: Text -> Digest, spec: Spec): Option<seq<Cell>>
  {
    if ValidSpec(spec) then Some(Matrix(hash, spec, spec.repetitions)) else None
  }

  // ---- Every cell exactly once ----

  predicate NoRepeats<T(==)>(s: seq<T>)
  {
    forall i, j :: 0 <= i < j < |s| ==> s[i] != s[j]
  }

  lemma NothingRepeats<T>()
    ensures NoRepeats<T>([])
  {
  }

  lemma JoinNoRepeats<T>(a: seq<T>, b: seq<T>)
    requires NoRepeats(a) && NoRepeats(b) && forall x :: x in a ==> x !in b
    ensures NoRepeats(a + b)
  {
    var s := a + b;
    forall i, j | 0 <= i < j < |s|
      ensures s[i] != s[j]
    {
      assert s[i] == if i < |a| then a[i] else b[i - |a|];
      assert s[j] == if j < |a| then a[j] else b[j - |a|];
      if i < |a| <= j {
        assert s[i] in a && s[j] in b;
      }
    }
  }

  lemma {:induction false} ReverseSameIds(s: seq<Text>)
    requires NoRepeats(s)
    ensures NoRepeats(Reverse(s)) && |Reverse(s)| == |s| && forall x :: x in Reverse(s) <==> x in s
  {
    if s != [] {
      ReverseSameIds(s[1..]);
      assert s == [s[0]] + s[1..];
      JoinNoRepeats(Reverse(s[1..]), [s[0]]);
    }
  }

  lemma {:induction false} LineCells(hash: Text -> Digest, subjects: seq<Text>, scenario: Text, repetition: SafeInteger)
    requires NoRepeats(subjects)
    ensures var l := Line(hash, subjects, scenario, repetition);
      && NoRepeats(l) && |l| == |subjects|
      && forall c :: c in l <==> c.subject in subjects && c == MakeCell(hash, c.subject, scenario, repetition)
  {
    hide MakeCell;
    if subjects != [] {
      var first, rest := subjects[0], subjects[1..];
      assert subjects == [first] + rest;
      CellFields(hash, first, scenario, repetition);
      LineCells(hash, rest, scenario, repetition);
      JoinNoRepeats([MakeCell(hash, first, scenario, repetition)], Line(hash, rest, scenario, repetition));
    }
  }

  lemma CellFields(hash: Text -> Digest, subject: Text, scenario: Text, repetition: SafeInteger)
    ensures var c := MakeCell(hash, subject, scenario, repetition);
      c.subject == subject && c.scenario == scenario && c.repetition == repetition
  {
  }

  // Whether a cell belongs to the repetition.
  predicate InSheet(hash: Text -> Digest, subjects: seq<Text>, scenarios: seq<Text>, repetition: SafeInteger, c: Cell)
  {
    c.subject in subjects && c.scenario in scenarios && c == MakeCell(hash, c.subject, c.scenario, repetition)
  }

  lemma {:induction false} SheetCells(hash: Text -> Digest, subjects: seq<Text>, scenarios: seq<Text>,
                                      repetition: SafeInteger)
    requires NoRepeats(subjects) && NoRepeats(scenarios)
    ensures var s := Sheet(hash, subjects, scenarios, repetition);
      && NoRepeats(s) && |s| == |scenarios| * |subjects|
      && forall c :: c in s <==> InSheet(hash, subjects, scenarios, repetition, c)
  {
    if scenarios != [] {
      var first, rest := scenarios[0], scenarios[1..];
      assert scenarios == [first] + rest;
      LineCells(hash, subjects, first, repetition);
      SheetCells(hash, subjects, rest, repetition);
      var line, sheet := Line(hash, subjects, first, repetition), Sheet(hash, subjects, rest, repetition);
      hide Line, NoRepeats;
      FirstNotAgain(scenarios);
      LineMembers(hash, subjects, first, repetition);
      JoinNoRepeats(line, sheet);
      OneMore(|scenarios|, |subjects|);
      forall c
        ensures c in line + sheet <==> InSheet(hash, subjects, scenarios, repetition, c)
      {
        assert c in line <==> InSheet(hash, subjects, [first], repetition, c);
      }
    }
  }

  lemma FirstNotAgain(s: seq<Text>)
    requires NoRepeats(s) && s != []
    ensures s[0] !in s[1..]
  {
  }

  lemma LineMembers(hash: Text -> Digest, subjects: seq<Text>, scenario: Text, repetition: SafeInteger)
    requires NoRepeats(subjects)
    ensures forall c :: c in Line(hash, subjects, scenario, repetition) <==>
      InSheet(hash, subjects, [scenario], repetition, c)
  {
    LineCells(hash, subjects, scenario, repetition);
  }

  // Whether a cell belongs to the first repetitions.
  predicate InMatrix(hash: Text -> Digest, spec: Spec, repetitions: int, c: Cell)
  {
    c.subject in spec.subjects && c.scenario in spec.scenarios && 1 <= c.repetition <= repetitions
    && c == MakeCell(hash, c.subject, c.scenario, c.repetition)
  }

  lemma RepetitionCells(hash: Text -> Digest, spec: Spec, repetition: SafeInteger)
    requires NoRepeats(spec.subjects) && NoRepeats(spec.scenarios)
    ensures var s := Sheet(hash, Order(spec, repetition), spec.scenarios, repetition);
      && NoRepeats(s) && |s| == |spec.scenarios| * |spec.subjects|
      && forall c :: c in s <==> InSheet(hash, spec.subjects, spec.scenarios, repetition, c)
  {
    ReverseSameIds(spec.subjects);
    SheetCells(hash, Order(spec, repetition), spec.scenarios, repetition);
  }

  lemma {:induction false} MatrixSize(hash: Text -> Digest, spec: Spec, repetitions: SafeInteger)
    requires NoRepeats(spec.subjects) && NoRepeats(spec.scenarios) && repetitions >= 0
    ensures |Matrix(hash, spec, repetitions)| == repetitions * (|spec.scenarios| * |spec.subjects|)
    decreases repetitions
  {
    if repetitions > 0 {
      MatrixSize(hash, spec, repetitions - 1);
      RepetitionCells(hash, spec, repetitions);
      OneMore(repetitions, |spec.scenarios| * |spec.subjects|);
    }
  }

  lemma LastRepetition(hash: Text -> Digest, spec: Spec, n: SafeInteger, c: Cell)
    requires n >= 0
    ensures InMatrix(hash, spec, n, c) <==>
      n > 0 && (InMatrix(hash, spec, n - 1, c) || InSheet(hash, spec.subjects, spec.scenarios, n, c))
    ensures !(InMatrix(hash, spec, n - 1, c) && InSheet(hash, spec.subjects, spec.scenarios, n, c))
  {
  }

  lemma {:induction false} MatrixCells(hash: Text -> Digest, spec: Spec, repetitions: SafeInteger)
    requires NoRepeats(spec.subjects) && NoRepeats(spec.scenarios) && repetitions >= 0
    ensures NoRepeats(Matrix(hash, spec, repetitions))
    ensures forall c :: c in Matrix(hash, spec, repetitions) <==> InMatrix(hash, spec, repetitions, c)
    decreases repetitions
  {
    NothingRepeats<Cell>();
    hide Sheet, Order, NoRepeats, InSheet, InMatrix;
    forall c
      ensures InMatrix(hash, spec, repetitions, c) <==>
        repetitions > 0 && (InMatrix(hash, spec, repetitions - 1, c) ||
                            InSheet(hash, spec.subjects, spec.scenarios, repetitions, c))
      ensures !(InMatrix(hash, spec, repetitions - 1, c) &&
                InSheet(hash, spec.subjects, spec.scenarios, repetitions, c))
    {
      LastRepetition(hash, spec, repetitions, c);
    }
    if repetitions > 0 {
      MatrixCells(hash, spec, repetitions - 1);
      RepetitionCells(hash, spec, repetitions);
      JoinNoRepeats(Matrix(hash, spec, repetitions - 1),
                    Sheet(hash, Order(spec, repetitions), spec.scenarios, repetitions));
    }
  }

  lemma OneMore(n: int, k: int)
    ensures n * k == (n - 1) * k + k
  {
  }

  lemma KeyIsFaithful(subject: Text, scenario: Text, repetition: SafeInteger, subject': Text, scenario': Text,
                      repetition': SafeInteger)
    requires Canonical(CellKey(subject, scenario, repetition)) == Canonical(CellKey(subject', scenario', repetition'))
    ensures subject == subject' && scenario == scenario' && repetition == repetition'
  {
    var a, b := CellKey(subject, scenario, repetition), CellKey(subject', scenario', repetition');
    CanonicalIsFaithful(a, b);
    assert Same(a.items[0], b.items[0]) && Same(a.items[1], b.items[1]) && Same(a.items[2], b.items[2]);
  }

  /** A cell carries its own subject, scenario and repetition, and its identity is the hash of their list. */
  lemma CellNamesItself(hash: Text -> Digest, subject: Text, scenario: Text, repetition: SafeInteger)
    ensures var c := MakeCell(hash, subject, scenario, repetition);
      && c.subject == subject && c.scenario == scenario && c.repetition == repetition
      && c.id == hash(Canonical(Array([String(subject), String(scenario), Number(repetition)])))
  {
    hide Canonical;
  }

  /** A valid specification is expanded into each combination exactly once, whatever the order the subjects take in even
      repetitions; the count is the product of the three sizes, and no two cells have the same identity. An invalid one
      is refused. */
  lemma EveryCellOnce(hash: Text -> Digest, spec: Spec)
    requires Injective(hash)
    ensures Expand(hash, spec).Some? <==> ValidSpec(spec)
    ensures ValidSpec(spec) <==>
      && spec.schemaVersion == 1 && |spec.id| > 0 && spec.repetitions >= 1
      && |spec.subjects| > 0 && |spec.scenarios| > 0 && [] !in spec.subjects && [] !in spec.scenarios
      && (forall i, j :: 0 <= i < j < |spec.subjects| ==> spec.subjects[i] != spec.subjects[j])
      && (forall i, j :: 0 <= i < j < |spec.scenarios| ==> spec.scenarios[i] != spec.scenarios[j])
    ensures ValidSpec(spec) ==>
      var cells := Expand(hash, spec).value;
      && |cells| == spec.repetitions * (|spec.scenarios| * |spec.subjects|)
      && (forall s, t, r: SafeInteger :: s in spec.subjects && t in spec.scenarios && 1 <= r <= spec.repetitions ==>
            MakeCell(hash, s, t, r) in cells)
      && (forall c :: c in cells ==> InMatrix(hash, spec, spec.repetitions, c))
      && (forall i, j :: 0 <= i < j < |cells| ==> cells[i].id != cells[j].id)
  {
    if ValidSpec(spec) {
      MatrixCells(hash, spec, spec.repetitions);
      MatrixSize(hash, spec, spec.repetitions);
      var cells := Matrix(hash, spec, spec.repetitions);
      forall i, j | 0 <= i < j < |cells|
        ensures cells[i].id != cells[j].id
      {
        var c, d := cells[i], cells[j];
        assert InMatrix(hash, spec, spec.repetitions, c) && InMatrix(hash, spec, spec.repetitions, d);
        if c.id == d.id {
          KeyIsFaithful(c.subject, c.scenario, c.repetition, d.subject, d.scenario, d.repetition);
        }
      }
    }
  }

  // ---- Every cell in its place ----

  lemma {:induction false} ReverseAt(s: seq<Text>, u: nat)
    requires u < |s|
    ensures |Reverse(s)| == |s| && Reverse(s)[u] == s[|s| - 1 - u]
  {
    if |s| > 1 {
      ReverseAt(s[1..], if u < |s| - 1 then u else 0);
    }
  }

  lemma {:induction false} LineAt(hash: Text -> Digest, subjects: seq<Text>, scenario: Text, repetition: SafeInteger,
                                  u: nat)
    requires u < |subjects|
    ensures |Line(hash, subjects, scenario, repetition)| == |subjects|
    ensures Line(hash, subjects, scenario, repetition)[u] == MakeCell(hash, subjects[u], scenario, repetition)
  {
    hide MakeCell;
    if |subjects| > 1 {
      LineAt(hash, subjects[1..], scenario, repetition, if u > 0 then u - 1 else 0);
    }
  }

  lemma {:induction false} SheetAt(hash: Text -> Digest, subjects: seq<Text>, scenarios: seq<Text>,
                                   repetition: SafeInteger, t: nat, u: nat)
    requires t < |scenarios| && u < |subjects|
    ensures var s := Sheet(hash, subjects, scenarios, repetition);
      t * |subjects| + u < |s|
      && s[t * |subjects| + u] == MakeCell(hash, subjects[u], scenarios[t], repetition)
  {
    hide MakeCell, Line;
    var line := Line(hash, subjects, scenarios[0], repetition);
    LineAt(hash, subjects, scenarios[0], repetition, u);
    if t > 0 {
      SheetAt(hash, subjects, scenarios[1..], repetition, t - 1, u);
      OneMore(t, |subjects|);
      var rest := Sheet(hash, subjects, scenarios[1..], repetition);
      assert (line + rest)[|line| + ((t - 1) * |subjects| + u)] == rest[(t - 1) * |subjects| + u];
    }
  }

  function Place(spec: Spec, r: SafeInteger, t: nat, u: nat): int
  {
    (r - 1) * (|spec.scenarios| * |spec.subjects|) + (t * |spec.subjects| + u)
  }

  /** The order of the matrix: repetition by repetition, scenario by scenario, the subjects as listed in odd repetitions
      and backwards in even ones. */
  lemma {:induction false} CellInItsPlace(hash: Text -> Digest, spec: Spec, n: SafeInteger, r: SafeInteger, t: nat,
                                          u: nat)
    requires ValidSpec(spec) && 1 <= r <= n && t < |spec.scenarios| && u < |spec.subjects|
    ensures var subject := if r % 2 == 1 then spec.subjects[u] else spec.subjects[|spec.subjects| - 1 - u];
      && 0 <= Place(spec, r, t, u) < |Matrix(hash, spec, n)|
      && Matrix(hash, spec, n)[Place(spec, r, t, u)] == MakeCell(hash, subject, spec.scenarios[t], r)
    decreases n
  {
    hide MakeCell, Sheet, Reverse, Order, Place;
    var before, sheet := Matrix(hash, spec, n - 1), Sheet(hash, Order(spec, n), spec.scenarios, n);
    if r < n {
      CellInItsPlace(hash, spec, n - 1, r, t, u);
    } else {
      var k := PlaceInLast(hash, spec, n, t, u);
      CellInItsRepetition(hash, spec, n, t, u, k);
      assert (before + sheet)[|before| + k] == sheet[k];
    }
  }

  lemma PlaceInLast(hash: Text -> Digest, spec: Spec, n: SafeInteger, t: nat, u: nat) returns (k: nat)
    requires ValidSpec(spec) && n >= 1
    ensures k == t * |spec.subjects| + u && Place(spec, n, t, u) == |Matrix(hash, spec, n - 1)| + k
  {
    MatrixSize(hash, spec, n - 1);
    k := t * |spec.subjects| + u;
  }

  lemma CellInItsRepetition(hash: Text -> Digest, spec: Spec, r: SafeInteger, t: nat, u: nat, k: nat)
    requires t < |spec.scenarios| && u < |spec.subjects| && k == t * |spec.subjects| + u
    ensures var sheet := Sheet(hash, Order(spec, r), spec.scenarios, r);
      var subject := if r % 2 == 1 then spec.subjects[u] else spec.subjects[|spec.subjects| - 1 - u];
      k < |sheet| && sheet[k] == MakeCell(hash, subject, spec.scenarios[t], r)
  {
    hide MakeCell, Sheet, Reverse;
    ReverseAt(spec.subjects, u);
    SheetAt(hash, Order(spec, r), spec.scenarios, r, t, u);
  }
}
