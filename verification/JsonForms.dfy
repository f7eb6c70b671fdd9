/** The printed forms in characters (experiment.ts, `canonical` over `JSON.stringify`): the grammar of sections 2 to 7 of
    RFC 8259 without white space, with the keys of every object in code unit order. */
module JsonForms {
  import opened Options
  import opened JsonText
  import opened CanonicalJson

  // A string of ASCII characters as text.
  function Units(s: string): Text
    requires forall i :: 0 <= i < |s| ==> s[i] < 128 as char
  {
    seq(|s|, i requires 0 <= i < |s| => s[i] as int)
  }

  /** Literals, and the empty list and object. */
  lemma LiteralForms()
    ensures Canonical(Null) == Units("null")
    ensures Canonical(Bool(true)) == Units("true")
    ensures Canonical(Bool(false)) == Units("false")
    ensures Canonical(Array([])) == Units("[]")
    ensures Canonical(Object([])) == Units("{}")
  {
    assert Parts(Array([])) == [] && Parts(Object([])) == [];
  }

  /** Numbers are printed in decimal, most significant digit first. */
  lemma NumberForms(n: int, d: nat)
    requires n >= 0 && d < 10
    ensures Decimal(d) == [Units("0123456789")[d]]
    ensures n > 0 ==> Decimal(10 * n + d) == Decimal(n) + [Units("0123456789")[d]]
    ensures n > 0 ==> Decimal(-n) == Units("-") + Decimal(n)
  {
  }

  // Printed as itself.
  predicate Plain(c: Unit)
  {
    c >= 0x20 && c != '"' as int && c != '\\' as int && !High(c) && !Low(c)
  }

  /** Strings are printed unit by unit: quotation mark and backslash escaped, the five controls that have a short escape by
      it, other controls and lone surrogates by four hexadecimal digits, surrogate pairs and everything else as they are. */
  lemma StringForms(c: Unit, s: Text)
    ensures Quoted(s) == Units("\"") + Escaped(s) + Units("\"") && Escaped([]) == []
    ensures Plain(c) ==> Escaped([c] + s) == [c] + Escaped(s)
    ensures c == '"' as int ==> Escaped([c] + s) == Units("\\\"") + Escaped(s)
    ensures c == '\\' as int ==> Escaped([c] + s) == Units("\\\\") + Escaped(s)
    ensures c == 8 ==> Escaped([c] + s) == Units("\\b") + Escaped(s)
    ensures c == 9 ==> Escaped([c] + s) == Units("\\t") + Escaped(s)
    ensures c == 10 ==> Escaped([c] + s) == Units("\\n") + Escaped(s)
    ensures c == 12 ==> Escaped([c] + s) == Units("\\f") + Escaped(s)
    ensures c == 13 ==> Escaped([c] + s) == Units("\\r") + Escaped(s)
    ensures (c < 0x20 && c !in {8, 9, 10, 12, 13}) || Low(c) || (High(c) && (s == [] || !Low(s[0]))) ==>
      Escaped([c] + s) == Units("\\u") + HexForm(c) + Escaped(s)
    ensures High(c) && s != [] && Low(s[0]) ==> Escaped([c] + s) == [c, s[0]] + Escaped(s[1..])
  {
    var t := [c] + s;
    EscapedHead(t);
    HeadForms(c, s);
    assert t[1..] == s && (s != [] ==> t[2..] == s[1..]);
    Escapes();
    hide Escaped, PrintHead, HexForm, Units;
  }

  lemma EscapedHead(t: Text)
    requires t != []
    ensures Escaped(t) == PrintHead(t) + Escaped(t[HeadLength(t)..])
    ensures Escaped([]) == []
  {
  }

  // What one character is printed as.
  lemma HeadForms(c: Unit, s: Text)
    ensures var t := [c] + s;
      var pair := High(c) && s != [] && Low(s[0]);
      && HeadLength(t) == (if pair then 2 else 1)
      && PrintHead(t) ==
         if pair then [c, s[0]]
         else if c in {0x22, 0x5C} then [0x5C, c]
         else if c in {8, 9, 10, 12, 13} then
           [0x5C, if c == 8 then 0x62 else if c == 9 then 0x74 else if c == 10 then 0x6E else if c == 12 then 0x66
                  else 0x72]
         else if c < 0x20 || High(c) || Low(c) then [0x5C, 0x75] + HexForm(c)
         else [c]
  {
    var t := [c] + s;
    assert t[0] == c && (s != [] ==> t[1] == s[0] && t[..2] == [c, s[0]]);
    HexDigits(c / 4096);
    HexDigits(c / 256 % 16);
    HexDigits(c / 16 % 16);
    HexDigits(c % 16);
    hide Units;
  }

  lemma HexDigits(n: int)
    requires 0 <= n < 16
    ensures |Units("0123456789abcdef")| == 16 && HexDigit(n) == Units("0123456789abcdef")[n]
  {
  }

  lemma Escapes()
    ensures Units("\"") == [0x22] && Units("\\\"") == [0x5C, 0x22] && Units("\\\\") == [0x5C, 0x5C]
    ensures Units("\\b") == [0x5C, 0x62] && Units("\\t") == [0x5C, 0x74] && Units("\\n") == [0x5C, 0x6E]
    ensures Units("\\f") == [0x5C, 0x66] && Units("\\r") == [0x5C, 0x72] && Units("\\u") == [0x5C, 0x75]
  {
  }

  function HexForm(c: Unit): Text
  {
    var digits := Units("0123456789abcdef");
    [digits[c / 4096], digits[c / 256 % 16], digits[c / 16 % 16], digits[c % 16]]
  }

  lemma Punctuation()
    ensures Units("[") == [OPEN_LIST] && Units("]") == [CLOSE_LIST] && Units(",") == [COMMA] && Units(":") == [COLON]
    ensures Units("{") == [OPEN_OBJECT] && Units("}") == [CLOSE_OBJECT]
  {
  }

  lemma {:induction false} JoinSnoc(parts: seq<Text>, p: Text)
    ensures Join(parts + [p]) == if parts == [] then p else Join(parts) + Units(",") + p
  {
    if |parts| > 1 {
      JoinSnoc(parts[1..], p);
      assert (parts + [p])[1..] == parts[1..] + [p];
      assert Join(parts + [p]) == parts[0] + [COMMA] + Join(parts[1..] + [p]);
    } else if |parts| == 1 {
      assert (parts + [p])[1..] == [p];
    } else {
      assert parts + [p] == [p];
    }
  }

  lemma Bracketed(v: Json)
    requires v.Array? || v.Object?
    ensures Canonical(v) == (if v.Array? then Units("[") else Units("{")) + Join(Parts(v))
                            + (if v.Array? then Units("]") else Units("}"))
  {
    Punctuation();
    hide Join, Parts, Units;
  }

  /** Lists are printed in order, with commas between the values. */
  lemma ListForms(items: seq<Json>, v: Json)
    ensures Canonical(Array([v])) == Units("[") + Canonical(v) + Units("]")
    ensures items != [] ==>
      var body := Join(Parts(Array(items)));
      && Canonical(Array(items)) == Units("[") + body + Units("]")
      && Canonical(Array(items + [v])) == Units("[") + (body + Units(",") + Canonical(v)) + Units("]")
  {
    ListParts(items, v);
    ListParts([], v);
    assert [] + [v] == [v];
    JoinSnoc(Parts(Array(items)), Canonical(v));
    JoinSnoc([], Canonical(v));
    Bracketed(Array(items + [v]));
    Bracketed(Array([v]));
    Bracketed(Array(items));
    hide Join, Parts, Canonical, Units;
  }

  lemma ListParts(items: seq<Json>, v: Json)
    ensures Parts(Array(items + [v])) == Parts(Array(items)) + [Canonical(v)]
    ensures Parts(Array([])) == []
    ensures items != [] ==> Parts(Array(items)) != []
  {
    var all := Array(items + [v]);
    forall i | 0 <= i < |items|
      ensures Parts(all)[i] == Parts(Array(items))[i]
    {
      assert Entries(all)[i] == Entries(Array(items))[i];
    }
    assert Entries(all)[|items|] == Entry(None, v);
    hide Canonical;
    assert [] + Canonical(v) == Canonical(v);
  }

  /** Objects are printed with their keys in order, wherever a key was inserted: the greatest key comes last. */
  lemma ObjectForms(ms: seq<Member>, m: Member)
    requires forall i :: 0 <= i < |ms| ==> Less(ms[i].key, m.key)
    ensures Canonical(Object([m])) == Units("{") + (Quoted(m.key) + Units(":") + Canonical(m.value)) + Units("}")
    ensures ms != [] ==>
      var body := Join(Parts(Object(ms)));
      && Canonical(Object(ms)) == Units("{") + body + Units("}")
      && Canonical(Object(ms + [m]))
         == Units("{") + (body + Units(",") + (Quoted(m.key) + Units(":") + Canonical(m.value))) + Units("}")
  {
    var p := Quoted(m.key) + Units(":") + Canonical(m.value);
    ObjectParts(ms, m);
    ObjectParts([], m);
    assert [] + [m] == [m];
    JoinSnoc(Parts(Object(ms)), p);
    JoinSnoc([], p);
    Bracketed(Object(ms + [m]));
    Bracketed(Object([m]));
    Bracketed(Object(ms));
    hide Join, Parts, Quoted, Less, Sort, Canonical, Units;
  }

  lemma ObjectParts(ms: seq<Member>, m: Member)
    requires forall i :: 0 <= i < |ms| ==> Less(ms[i].key, m.key)
    ensures Parts(Object(ms + [m])) == Parts(Object(ms)) + [Quoted(m.key) + Units(":") + Canonical(m.value)]
    ensures Parts(Object([])) == []
    ensures ms != [] ==> Parts(Object(ms)) != []
  {
    GreatestLast(ms, m);
    SortLength(ms);
    MemberParts(ms);
    MemberParts(ms + [m]);
    MemberParts([]);
    TextsSnoc(Sort(ms), m);
    MemberForm(m);
    hide *;
  }

  function MemberText(m: Member): Text
  {
    LabelText(Some(m.key)) + Canonical(m.value)
  }

  function Texts(ms: seq<Member>): seq<Text>
  {
    seq(|ms|, i requires 0 <= i < |ms| => MemberText(ms[i]))
  }

  lemma TextsSnoc(ms: seq<Member>, m: Member)
    ensures Texts(ms + [m]) == Texts(ms) + [MemberText(m)] && |Texts(ms)| == |ms|
  {
    hide MemberText;
  }

  lemma MemberForm(m: Member)
    ensures MemberText(m) == Quoted(m.key) + Units(":") + Canonical(m.value)
  {
    Punctuation();
    hide Quoted, Canonical, Units;
  }

  lemma MemberParts(ms: seq<Member>)
    ensures Parts(Object(ms)) == Texts(Sort(ms))
    ensures ms == [] ==> Parts(Object(ms)) == []
  {
    SortLength(ms);
    EntriesOfSorted(ms);
    hide Sort, LabelText, Canonical, Entries;
  }

  lemma EntriesOfSorted(ms: seq<Member>)
    ensures |Entries(Object(ms))| == |Sort(ms)|
    ensures forall i :: 0 <= i < |Sort(ms)| ==> Entries(Object(ms))[i] == Entry(Some(Sort(ms)[i].key), Sort(ms)[i].value)
  {
  }

  lemma SortLength(ms: seq<Member>)
    ensures |Sort(ms)| == |ms|
  {
    assert |multiset(Sort(ms))| == |multiset(ms)|;
  }

  lemma {:induction false} InsertBefore(m: Member, ms: seq<Member>, last: Member)
    requires Less(m.key, last.key)
    ensures Insert(m, ms + [last]) == Insert(m, ms) + [last]
  {
    hide Less;
    if ms == [] {
      assert [] + [last] == [last];
    } else {
      InsertBefore(m, ms[1..], last);
      assert (ms + [last])[1..] == ms[1..] + [last];
    }
  }

  lemma {:induction false} GreatestLast(ms: seq<Member>, m: Member)
    requires forall i :: 0 <= i < |ms| ==> Less(ms[i].key, m.key)
    ensures Sort(ms + [m]) == Sort(ms) + [m]
  {
    hide Less;
    if ms == [] {
      assert [] + [m] == [m];
    } else {
      GreatestLast(ms[1..], m);
      assert (ms + [m])[1..] == ms[1..] + [m];
      InsertBefore(ms[0], Sort(ms[1..]), m);
    }
  }
}
