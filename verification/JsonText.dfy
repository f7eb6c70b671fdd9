/** How one JSON string and one integer are printed, and why what follows them can always be told apart (experiment.ts
    relies on `JSON.stringify`; strings are section 7 and numbers section 6 of RFC 8259). Text is UTF-16 code units. */
module JsonText {
  type Unit = c: int | 0 <= c < 0x1_0000

  type Text = seq<Unit>

  const QUOTE: Unit := 0x22
  const BACKSLASH: Unit := 0x5C
  const MINUS: Unit := 0x2D
  const LOWER_U: Unit := 0x75

  // ---- Strings ----

  predicate High(c: Unit)
  {
    0xD800 <= c <= 0xDBFF
  }

  predicate Low(c: Unit)
  {
    0xDC00 <= c <= 0xDFFF
  }

  function HexDigit(n: int): Unit
    requires 0 <= n < 16
  {
    if n < 10 then 0x30 + n else 0x61 + n - 10
  }

  function HexValue(c: Unit): int
  {
    if 0x30 <= c <= 0x39 then c - 0x30 else c - 0x61 + 10
  }

  function Hex4(c: Unit): Text
  {
    [BACKSLASH, LOWER_U, HexDigit(c / 0x1000), HexDigit(c / 0x100 % 16), HexDigit(c / 16 % 16), HexDigit(c % 16)]
  }

  // The second unit of a two-unit escape, or 0 if there is none for this unit.
  function ShortEscape(c: Unit): Unit
  {
    if c == QUOTE then QUOTE
    else if c == BACKSLASH then BACKSLASH
    else if c == 8 then 0x62
    else if c == 9 then 0x74
    else if c == 10 then 0x6E
    else if c == 12 then 0x66
    else if c == 13 then 0x72
    else 0
  }

  // How many units of a string are printed together: a surrogate pair is one character.
  function HeadLength(s: Text): (n: nat)
    requires s != []
    ensures 1 <= n <= |s|
  {
    if High(s[0]) && |s| > 1 && Low(s[1]) then 2 else 1
  }

  // What they are printed as; a surrogate that stands alone is escaped.
  function PrintHead(s: Text): Text
    requires s != []
  {
    if HeadLength(s) == 2 then s[..2]
    else if ShortEscape(s[0]) != 0 then [BACKSLASH, ShortEscape(s[0])]
    else if s[0] < 0x20 || High(s[0]) || Low(s[0]) then Hex4(s[0])
    else [s[0]]
  }

  function Escaped(s: Text): Text
  {
    if s == [] then [] else PrintHead(s) + Escaped(s[HeadLength(s)..])
  }

  function Quoted(s: Text): Text
  {
    [QUOTE] + Escaped(s) + [QUOTE]
  }

  // Reading a head back: the units it stands for and how many units of text it took.
  function ReadHead(t: Text): (Text, nat)
  {
    if |t| >= 6 && t[0] == BACKSLASH && t[1] == LOWER_U then
      var c := HexValue(t[2]) * 0x1000 + HexValue(t[3]) * 0x100 + HexValue(t[4]) * 16 + HexValue(t[5]);
      (if 0 <= c < 0x1_0000 then [c] else [], 6)
    else if |t| >= 2 && t[0] == BACKSLASH then
      ([if t[1] == 0x62 then 8 else if t[1] == 0x74 then 9 else if t[1] == 0x6E then 10
        else if t[1] == 0x66 then 12 else if t[1] == 0x72 then 13 else t[1]], 2)
    else if |t| >= 2 && High(t[0]) then (t[..2], 2)
    else if |t| >= 1 then (t[..1], 1)
    else ([], 0)
  }

  lemma HexRoundTrip(n: int)
    requires 0 <= n < 16
    ensures HexValue(HexDigit(n)) == n
  {
  }

  lemma HeadRoundTrip(s: Text, rest: Text)
    requires s != []
    ensures ReadHead(PrintHead(s) + rest) == (s[..HeadLength(s)], |PrintHead(s)|)
    ensures |PrintHead(s)| >= 1 && PrintHead(s)[0] != QUOTE
  {
    var t := PrintHead(s) + rest;
    if HeadLength(s) == 2 {
      assert t[..2] == s[..2];
    } else if ShortEscape(s[0]) != 0 {
      assert t[1] == ShortEscape(s[0]);
      assert s[..1] == [s[0]];
    } else if s[0] < 0x20 || High(s[0]) || Low(s[0]) {
      HexHead(s[0], rest);
      assert s[..1] == [s[0]];
    } else {
      assert t[..1] == s[..1];
    }
  }

  lemma HexHead(c: Unit, rest: Text)
    ensures ReadHead(Hex4(c) + rest) == ([c], 6)
  {
    var t := Hex4(c) + rest;
    HexRoundTrip(c / 0x1000);
    HexRoundTrip(c / 0x100 % 16);
    HexRoundTrip(c / 16 % 16);
    HexRoundTrip(c % 16);
    assert t[2] == HexDigit(c / 0x1000) && t[3] == HexDigit(c / 0x100 % 16);
    assert t[4] == HexDigit(c / 16 % 16) && t[5] == HexDigit(c % 16);
    hide HexValue, HexDigit;
    FourDigits(c);
  }

  lemma FourDigits(c: Unit)
    ensures c == c / 0x1000 * 0x1000 + c / 0x100 % 16 * 0x100 + c / 16 % 16 * 16 + c % 16
  {
    assert c / 16 / 16 == c / 0x100 && c / 0x100 / 16 == c / 0x1000;
  }

  /** A quoted string can be cut off whatever follows it: two texts that agree and start with a quoted string start with
      the same one, and go on alike. */
  lemma {:induction false} QuotedReadable(u: Text, v: Text, r: Text, s: Text)
    requires Quoted(u) + r == Quoted(v) + s
    ensures u == v && r == s
  {
    AfterQuote(Escaped(u), r);
    AfterQuote(Escaped(v), s);
    EscapedReadable(u, v, r, s);
  }

  lemma AfterQuote(inside: Text, r: Text)
    ensures ([QUOTE] + inside + [QUOTE] + r)[1..] == inside + [QUOTE] + r
  {
  }

  lemma {:induction false} EscapedReadable(u: Text, v: Text, r: Text, s: Text)
    requires Escaped(u) + [QUOTE] + r == Escaped(v) + [QUOTE] + s
    ensures u == v && r == s
    decreases |u|
  {
    hide PrintHead, ReadHead, HeadLength;
    QuoteEndsIt(u, r);
    QuoteEndsIt(v, s);
    if u == [] {
      assert ([] + [QUOTE] + r)[1..] == r && ([] + [QUOTE] + s)[1..] == s;
    } else {
      var restU, restV := u[HeadLength(u)..], v[HeadLength(v)..];
      var tailU, tailV := Escaped(restU) + [QUOTE] + r, Escaped(restV) + [QUOTE] + s;
      assert Escaped(u) + [QUOTE] + r == PrintHead(u) + tailU;
      assert Escaped(v) + [QUOTE] + s == PrintHead(v) + tailV;
      HeadRoundTrip(u, tailU);
      HeadRoundTrip(v, tailV);
      SameHeads(PrintHead(u), tailU, PrintHead(v), tailV);
      EscapedReadable(restU, restV, r, s);
      assert u == u[..HeadLength(u)] + restU && v == v[..HeadLength(v)] + restV;
    }
  }

  lemma QuoteEndsIt(v: Text, s: Text)
    ensures (Escaped(v) + [QUOTE] + s)[0] == QUOTE <==> v == []
  {
    if v != [] {
      HeadRoundTrip(v, []);
      assert (Escaped(v) + [QUOTE] + s)[0] == PrintHead(v)[0];
    }
  }

  lemma SameHeads(a: Text, x: Text, b: Text, y: Text)
    requires a + x == b + y && |a| == |b|
    ensures a == b && x == y
  {
    assert a == (a + x)[..|a|] && b == (b + y)[..|b|];
    assert x == (a + x)[|a|..] && y == (b + y)[|b|..];
  }

  // ---- Integers ----

  predicate Digit(c: Unit)
  {
    0x30 <= c <= 0x39
  }

  function Digits(n: nat): (d: Text)
    ensures d != [] && forall i :: 0 <= i < |d| ==> Digit(d[i])
  {
    if n < 10 then [0x30 + n] else Digits(n / 10) + [0x30 + n % 10]
  }

  function Value(d: Text): int
  {
    if d == [] then 0 else Value(d[..|d| - 1]) * 10 + (d[|d| - 1] as int - 0x30)
  }

  function Decimal(n: int): (t: Text)
    ensures t != [] && (if n < 0 then t[0] == MINUS else Digit(t[0]))
  {
    if n < 0 then [MINUS] + Digits(-n) else Digits(n)
  }

  lemma {:induction false} ValueOfDigits(n: nat)
    ensures Value(Digits(n)) == n
  {
    if n < 10 {
      assert Digits(n)[..0] == [];
    } else {
      ValueOfDigits(n / 10);
      assert Digits(n)[..|Digits(n)| - 1] == Digits(n / 10);
    }
  }

  predicate NoDigitFirst(r: Text)
  {
    r == [] || !Digit(r[0])
  }

  lemma {:induction false} DigitsReadable(m: nat, n: nat, r: Text, s: Text)
    requires Digits(m) + r == Digits(n) + s && NoDigitFirst(r) && NoDigitFirst(s)
    ensures m == n && r == s
  {
    var a, b := Digits(m), Digits(n);
    NotShorter(a, r, b, s);
    NotShorter(b, s, a, r);
    SameHeads(a, r, b, s);
    ValueOfDigits(m);
    ValueOfDigits(n);
  }

  lemma NotShorter(a: Text, r: Text, b: Text, s: Text)
    requires a + r == b + s && NoDigitFirst(r) && forall i :: 0 <= i < |b| ==> Digit(b[i])
    ensures |a| >= |b|
  {
    assert forall i :: 0 <= i < |b| ==> (b + s)[i] == b[i];
    assert r != [] ==> (a + r)[|a|] == r[0];
  }

  /** The same for integers, as long as no digit follows. */
  lemma DecimalReadable(m: int, n: int, r: Text, s: Text)
    requires Decimal(m) + r == Decimal(n) + s && NoDigitFirst(r) && NoDigitFirst(s)
    ensures m == n && r == s
  {
    hide Digits, Value;
    assert (Decimal(m) + r)[0] == Decimal(m)[0] && (Decimal(n) + s)[0] == Decimal(n)[0];
    if m < 0 {
      MinusFirst(Digits(-m), r);
      MinusFirst(Digits(-n), s);
      DigitsReadable(-m, -n, r, s);
    } else {
      DigitsReadable(m, n, r, s);
    }
  }

  lemma MinusFirst(d: Text, r: Text)
    ensures ([MINUS] + d + r)[1..] == d + r
  {
  }
}
