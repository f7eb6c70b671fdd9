/** Strict base64 of relayed file chunks (artifact-cache.ts, `decodeChunk`; core.ts, `decodedBase64Size`), against the
    encoding of section 4 of RFC 4648. Six-bit fields are disjoint, so the source's shifts and ors are sums here. */
module Base64 {
  import opened Options

  type Byte = b: int | 0 <= b < 256
  type Sextet = n: int | 0 <= n < 64

  // Where a character stands in the alphabet A-Z, a-z, 0-9, +, /; -1 if nowhere.
  function IndexOf(c: char): int
  {
    if 'A' <= c <= 'Z' then c as int - 'A' as int
    else if 'a' <= c <= 'z' then c as int - 'a' as int + 26
    else if '0' <= c <= '9' then c as int - '0' as int + 52
    else if c == '+' then 62
    else if c == '/' then 63
    else -1
  }

  function Letter(n: Sextet): (c: char)
    ensures IndexOf(c) == n && c != '='
  {
    if n < 26 then 'A' + n as char
    else if n < 52 then 'a' + (n - 26) as char
    else if n < 62 then '0' + (n - 52) as char
    else if n == 62 then '+'
    else '/'
  }

  lemma LetterOfIndex(c: char)
    ensures -1 <= IndexOf(c) < 64
    ensures IndexOf(c) >= 0 ==> Letter(IndexOf(c)) == c && c != '='
  {
  }

  // ---- The encoding ----

  function Encode(b: seq<Byte>): string
  {
    if |b| == 0 then ""
    else if |b| == 1 then [Letter(b[0] / 4), Letter(b[0] % 4 * 16), '=', '=']
    else if |b| == 2 then [Letter(b[0] / 4), Letter(b[0] % 4 * 16 + b[1] / 16), Letter(b[1] % 16 * 4), '=']
    else
      [Letter(b[0] / 4), Letter(b[0] % 4 * 16 + b[1] / 16), Letter(b[1] % 16 * 4 + b[2] / 64), Letter(b[2] % 64)]
      + Encode(b[3..])
  }

  // Three bytes as one number, the first the most significant; and four characters as digits to the base 64.
  function Together(x: int, y: int, z: int): int
  {
    x * 65_536 + y * 256 + z
  }

  function DigitsTogether(s: string): int
    requires |s| >= 4
  {
    IndexOf(s[0]) * 262_144 + IndexOf(s[1]) * 4_096 + IndexOf(s[2]) * 64 + IndexOf(s[3])
  }

  /** The bit order of section 4 of RFC 4648: three bytes are four digits to the base 64; one or two bytes left over are
      completed by zero bytes, whose digits are replaced by equals signs. */
  lemma EncodingForms(b: seq<Byte>)
    ensures |b| >= 3 ==>
      && |Encode(b)| >= 4 && Encode(b)[4..] == Encode(b[3..])
      && DigitsTogether(Encode(b)) == Together(b[0], b[1], b[2])
    ensures |b| == 2 ==>
      && |Encode(b)| == 4 && Encode(b)[3] == '='
      && DigitsTogether(Encode(b)[..3] + "A") == Together(b[0], b[1], 0)
    ensures |b| == 1 ==>
      && |Encode(b)| == 4 && Encode(b)[2] == Encode(b)[3] == '='
      && DigitsTogether(Encode(b)[..2] + "AA") == Together(b[0], 0, 0)
  {
    hide Letter;
    assert IndexOf('A') == 0;
    hide IndexOf;
  }

  /** The test vectors of section 10 of RFC 4648, and the last two characters of the alphabet. */
  lemma EncodingExamples()
    ensures Encode([0x66]) == "Zg==" && Encode([0x66, 0x6F]) == "Zm8=" && Encode([0x66, 0x6F, 0x6F]) == "Zm9v"
    ensures Encode([0xFB, 0xF0]) == "+/A="
  {
    assert [0x66, 0x6F, 0x6F][3..] == [];
  }

  // ---- The decoding, four characters at a time ----

  // The bytes of one group; only the last group may be padded, and then its spare bits must be zero.
  function DecodeGroup(g: string, last: bool): Option<seq<Byte>>
    requires |g| == 4
  {
    var a, b, c, d := IndexOf(g[0]), IndexOf(g[1]), IndexOf(g[2]), IndexOf(g[3]);
    if a < 0 || b < 0 then None
    else if g[2] == '=' then
      if last && g[3] == '=' && b % 16 == 0 then Some([a * 4 + b / 16]) else None
    else if c < 0 then None
    else if g[3] == '=' then
      if last && c % 4 == 0 then Some([a * 4 + b / 16, b % 16 * 16 + c / 4]) else None
    else if d < 0 then None
    else Some([a * 4 + b / 16, b % 16 * 16 + c / 4, c % 4 * 64 + d])
  }

  function Decode(s: string): Option<seq<Byte>>
  {
    if s == [] then Some([])
    else if |s| < 4 then None
    else Join(DecodeGroup(s[..4], |s| == 4), Decode(s[4..]))
  }

  function Join(a: Option<seq<Byte>>, b: Option<seq<Byte>>): Option<seq<Byte>>
  {
    if a.Some? && b.Some? then Some(a.value + b.value) else None
  }

  lemma JoinEmpty(b: Option<seq<Byte>>)
    ensures Join(Some([]), b) == b
  {
    if b.Some? {
      assert [] + b.value == b.value;
    }
  }

  lemma {:induction false} DecodeOfEncode(b: seq<Byte>)
    ensures Decode(Encode(b)) == Some(b)
  {
    hide IndexOf, Letter;
    var s := Encode(b);
    if |b| == 1 {
      assert s[..4] == s && s[4..] == [];
      Regroup(b[0] / 4, b[0] % 4 * 16, 0, 0);
      assert DecodeGroup(s, true) == Some([b[0]]);
      assert Decode(s[4..]) == Some([]);
      assert b == [b[0]] + [];
    } else if |b| == 2 {
      assert s[..4] == s && s[4..] == [];
      assert DecodeGroup(s, true) == Some([b[0], b[1]]);
      assert Decode(s[4..]) == Some([]);
      assert b == [b[0], b[1]] + [];
    } else if |b| > 2 {
      DecodeOfEncode(b[3..]);
      assert s[4..] == Encode(b[3..]);
      EncodeNonempty(b[3..]);
      GroupOfBytes(b[0], b[1], b[2], s[..4], |s| == 4);
      assert |s| >= 4 && s != [];
      assert Decode(s) == Join(Some([b[0], b[1], b[2]]), Some(b[3..]));
      assert b == [b[0], b[1], b[2]] + b[3..];
    }
  }

  lemma EncodeNonempty(b: seq<Byte>)
    ensures |Encode(b)| == 0 <==> |b| == 0
  {
  }

  lemma GroupOfBytes(x: Byte, y: Byte, z: Byte, g: string, last: bool)
    requires g == [Letter(x / 4), Letter(x % 4 * 16 + y / 16), Letter(y % 16 * 4 + z / 64), Letter(z % 64)]
    ensures DecodeGroup(g, last) == Some([x, y, z])
  {
    hide IndexOf, Letter;
    Ungroup(x, y, z);
  }

  lemma Ungroup(x: Byte, y: Byte, z: Byte)
    ensures var a, b, c, d := x / 4, x % 4 * 16 + y / 16, y % 16 * 4 + z / 64, z % 64;
      && 0 <= a < 64 && 0 <= b < 64 && 0 <= c < 64 && 0 <= d < 64
      && a * 4 + b / 16 == x && b % 16 * 16 + c / 4 == y && c % 4 * 64 + d == z
  {
  }

  lemma {:induction false} EncodeOfDecode(s: string)
    requires Decode(s).Some?
    ensures Encode(Decode(s).value) == s
  {
    hide IndexOf, Letter, DecodeGroup;
    if s != [] {
      var g, rest := DecodeGroup(s[..4], |s| == 4), Decode(s[4..]);
      EncodeOfDecode(s[4..]);
      EncodeNonempty(rest.value);
      BytesOfGroup(s[..4], |s| == 4);
      assert s == s[..4] + s[4..];
      if |g.value| == 3 {
        assert (g.value + rest.value)[3..] == rest.value;
      } else {
        assert |s| == 4;
        assert rest.value == [] && g.value + rest.value == g.value;
      }
    }
  }

  lemma BytesOfGroup(g: string, last: bool)
    requires |g| == 4 && DecodeGroup(g, last).Some?
    ensures var b := DecodeGroup(g, last).value;
      Encode(b) == g && 1 <= |b| <= 3 && (|b| < 3 ==> last)
      && (|b| == 3 ==> g == [Letter(b[0] / 4), Letter(b[0] % 4 * 16 + b[1] / 16), Letter(b[1] % 16 * 4 + b[2] / 64),
                             Letter(b[2] % 64)])
  {
    hide IndexOf, Letter;
    LetterOfIndex(g[0]);
    LetterOfIndex(g[1]);
    LetterOfIndex(g[2]);
    LetterOfIndex(g[3]);
    var a, b := IndexOf(g[0]), IndexOf(g[1]);
    var c := if g[2] == '=' then 0 else IndexOf(g[2]);
    var d := if g[3] == '=' then 0 else IndexOf(g[3]);
    Regroup(a, b, c, d);
  }

  lemma Regroup(a: Sextet, b: Sextet, c: Sextet, d: Sextet)
    ensures var x, y, z := a * 4 + b / 16, b % 16 * 16 + c / 4, c % 4 * 64 + d;
      && 0 <= x < 256 && 0 <= y < 256 && 0 <= z < 256
      && x / 4 == a && x % 4 * 16 + y / 16 == b && y % 16 * 4 + z / 64 == c && z % 64 == d
      && (b % 16 == 0 ==> x % 4 * 16 == b) && (c % 4 == 0 ==> y % 16 * 4 == c)
  {
  }

  /** Decoding undoes encoding for every byte string, and a text is accepted exactly when it is the encoding of
      something, namely of its own decoding; so no two texts decode to the same bytes. */
  lemma DecodingIsBijective(s: string, b: seq<Byte>)
    ensures Decode(Encode(b)) == Some(b)
    ensures Decode(s) == Some(b) <==> s == Encode(b)
    ensures Decode(s).Some? <==> exists c :: s == Encode(c)
  {
    DecodeOfEncode(b);
    if Decode(s).Some? {
      EncodeOfDecode(s);
    }
    if c :| s == Encode(c) {
      DecodeOfEncode(c);
    }
  }

  // ---- The implementation ----

  // The source's pattern: letters of the alphabet, then at most two '='.
  predicate MatchesPattern(s: string)
  {
    exists k :: 0 <= k <= 2 && Padded(s, k)
  }

  predicate Padded(s: string, k: int)
  {
    && 0 <= k <= 2 && k <= |s|
    && (forall i :: 0 <= i < |s| - k ==> IndexOf(s[i]) >= 0)
    && (forall i :: |s| - k <= i < |s| ==> s[i] == '=')
  }

  predicate EndsWithPads(s: string, n: nat)
  {
    n <= |s| && forall i :: |s| - n <= i < |s| ==> s[i] == '='
  }

  function DecodedBase64Size(s: string): Option<nat>
  {
    if !MatchesPattern(s) || |s| % 4 != 0 then None
    else
      var pad := if EndsWithPads(s, 2) then 2 else if EndsWithPads(s, 1) then 1 else 0;
      Some(|s| / 4 * 3 - pad)
  }

  // Pad characters of a text that matches.
  lemma PaddingIs(s: string, k: int)
    requires Padded(s, k)
    ensures k == (if EndsWithPads(s, 2) then 2 else if EndsWithPads(s, 1) then 1 else 0)
  {
    hide IndexOf;
    PadIsNoLetter();
    if |s| >= 1 {
      assert k == 0 ==> IndexOf(s[|s| - 1]) >= 0;
    }
    if |s| >= 2 {
      assert k <= 1 ==> IndexOf(s[|s| - 2]) >= 0;
    }
  }

  lemma PadIsNoLetter()
    ensures IndexOf('=') == -1
  {
  }

  // A text that decodes matches the pattern and has the announced size.
  lemma {:induction false} DecodableMatches(s: string)
    requires Decode(s).Some?
    ensures |s| % 4 == 0
    ensures exists k :: Padded(s, k) && |Decode(s).value| == |s| / 4 * 3 - k && (s == [] ==> k == 0)
  {
    hide IndexOf, Letter;
    if s == [] {
      assert Padded(s, 0);
    } else {
      var g := s[..4];
      BytesOfGroup(g, |s| == 4);
      DecodableMatches(s[4..]);
      var k :| Padded(s[4..], k) && |Decode(s[4..]).value| == |s[4..]| / 4 * 3 - k && (s[4..] == [] ==> k == 0);
      if |s| == 4 {
        var pad := 3 - |DecodeGroup(g, true).value|;
        assert g == s;
        LastGroupPadded(s);
        assert s[4..] == [];
        assert Padded(s, pad);
      } else {
        GroupLetters(g, false);
        GroupPrepended(s, k);
        assert |DecodeGroup(g, false).value| == 3;
        assert Padded(s, k);
      }
    }
  }

  lemma LastGroupPadded(s: string)
    requires |s| == 4 && DecodeGroup(s, true).Some?
    ensures Padded(s, 3 - |DecodeGroup(s, true).value|)
  {
  }

  lemma GroupPrepended(s: string, k: int)
    requires |s| > 4 && Padded(s[4..], k) && forall i :: 0 <= i < 4 ==> IndexOf(s[..4][i]) >= 0
    requires |s| % 4 == 0
    ensures Padded(s, k)
  {
    hide IndexOf;
    forall i | 0 <= i < |s| - k
      ensures IndexOf(s[i]) >= 0
    {
      assert if i < 4 then s[i] == s[..4][i] else s[i] == s[4..][i - 4];
    }
    forall i | |s| - k <= i < |s|
      ensures s[i] == '='
    {
      assert s[i] == s[4..][i - 4];
    }
  }

  lemma GroupLetters(g: string, last: bool)
    requires |g| == 4 && !last && DecodeGroup(g, last).Some?
    ensures forall i :: 0 <= i < 4 ==> IndexOf(g[i]) >= 0
  {
  }

  lemma BadTextFails(s: string)
    requires DecodedBase64Size(s) == None
    ensures Decode(s) == None
  {
    if Decode(s).Some? {
      DecodableMatches(s);
    }
  }

  lemma SizeMeaning(s: string) returns (k: int)
    requires DecodedBase64Size(s).Some?
    ensures |s| % 4 == 0 && Padded(s, k) && 0 <= k <= 2 && k <= |s|
    ensures DecodedBase64Size(s).value == |s| / 4 * 3 - k
  {
    k :| Padded(s, k);
    PaddingIs(s, k);
  }

  lemma DecodeStep(s: string)
    requires |s| >= 4
    ensures Decode(s) == Join(DecodeGroup(s[..4], |s| == 4), Decode(s[4..]))
  {
  }

  lemma DecodeEmpty(b: seq<Byte>)
    ensures Join(Some(b), Decode("")) == Some(b)
  {
    assert b + [] == b;
  }

  lemma JoinFails(a: seq<Byte>, c: Option<seq<Byte>>)
    ensures Join(Some(a), Join(None, c)) == None
  {
  }

  /** `decodeChunk`: the array has the size computed beforehand and is filled by index. It throws, on a bad text or on
      spare bits that are not zero, exactly when the text does not decode. */
  method DecodeChunk(value: string) returns (bytes: Option<array<Byte>>)
    ensures bytes.Some? ==> fresh(bytes.value) && Decode(value) == Some(bytes.value[..])
    ensures bytes == None ==> Decode(value) == None
  {
    hide *;
    var size := DecodedBase64Size(value);
    if size == None {
      BadTextFails(value);
      return None;
    }
    ghost var k := SizeMeaning(value);
    var result := new Byte[size.value];
    var position := 0;
    var i := 0;
    assert value[0..] == value && result[..0] == [];
    JoinEmpty(Decode(value));
    while i < |value|
      invariant 0 <= i <= |value| && i % 4 == 0
      invariant position == if i == |value| then result.Length else i / 4 * 3
      invariant result.Length == |value| / 4 * 3 - k && position <= result.Length
      invariant Decode(value) == Join(Some(result[..position]), Decode(value[i..]))
    {
      DecodeStep(value[i..]);
      assert value[i..][4..] == value[i + 4..] && value[i..][..4] == value[i..i + 4];
      ghost var g, before, rest := DecodeGroup(value[i..i + 4], i + 4 == |value|), result[..position], value[i + 4..];
      var ok;
      ok, position := DecodeOneGroup(value, i, result, position, k);
      if !ok {
        JoinFails(before, Decode(rest));
        return None;
      }
      JoinAssociates(before, g.value, Decode(rest));
      i := i + 4;
    }
    assert result[..position] == result[..] && value[i..] == [];
    DecodeEmpty(result[..]);
    bytes := Some(result);
  }

  // In a matching text only the last group can hold padding, and only in its third and fourth places.
  lemma GroupInPattern(s: string, k: int, i: nat)
    requires Padded(s, k) && |s| % 4 == 0 && i % 4 == 0 && i < |s|
    ensures i + 4 <= |s| && IndexOf(s[i]) >= 0 && IndexOf(s[i + 1]) >= 0
    ensures s[i + 2] == '=' <==> i + 4 == |s| && k == 2
    ensures s[i + 3] == '=' <==> i + 4 == |s| && k >= 1
    ensures s[i + 2] != '=' ==> IndexOf(s[i + 2]) >= 0
    ensures s[i + 3] != '=' ==> IndexOf(s[i + 3]) >= 0
  {
    LetterOfIndex('=');
    assert i + 4 <= |s|;
  }

  lemma LettersInRange(g: string)
    requires |g| == 4
    ensures forall i :: 0 <= i < 4 ==> -1 <= IndexOf(g[i]) < 64
  {
  }

  // One round of the loop: four characters at `i`; false if it throws.
  method DecodeOneGroup(value: string, i: nat, result: array<Byte>, start: nat, ghost k: int)
    returns (ok: bool, position: nat)
    requires Padded(value, k) && |value| % 4 == 0 && i % 4 == 0 && i + 4 <= |value|
    requires result.Length == |value| / 4 * 3 - k && start == i / 4 * 3 && start <= result.Length
    modifies result
    ensures ok <==> DecodeGroup(value[i..i + 4], i + 4 == |value|).Some?
    ensures ok ==>
      && position == (if i + 4 == |value| then result.Length else start + 3) <= result.Length
      && result[..position] == old(result[..start]) + DecodeGroup(value[i..i + 4], i + 4 == |value|).value
  {
    hide IndexOf, DecodeGroup;
    ghost var g := value[i..i + 4];
    GroupInPattern(value, k, i);
    LettersInRange(g);
    hide Padded;
    var a, b := IndexOf(value[i]), IndexOf(value[i + 1]);
    var c := if value[i + 2] == '=' then 0 else IndexOf(value[i + 2]);
    var d := if value[i + 3] == '=' then 0 else IndexOf(value[i + 3]);
    assert g[0] == value[i] && g[1] == value[i + 1] && g[2] == value[i + 2] && g[3] == value[i + 3];
    if (value[i + 2] == '=' && b % 16 != 0) || (value[i + 3] == '=' && value[i + 2] != '=' && c % 4 != 0) {
      GroupFails(g, i + 4 == |value|);
      return false, start;
    }
    ghost var pad := if i + 4 == |value| then k else 0;
    GroupGives(g, i + 4 == |value|, pad, a, b, c, d);
    Fields(a, b, c, d);
    position := Fill(result, start, a * 0x4_0000 + b * 0x1000 + c * 0x40 + d);
    ok := true;
  }

  // Three bytes of the bits, or as many as there is room for.
  method Fill(result: array<Byte>, start: nat, bits: nat) returns (position: nat)
    requires start <= result.Length && bits / 0x1_0000 < 256
    modifies result
    ensures var three := [bits / 0x1_0000, bits / 0x100 % 256, bits % 256];
      && position == (if start + 3 <= result.Length then start + 3 else result.Length)
      && result[..position] == old(result[..start]) + three[..position - start]
  {
    position := start;
    if position < result.Length {
      result[position] := bits / 0x1_0000;
      position := position + 1;
    }
    if position < result.Length {
      result[position] := bits / 0x100 % 256;
      position := position + 1;
    }
    if position < result.Length {
      result[position] := bits % 256;
      position := position + 1;
    }
  }

  lemma JoinAssociates(a: seq<Byte>, b: seq<Byte>, c: Option<seq<Byte>>)
    ensures Join(Some(a), Join(Some(b), c)) == Join(Some(a + b), c)
  {
    if c.Some? {
      assert a + (b + c.value) == a + b + c.value;
    }
  }

  lemma GroupFails(g: string, last: bool)
    requires |g| == 4
    requires (g[2] == '=' && IndexOf(g[1]) % 16 != 0) || (g[3] == '=' && g[2] != '=' && IndexOf(g[2]) % 4 != 0)
    ensures DecodeGroup(g, last) == None
  {
    hide IndexOf;
  }

  lemma GroupGives(g: string, last: bool, pad: int, a: Sextet, b: Sextet, c: Sextet, d: Sextet)
    requires |g| == 4 && 0 <= pad <= 2 && (pad > 0 ==> last)
    requires a == IndexOf(g[0]) && b == IndexOf(g[1])
    requires g[2] == '=' <==> pad == 2
    requires g[3] == '=' <==> pad >= 1
    requires c == (if g[2] == '=' then 0 else IndexOf(g[2])) && d == (if g[3] == '=' then 0 else IndexOf(g[3]))
    requires (pad == 2 ==> b % 16 == 0) && (pad == 1 ==> c % 4 == 0)
    ensures DecodeGroup(g, last) == Some([a * 4 + b / 16, b % 16 * 16 + c / 4, c % 4 * 64 + d][..3 - pad])
  {
    hide IndexOf;
    Regroup(a, b, c, d);
    var x, y, z := a * 4 + b / 16, b % 16 * 16 + c / 4, c % 4 * 64 + d;
    assert [x, y, z][..3] == [x, y, z] && [x, y, z][..2] == [x, y] && [x, y, z][..1] == [x];
  }

  lemma Fields(a: Sextet, b: Sextet, c: Sextet, d: Sextet)
    ensures var bits := a * 0x4_0000 + b * 0x1000 + c * 0x40 + d;
      && bits / 0x1_0000 == a * 4 + b / 16 < 256
      && bits / 0x100 % 256 == b % 16 * 16 + c / 4
      && bits % 256 == c % 4 * 64 + d
  {
    Regroup(a, b, c, d);
    var bits, x, y, z := a * 0x4_0000 + b * 0x1000 + c * 0x40 + d, a * 4 + b / 16, b % 16 * 16 + c / 4, c % 4 * 64 + d;
    assert b == b / 16 * 16 + b % 16 && c == c / 4 * 4 + c % 4;
    assert bits == x * 0x1_0000 + y * 0x100 + z;
    Split(x, y, z);
  }

  lemma Split(x: Byte, y: Byte, z: Byte)
    ensures var bits := x * 0x1_0000 + y * 0x100 + z;
      bits / 0x1_0000 == x && bits / 0x100 % 256 == y && bits % 256 == z
  {
    var bits := x * 0x1_0000 + y * 0x100 + z;
    assert bits / 0x100 == x * 256 + y;
  }
}
