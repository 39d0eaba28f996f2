/** Canonical, unpadded base64url over the platform's `btoa` and `atob`. */
module Base64Url {
  import opened Wrappers

  /** A byte and a sextet by their bits, the highest first. */
  datatype Byte = Byte(b7: bool, b6: bool, b5: bool, b4: bool, b3: bool, b2: bool, b1: bool, b0: bool)
  datatype Sextet = Sextet(s5: bool, s4: bool, s3: bool, s2: bool, s1: bool, s0: bool)

  const NO_BYTE := Byte(false, false, false, false, false, false, false, false)

  // ---- sections 4 and 5 of RFC 4648 ----------------------------------------------------

  function S1(a: Byte): Sextet { Sextet(a.b7, a.b6, a.b5, a.b4, a.b3, a.b2) }
  function S2(a: Byte, b: Byte): Sextet { Sextet(a.b1, a.b0, b.b7, b.b6, b.b5, b.b4) }
  function S3(b: Byte, c: Byte): Sextet { Sextet(b.b3, b.b2, b.b1, b.b0, c.b7, c.b6) }
  function S4(c: Byte): Sextet { Sextet(c.b5, c.b4, c.b3, c.b2, c.b1, c.b0) }

  function B1(x: Sextet, y: Sextet): Byte { Byte(x.s5, x.s4, x.s3, x.s2, x.s1, x.s0, y.s5, y.s4) }
  function B2(y: Sextet, z: Sextet): Byte { Byte(y.s3, y.s2, y.s1, y.s0, z.s5, z.s4, z.s3, z.s2) }
  function B3(z: Sextet, w: Sextet): Byte { Byte(z.s1, z.s0, w.s5, w.s4, w.s3, w.s2, w.s1, w.s0) }

  /** Three bytes are four sextets; one or two bytes leave two or three, the last one's low bits zero. */
  function Sextets(b: seq<Byte>): seq<Sextet> {
    if |b| == 0 then []
    else if |b| == 1 then [S1(b[0]), S2(b[0], NO_BYTE)]
    else if |b| == 2 then [S1(b[0]), S2(b[0], b[1]), S3(b[1], NO_BYTE)]
    else [S1(b[0]), S2(b[0], b[1]), S3(b[1], b[2]), S4(b[2])] + Sextets(b[3..])
  }

  /** So many sextets can be: any number but one past whole groups of four. */
  predicate Possible(n: nat) {
    if n < 4 then n != 1 else Possible(n - 4)
  }

  lemma {:induction false} PossibleIs(n: nat)
    ensures Possible(n) <==> n % 4 != 1
  {
    if n >= 4 {
      PossibleIs(n - 4);
    }
  }

  /** The bytes of whole sextets; bits left over at the end are dropped. */
  function Bytes(s: seq<Sextet>): seq<Byte>
    requires Possible(|s|)
  {
    if |s| == 0 then []
    else if |s| == 2 then [B1(s[0], s[1])]
    else if |s| == 3 then [B1(s[0], s[1]), B2(s[1], s[2])]
    else [B1(s[0], s[1]), B2(s[1], s[2]), B3(s[2], s[3])] + Bytes(s[4..])
  }

  predicate LowTwoZero(x: Sextet) { !x.s1 && !x.s0 }
  predicate LowFourZero(x: Sextet) { !x.s3 && !x.s2 && LowTwoZero(x) }

  /** Section 3.5: the bits past the last byte are zero. */
  predicate TrailingBitsZero(s: seq<Sextet>) {
    && (|s| % 4 == 2 ==> LowFourZero(s[|s| - 1]))
    && (|s| % 4 == 3 ==> LowTwoZero(s[|s| - 1]))
  }

  /** The same, group after group. */
  predicate Clean(s: seq<Sextet>) {
    if |s| >= 4 then Clean(s[4..])
    else (|s| == 2 ==> LowFourZero(s[1])) && (|s| == 3 ==> LowTwoZero(s[2]))
  }

  lemma SameTail(s: seq<Sextet>)
    requires |s| >= 4
    ensures TrailingBitsZero(s[4..]) <==> TrailingBitsZero(s)
  {
    var rest := s[4..];
    assert |s| % 4 == |rest| % 4;
    if |rest| > 0 {
      assert s[|s| - 1] == rest[|rest| - 1];
    }
  }

  lemma {:induction false} CleanIs(s: seq<Sextet>)
    ensures Clean(s) <==> TrailingBitsZero(s)
  {
    if |s| >= 4 {
      CleanIs(s[4..]);
      SameTail(s);
    }
  }

  function Number(x: Sextet): (n: int)
    ensures 0 <= n < 64
  {
    (if x.s5 then 32 else 0) + (if x.s4 then 16 else 0) + (if x.s3 then 8 else 0)
    + (if x.s2 then 4 else 0) + (if x.s1 then 2 else 0) + (if x.s0 then 1 else 0)
  }

  function Numbered(n: int): Sextet {
    var a := if n >= 32 then n - 32 else n;
    var b := if a >= 16 then a - 16 else a;
    var c := if b >= 8 then b - 8 else b;
    var d := if c >= 4 then c - 4 else c;
    var e := if d >= 2 then d - 2 else d;
    Sextet(n >= 32, a >= 16, b >= 8, c >= 4, d >= 2, e >= 1)
  }

  lemma NumberBack(x: Sextet)
    ensures Numbered(Number(x)) == x
  {
  }

  lemma NumberForth(n: int)
    requires 0 <= n < 64
    ensures Number(Numbered(n)) == n
  {
  }

  function CharOf(n: int): char
    requires 0 <= n < 64
  {
    if n < 26 then ('A' as int + n) as char
    else if n < 52 then ('a' as int + n - 26) as char
    else if n < 62 then ('0' as int + n - 52) as char
    else if n == 62 then '+' else '/'
  }

  function NumberOf(c: char): (n: Option<int>)
    ensures n.Some? ==> 0 <= n.value < 64 && CharOf(n.value) == c
  {
    if 'A' <= c <= 'Z' then Some(c as int - 'A' as int)
    else if 'a' <= c <= 'z' then Some(c as int - 'a' as int + 26)
    else if '0' <= c <= '9' then Some(c as int - '0' as int + 52)
    else if c == '+' then Some(62) else if c == '/' then Some(63) else None
  }

  function StandardChar(x: Sextet): char {
    CharOf(Number(x))
  }

  function StandardValue(c: char): Option<Sextet> {
    if NumberOf(c).Some? then Some(Numbered(NumberOf(c).value)) else None
  }

  function Spelled(s: seq<Sextet>): string {
    seq(|s|, i requires 0 <= i < |s| => StandardChar(s[i]))
  }

  // ---- the platform's functions --------------------------------------------------------

  function Btoa(b: seq<Byte>): string {
    Spelled(Sextets(b)) + if |b| % 3 == 1 then "==" else if |b| % 3 == 2 then "=" else ""
  }

  predicate AllStandard(s: string) {
    forall i :: 0 <= i < |s| ==> StandardValue(s[i]).Some?
  }

  function Values(s: string): seq<Sextet>
    requires AllStandard(s)
  {
    seq(|s|, i requires 0 <= i < |s| => StandardValue(s[i]).value)
  }

  /** Up to two padding marks go when they fill the length. */
  function Bare(s: string): string {
    var n := |s|;
    if n > 0 && n % 4 == 0 && s[n - 1] == '=' then (if s[n - 2] == '=' then s[..n - 2] else s[..n - 1]) else s
  }

  /** The forgiving decoder: left-over bits are ignored. */
  function Atob(s: string): Option<seq<Byte>> {
    var bare := Bare(s);
    PossibleIs(|bare|);
    if |bare| % 4 == 1 || !AllStandard(bare) then None else Some(Bytes(Values(bare)))
  }

  // ---- the repository's functions ------------------------------------------------------

  function Replaced(s: string, from: char, to: char): (r: string)
    ensures |r| == |s|
    ensures forall i :: 0 <= i < |s| ==> r[i] == if s[i] == from then to else s[i]
  {
    seq(|s|, i requires 0 <= i < |s| => if s[i] == from then to else s[i])
  }

  function Unpadded(s: string): string {
    if s != "" && s[|s| - 1] == '=' then Unpadded(s[..|s| - 1]) else s
  }

  function Encode(b: seq<Byte>): string {
    Unpadded(Replaced(Replaced(Btoa(b), '+', '-'), '/', '_'))
  }

  predicate UrlChar(c: char) {
    'A' <= c <= 'Z' || 'a' <= c <= 'z' || '0' <= c <= '9' || c == '_' || c == '-'
  }

  predicate AllUrl(v: string) {
    forall i :: 0 <= i < |v| ==> UrlChar(v[i])
  }

  function Padding(n: nat): string {
    if n % 4 == 2 then "==" else if n % 4 == 3 then "=" else if n % 4 == 1 then "===" else ""
  }

  function Standard(v: string): string {
    Replaced(Replaced(v, '-', '+'), '_', '/')
  }

  function Decode(v: string): Option<seq<Byte>> {
    if !AllUrl(v) || |v| % 4 == 1 then None
    else
      var binary := Atob(Standard(v) + Padding(|v|));
      if binary.None? || Encode(binary.value) != v then None else binary
  }

  // ---- sextets and bytes are inverse ---------------------------------------------------

  lemma GroupReads(x: Sextet, y: Sextet, z: Sextet, w: Sextet, rest: seq<Sextet>)
    requires Possible(|rest|)
    ensures Possible(|[x, y, z, w] + rest|)
    ensures Bytes([x, y, z, w] + rest) == [B1(x, y), B2(y, z), B3(z, w)] + Bytes(rest)
    ensures Clean([x, y, z, w] + rest) <==> Clean(rest)
  {
    assert ([x, y, z, w] + rest)[4..] == rest;
  }

  lemma GroupWrites(a: Byte, b: Byte, c: Byte, rest: seq<Byte>)
    ensures Sextets([a, b, c] + rest) == [S1(a), S2(a, b), S3(b, c), S4(c)] + Sextets(rest)
  {
    assert ([a, b, c] + rest)[3..] == rest;
  }

  lemma {:induction false} BytesOfSextets(b: seq<Byte>)
    ensures Possible(|Sextets(b)|) && Bytes(Sextets(b)) == b && Clean(Sextets(b))
  {
    if |b| == 1 {
      OneGroup(b[0]);
    } else if |b| == 2 {
      TwoGroup(b[0], b[1]);
    } else if |b| >= 3 {
      BytesOfSextets(b[3..]);
      WholeGroup(b[0], b[1], b[2], Sextets(b[3..]));
      assert b == [b[0], b[1], b[2]] + b[3..];
    }
  }

  lemma OneGroup(a: Byte)
    ensures Bytes([S1(a), S2(a, NO_BYTE)]) == [a] && Clean([S1(a), S2(a, NO_BYTE)])
  {
  }

  lemma TwoGroup(a: Byte, b: Byte)
    ensures Bytes([S1(a), S2(a, b), S3(b, NO_BYTE)]) == [a, b] && Clean([S1(a), S2(a, b), S3(b, NO_BYTE)])
  {
  }

  lemma WholeGroup(a: Byte, b: Byte, c: Byte, rest: seq<Sextet>)
    requires Possible(|rest|) && Clean(rest)
    ensures var s := [S1(a), S2(a, b), S3(b, c), S4(c)] + rest;
      Possible(|s|) && Bytes(s) == [a, b, c] + Bytes(rest) && Clean(s)
  {
    GroupReads(S1(a), S2(a, b), S3(b, c), S4(c), rest);
  }

  lemma PairWrites(x: Sextet, y: Sextet)
    ensures Sextets([B1(x, y)]) == [x, y] <==> LowFourZero(y)
    ensures |Sextets([B1(x, y)])| == 2
  {
  }

  lemma TripleWrites(x: Sextet, y: Sextet, z: Sextet)
    ensures Sextets([B1(x, y), B2(y, z)]) == [x, y, z] <==> LowTwoZero(z)
    ensures |Sextets([B1(x, y), B2(y, z)])| == 3
  {
  }

  lemma WholeWrites(x: Sextet, y: Sextet, z: Sextet, w: Sextet, rest: seq<Byte>)
    ensures Sextets([B1(x, y), B2(y, z), B3(z, w)] + rest) == [x, y, z, w] + Sextets(rest)
  {
    GroupWrites(B1(x, y), B2(y, z), B3(z, w), rest);
  }

  lemma {:induction false} SextetsOfBytes(s: seq<Sextet>)
    requires Possible(|s|)
    ensures |Sextets(Bytes(s))| == |s|
    ensures Sextets(Bytes(s)) == s <==> Clean(s)
  {
    if |s| == 2 {
      PairWrites(s[0], s[1]);
      assert s == [s[0], s[1]];
    } else if |s| == 3 {
      TripleWrites(s[0], s[1], s[2]);
      assert s == [s[0], s[1], s[2]];
    } else if |s| >= 4 {
      var rest := s[4..];
      SextetsOfBytes(rest);
      WholeWrites(s[0], s[1], s[2], s[3], Bytes(rest));
      assert s == [s[0], s[1], s[2], s[3]] + rest;
      assert Sextets(Bytes(s))[4..] == Sextets(Bytes(rest));
    }
  }

  // ---- the spelling and its inverse ----------------------------------------------------

  /** The URL spelling of a sextet, section 5. */
  function UrlSpelling(x: Sextet): char {
    if Number(x) == 62 then '-' else if Number(x) == 63 then '_' else StandardChar(x)
  }

  lemma {:induction false} UnpaddedOf(s: string, marks: string)
    requires forall i :: 0 <= i < |marks| ==> marks[i] == '='
    requires forall i :: 0 <= i < |s| ==> s[i] != '='
    ensures Unpadded(s + marks) == s
    decreases |marks|
  {
    if |marks| == 0 {
      assert s + marks == s;
    } else {
      assert (s + marks)[..|s + marks| - 1] == s + marks[..|marks| - 1];
      UnpaddedOf(s, marks[..|marks| - 1]);
    }
  }

  lemma EncodeSpells(b: seq<Byte>)
    ensures |Encode(b)| == |Sextets(b)|
    ensures forall i :: 0 <= i < |Sextets(b)| ==> Encode(b)[i] == UrlSpelling(Sextets(b)[i])
  {
    var s := Sextets(b);
    var text := Replaced(Replaced(Btoa(b), '+', '-'), '/', '_');
    var bare, marks := text[..|s|], text[|s|..];
    assert text == bare + marks;
    forall i | 0 <= i < |s|
      ensures bare[i] == UrlSpelling(s[i])
    {
      assert Btoa(b)[i] == Spelled(s)[i];
    }
    UnpaddedOf(bare, marks);
  }

  /** The URL spelling put back into the standard alphabet. */
  function StandardOf(c: char): char {
    if c == '-' then '+' else if c == '_' then '/' else c
  }

  lemma CharBack(n: int)
    requires 0 <= n < 64
    ensures NumberOf(StandardOf(if n == 62 then '-' else if n == 63 then '_' else CharOf(n))) == Some(n)
  {
  }

  lemma SpellingBack(x: Sextet)
    ensures StandardValue(StandardOf(UrlSpelling(x))) == Some(x)
  {
    NumberBack(x);
    CharBack(Number(x));
  }

  lemma SpellingsDiffer(x: Sextet, y: Sextet)
    ensures UrlSpelling(x) == UrlSpelling(y) ==> x == y
  {
    SpellingBack(x);
    SpellingBack(y);
  }

  lemma CharRead(c: char)
    requires UrlChar(c)
    ensures var d := StandardOf(c);
      StandardValue(d).Some? && d != '=' && UrlSpelling(StandardValue(d).value) == c
  {
    NumberForth(NumberOf(StandardOf(c)).value);
  }

  lemma StandardReads(v: string)
    requires AllUrl(v)
    ensures AllStandard(Standard(v))
    ensures forall i :: 0 <= i < |v| ==> Standard(v)[i] != '='
    ensures forall i :: 0 <= i < |v| ==> UrlSpelling(Values(Standard(v))[i]) == v[i]
  {
    forall i | 0 <= i < |v|
      ensures StandardValue(Standard(v)[i]).Some? && Standard(v)[i] != '='
        && UrlSpelling(StandardValue(Standard(v)[i]).value) == v[i]
    {
      CharRead(v[i]);
    }
  }

  /** The padding added goes again, and only it. */
  lemma PaddingGoes(s: string)
    requires |s| % 4 != 1 && forall i :: 0 <= i < |s| ==> s[i] != '='
    ensures Bare(s + Padding(|s|)) == s
  {
    var t := s + Padding(|s|);
    assert t[..|s|] == s;
    if |s| % 4 == 0 {
      assert t == s;
    } else {
      assert |t| % 4 == 0 && t[|t| - 1] == '=';
      assert t[|t| - 2] == if |s| % 4 == 2 then '=' else s[|s| - 1];
    }
  }

  lemma AtobUnpads(s: string)
    requires AllStandard(s) && |s| % 4 != 1 && forall i :: 0 <= i < |s| ==> s[i] != '='
    ensures Possible(|s|) && Atob(s + Padding(|s|)) == Some(Bytes(Values(s)))
  {
    PossibleIs(|s|);
    PaddingGoes(s);
  }

  /** Decoding asks the sextets of `v` for their bytes, whatever the marks added. */
  lemma AtobReads(v: string)
    requires AllUrl(v) && |v| % 4 != 1
    ensures AllStandard(Standard(v)) && Possible(|v|)
    ensures Atob(Standard(v) + Padding(|v|)) == Some(Bytes(Values(Standard(v))))
    ensures forall i :: 0 <= i < |v| ==> UrlSpelling(Values(Standard(v))[i]) == v[i]
  {
    StandardReads(v);
    AtobUnpads(Standard(v));
  }

  // ---- the codec -----------------------------------------------------------------------

  /** Decoding inverts encoding on every byte string. */
  lemma {:induction false} DecodeEncode(b: seq<Byte>)
    ensures Decode(Encode(b)) == Some(b)
  {
    var v := Encode(b);
    EncodeSpells(b);
    BytesOfSextets(b);
    PossibleIs(|v|);
    assert AllUrl(v);
    AtobReads(v);
    var s := Values(Standard(v));
    forall i | 0 <= i < |v|
      ensures s[i] == Sextets(b)[i]
    {
      SpellingsDiffer(s[i], Sextets(b)[i]);
    }
    assert s == Sextets(b);
  }

  /** The sextets a text in the URL alphabet spells. */
  function SextetsSpelled(v: string): seq<Sextet>
    requires AllUrl(v)
  {
    seq(|v|, i requires 0 <= i < |v| =>
      CharRead(v[i]); StandardValue(StandardOf(v[i])).value)
  }

  /** What is accepted: exactly the texts in the URL alphabet, so without padding, of a
      possible length, whose left-over bits are zero. */
  lemma {:induction false} DecodeAccepts(v: string)
    ensures Decode(v).Some? <==> AllUrl(v) && |v| % 4 != 1 && TrailingBitsZero(SextetsSpelled(v))
  {
    if AllUrl(v) && |v| % 4 != 1 {
      AtobReads(v);
      var s := Values(Standard(v));
      assert s == SextetsSpelled(v) by {
        forall i | 0 <= i < |v| ensures s[i] == SextetsSpelled(v)[i] {
          SpellingsDiffer(s[i], SextetsSpelled(v)[i]);
        }
      }
      var b := Bytes(s);
      EncodeSpells(b);
      SextetsOfBytes(s);
      CleanIs(s);
      if Encode(b) == v {
        forall i | 0 <= i < |v|
          ensures Sextets(b)[i] == s[i]
        {
          SpellingsDiffer(Sextets(b)[i], s[i]);
        }
        assert Sextets(b) == s;
      }
      if Sextets(b) == s {
        assert forall i :: 0 <= i < |v| ==> Encode(b)[i] == v[i];
      }
    }
  }

  /** What is accepted is exactly what the encoder writes, so no two texts decode alike. */
  lemma AcceptsEncodings(v: string)
    ensures Decode(v).Some? <==> exists b :: Encode(b) == v
    ensures Decode(v).Some? ==> Encode(Decode(v).value) == v
  {
    if b :| Encode(b) == v {
      DecodeEncode(b);
    }
  }
}
