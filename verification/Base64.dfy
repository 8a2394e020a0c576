/**
 Base64 as in section 4 of RFC 4648, with the decoder's leniencies: whitespace is skipped, the URL-safe
 alphabet of section 5 is accepted as well, and spare bits before the padding are ignored.

 Shifts and masks on unsigned values are written as division and remainder by powers of two.
 */
module Base64 {
  import opened Common

  newtype byte = x: int | 0 <= x < 256

  const UPPER: string := "ABCDEFGHIJKLMNOPQRSTUVWXYZ"
  const LOWER: string := "abcdefghijklmnopqrstuvwxyz"
  const DIGITS: string := "0123456789"
  const ALPHABET: string := UPPER + LOWER + DIGITS + "+/"
  const PAD: int := -2
  const SPACE: int := -3
  const BAD: int := -1

  /** The value of a character: 0 to 63, or one of the codes for padding, whitespace and anything else. */
  function Index(ch: char): (r: int)
    ensures -3 <= r < 64
  {
    if 'A' <= ch <= 'Z' then ch as int - 'A' as int
    else if 'a' <= ch <= 'z' then ch as int - 'a' as int + 26
    else if '0' <= ch <= '9' then ch as int - '0' as int + 52
    else if ch == '+' || ch == '-' then 62
    else if ch == '/' || ch == '_' then 63
    else if ch == '=' then PAD
    else if ch == ' ' || ch == '\n' || ch == '\r' || ch == '\t' then SPACE
    else BAD
  }

  /** The character for a six-bit value. */
  function Digit(v: int): char
    requires 0 <= v < 64
  {
    if v < 26 then ('A' as int + v) as char
    else if v < 52 then ('a' as int + v - 26) as char
    else if v < 62 then ('0' as int + v - 52) as char
    else if v == 62 then '+' else '/'
  }

  /** Digit is the table of section 4. */
  lemma DigitTable(v: int)
    requires 0 <= v < 64
    ensures |ALPHABET| == 64 && Digit(v) == ALPHABET[v]
  {
    if v < 26 {
      assert UPPER[v] == ('A' as int + v) as char;
    } else if v < 52 {
      assert LOWER[v - 26] == ('a' as int + v - 26) as char;
    } else if v < 62 {
      assert DIGITS[v - 52] == ('0' as int + v - 52) as char;
    }
  }

  /** The standard alphabet is inverted exactly; '-' and '_' are other characters for 62 and 63. */
  lemma DigitsAndIndices(v: int, ch: char)
    requires 0 <= v < 64
    ensures Index(Digit(v)) == v && Digit(v) != '-' && Digit(v) != '_'
    ensures 0 <= Index(ch) && ch != '-' && ch != '_' ==> Digit(Index(ch)) == ch
  {
  }

  // ---- three bytes and four sextets ------------------------------------------------------------

  function Triple(a: int, b: int, c: int): int {
    a * 0x1_0000 + b * 0x100 + c
  }

  /** The k-th six-bit group of a 24-bit value, from the left. */
  function Sextet(triple: int, k: nat): (v: int)
    requires k < 4
    ensures 0 <= v < 64
  {
    if k == 0 then triple / 0x4_0000 % 64 else if k == 1 then triple / 0x1000 % 64
    else if k == 2 then triple / 64 % 64 else triple % 64
  }

  function Joined(s0: int, s1: int, s2: int, s3: int): int {
    s0 * 0x4_0000 + s1 * 0x1000 + s2 * 64 + s3
  }

  /** The k-th byte of a 24-bit value, from the left. */
  function Octet(triple: int, k: nat): (v: byte)
    requires k < 3
  {
    if k == 0 then (triple / 0x1_0000 % 256) as byte
    else if k == 1 then (triple / 0x100 % 256) as byte else (triple % 256) as byte
  }

  predicate IsSextet(v: int) {
    0 <= v < 64
  }

  /** Cutting three bytes into sextets. */
  lemma SextetsAre(a: byte, b: byte, c: byte)
    ensures var t := Triple(a as int, b as int, c as int);
            && Sextet(t, 0) == a as int / 4
            && Sextet(t, 1) == a as int % 4 * 16 + b as int / 16
            && Sextet(t, 2) == b as int % 16 * 4 + c as int / 64
            && Sextet(t, 3) == c as int % 64
  {
    var t := Triple(a as int, b as int, c as int);
    Quotient(t, 0x4_0000, a as int / 4, a as int % 4 * 0x1_0000 + b as int * 0x100 + c as int);
    Quotient(t, 0x1000, a as int * 16 + b as int / 16, b as int % 16 * 0x100 + c as int);
    Quotient(t, 64, a as int * 0x400 + b as int * 4 + c as int / 64, c as int % 64);
    Quotient(a as int * 16 + b as int / 16, 64, a as int / 4, a as int % 4 * 16 + b as int / 16);
    Quotient(a as int * 0x400 + b as int * 4 + c as int / 64, 64, a as int * 16 + b as int / 16,
             b as int % 16 * 4 + c as int / 64);
  }

  lemma Quotient(x: int, m: int, q: int, r: int)
    requires m in {64, 256, 0x1000, 0x1_0000, 0x4_0000} && x == q * m + r && 0 <= r < m
    ensures x / m == q && x % m == r
  {
    if m == 64 {} else if m == 256 {} else if m == 0x1000 {} else if m == 0x1_0000 {} else {}
  }

  /** Cutting four sextets into bytes. */
  lemma OctetsAre(s0: int, s1: int, s2: int, s3: int)
    requires IsSextet(s0) && IsSextet(s1) && IsSextet(s2) && IsSextet(s3)
    ensures var t := Joined(s0, s1, s2, s3);
            && Octet(t, 0) as int == s0 * 4 + s1 / 16
            && Octet(t, 1) as int == s1 % 16 * 16 + s2 / 4
            && Octet(t, 2) as int == s2 % 4 * 64 + s3
  {
    var t := Joined(s0, s1, s2, s3);
    Quotient(t, 0x1_0000, s0 * 4 + s1 / 16, s1 % 16 * 0x1000 + s2 * 64 + s3);
    Quotient(t, 256, s0 * 0x400 + s1 * 16 + s2 / 4, s2 % 4 * 64 + s3);
    Quotient(s0 * 0x400 + s1 * 16 + s2 / 4, 256, s0 * 4 + s1 / 16, s1 % 16 * 16 + s2 / 4);
  }

  // ---- encoding --------------------------------------------------------------------------------

  function Quad(triple: int): (r: string)
    ensures |r| == 4
  {
    [Digit(Sextet(triple, 0)), Digit(Sextet(triple, 1)), Digit(Sextet(triple, 2)), Digit(Sextet(triple, 3))]
  }

  /** The encoding of section 4: groups of three bytes, the last one padded. */
  function Encode(data: seq<byte>): string {
    if |data| == 0 then ""
    else if |data| == 1 then Quad(Triple(data[0] as int, 0, 0))[..2] + "=="
    else if |data| == 2 then Quad(Triple(data[0] as int, data[1] as int, 0))[..3] + "="
    else Quad(Triple(data[0] as int, data[1] as int, data[2] as int)) + Encode(data[3..])
  }

  /** The 24-bit group at the front, filled up with zeros. */
  function FrontTriple(data: seq<byte>): int
    requires data != []
  {
    Triple(data[0] as int, if |data| > 1 then data[1] as int else 0, if |data| > 2 then data[2] as int else 0)
  }

  /** What the encoding loop writes before the padding overwrites its end. */
  function Unpadded(data: seq<byte>): string {
    if data == [] then "" else Quad(FrontTriple(data)) + if |data| > 3 then Unpadded(data[3..]) else ""
  }

  function PadLast(u: string, rest: nat): string
    requires |u| >= 2
  {
    if rest == 1 then u[..|u| - 2] + "==" else if rest == 2 then u[..|u| - 1] + "=" else u
  }

  lemma PadBehind(q: string, u: string, rest: nat)
    requires |u| >= 2
    ensures PadLast(q + u, rest) == q + PadLast(u, rest)
  {
  }

  lemma {:induction false} PaddingIs(data: seq<byte>)
    requires data != []
    ensures |Unpadded(data)| == |Encode(data)| == (|data| + 2) / 3 * 4
    ensures Encode(data) == PadLast(Unpadded(data), |data| % 3)
  {
    hide Quad, Triple, PadLast;
    if |data| > 3 {
      PaddingIs(data[3..]);
      PadBehind(Quad(FrontTriple(data)), Unpadded(data[3..]), |data| % 3);
    } else {
      PaddingShort(data);
    }
  }

  lemma PaddingShort(data: seq<byte>)
    requires 0 < |data| <= 3
    ensures |Unpadded(data)| == |Encode(data)| == 4
    ensures Encode(data) == PadLast(Unpadded(data), |data| % 3)
  {
    hide Quad, Triple;
    assert Unpadded(data) == Quad(FrontTriple(data));
    if |data| == 3 { assert data[3..] == []; }
  }

  method EncodeText(data: seq<byte>) returns (text: string)
    ensures text == Encode(data)
  {
    hide Quad, Triple, FrontTriple, Unpadded, Sextet, Encode, PadLast;
    var groups := (|data| + 2) / 3;
    var outLen := groups * 4;
    if data == [] { EmptyEncodes(); } else { PaddingIs(data); }
    var out := new char[outLen](k => ' ');
    var i, j := 0, 0;
    assert data[0..] == data;
    while i < |data|
      invariant 0 <= i <= |data| && 0 <= j <= outLen
      invariant i < |data| ==> i % 3 == 0 && j == i / 3 * 4
      invariant i == |data| ==> j == outLen && out[..j] == Unpadded(data)
      invariant i < |data| ==> out[..j] + Unpadded(data[i..]) == Unpadded(data)
    {
      ghost var done := out[..j];
      UnpaddedFront(data, i);
      var triple;
      triple, i := ReadGroup(data, i);
      var d2 := if i - 1 > |data| then '=' else Digit(Sextet(triple, 2));
      var d3 := if i > |data| then '=' else Digit(Sextet(triple, 3));
      QuadIs(triple);
      WriteQuad(out, j, Digit(Sextet(triple, 0)), Digit(Sextet(triple, 1)), d2, d3);
      j := j + 4;
      assert out[..j] == done + Quad(triple);
    }
    assert out[..] == out[..j];
    OverwritePadding(out, |data| % 3);
    text := out[..];
  }

  /** The padding replaces what the loop wrote for missing bytes. */
  method OverwritePadding(out: array<char>, rest: nat)
    requires out.Length >= 2 || rest == 0
    modifies out
    ensures out[..] == if out.Length < 2 then old(out[..]) else PadLast(old(out[..]), rest)
  {
    var outLen := out.Length;
    if rest == 1 {
      out[outLen - 2], out[outLen - 1] := '=', '=';
    } else if rest == 2 {
      out[outLen - 1] := '=';
    }
  }

  /** Read up to three bytes; missing ones count as zero. */
  method ReadGroup(data: seq<byte>, start: nat) returns (triple: int, i: nat)
    requires start < |data|
    ensures triple == FrontTriple(data[start..])
    ensures i == if start + 3 <= |data| then start + 3 else |data|
  {
    i := start;
    var a := data[i] as int;
    i := i + 1;
    var b := 0;
    if i < |data| { b, i := data[i] as int, i + 1; }
    var c := 0;
    if i < |data| { c, i := data[i] as int, i + 1; }
    triple := Triple(a, b, c);
    FrontIs(data, start);
  }

  method WriteQuad(out: array<char>, j: nat, c0: char, c1: char, c2: char, c3: char)
    requires j + 4 <= out.Length
    modifies out
    ensures out[..j + 4] == old(out[..j]) + [c0, c1, c2, c3]
  {
    out[j] := c0;
    out[j + 1] := c1;
    out[j + 2] := c2;
    out[j + 3] := c3;
  }

  lemma QuadIs(triple: int)
    ensures Quad(triple) ==
              [Digit(Sextet(triple, 0)), Digit(Sextet(triple, 1)), Digit(Sextet(triple, 2)), Digit(Sextet(triple, 3))]
  {
  }

  lemma EmptyEncodes()
    ensures Encode([]) == Unpadded([]) == ""
  {
  }

  lemma FrontIs(data: seq<byte>, i: nat)
    requires i < |data|
    ensures FrontTriple(data[i..]) ==
              Triple(data[i] as int, if i + 1 < |data| then data[i + 1] as int else 0,
                     if i + 2 < |data| then data[i + 2] as int else 0)
  {
  }

  lemma UnpaddedFront(data: seq<byte>, i: nat)
    requires i < |data|
    ensures Unpadded(data[i..]) ==
              Quad(FrontTriple(data[i..])) + if i + 3 < |data| then Unpadded(data[i + 3..]) else ""
  {
    hide Quad, FrontTriple;
    if i + 3 < |data| { assert data[i..][3..] == data[i + 3..]; }
  }

  // ---- decoding --------------------------------------------------------------------------------

  /** The values of the characters that are not whitespace. */
  function Clean(text: string): seq<int> {
    if text == "" then []
    else Clean(text[..|text| - 1]) + if Index(text[|text| - 1]) == SPACE then [] else [Index(text[|text| - 1])]
  }

  function QuadBytes(q: seq<int>): (r: seq<byte>)
    requires |q| == 4 && (forall k :: 0 <= k < 4 ==> q[k] < 64) && q[0] >= 0 && q[1] >= 0
    ensures |r| <= 3
  {
    var t := Joined(q[0], q[1], if q[2] >= 0 then q[2] else 0, if q[3] >= 0 then q[3] else 0);
    [Octet(t, 0)] + (if q[2] != PAD then [Octet(t, 1)] else []) + if q[3] != PAD then [Octet(t, 2)] else []
  }

  predicate CanRun(rest: seq<int>, quad: seq<int>) {
    (forall k :: 0 <= k < |quad| ==> quad[k] < 64) && (forall k :: 0 <= k < |rest| ==> rest[k] < 64)
  }

  /** The decoding loop from a partly filled quad on. */
  function Run(rest: seq<int>, quad: seq<int>, sawPad: bool, out: seq<byte>): Option<seq<byte>>
    requires |quad| < 4 && CanRun(rest, quad)
    decreases |rest|
  {
    if rest == [] then Some(out)
    else if rest[0] != PAD && sawPad then None
    else
      var q := quad + [rest[0]];
      var pad := sawPad || rest[0] == PAD;
      if |q| < 4 then Run(rest[1..], q, pad, out)
      else if q[0] < 0 || q[1] < 0 then None
      else Run(rest[1..], [], pad, out + QuadBytes(q))
  }

  lemma {:induction false} CleanBounds(text: string)
    ensures forall k :: 0 <= k < |Clean(text)| ==> -2 <= Clean(text)[k] < 64
    ensures |Clean(text)| <= |text|
  {
    if text != "" { CleanBounds(text[..|text| - 1]); }
  }

  /** Decoding as a whole: reject bad characters and lengths, then run. */
  function Decode(text: string): Option<seq<byte>> {
    CleanBounds(text);
    var c := Clean(text);
    if BAD in c || |c| % 4 != 0 then None else Run(c, [], false, [])
  }

  lemma {:induction false} CleanSplit(text: string, p: nat)
    requires p <= |text|
    ensures Clean(text) == Clean(text[..p]) + Clean(text[p..])
  {
    if p == |text| {
      assert text[..p] == text;
    } else {
      var init := text[..|text| - 1];
      CleanSplit(init, p);
      assert init[..p] == text[..p] && text[p..][..|text[p..]| - 1] == init[p..];
    }
  }

  lemma CleanFront(text: string, p: nat)
    requires p < |text|
    ensures Clean(text[p..]) == (if Index(text[p]) == SPACE then [] else [Index(text[p])]) + Clean(text[p + 1..])
  {
    CleanSplit(text[p..], 1);
    assert text[p..][..1] == [text[p]] && text[p..][1..] == text[p + 1..];
    assert [text[p]][..0] == "";
  }

  /** The first pass: reject bad characters and count the others. */
  method CountClean(text: string) returns (count: Option<nat>)
    ensures count == if BAD in Clean(text) then None else Some(|Clean(text)|)
  {
    var n := 0;
    var p := 0;
    while p < |text|
      invariant p <= |text| && n == |Clean(text[..p])| && BAD !in Clean(text[..p])
    {
      var index := Index(text[p]);
      assert text[..p + 1][..p] == text[..p];
      if index == BAD {
        CleanSplit(text, p + 1);
        return None;
      }
      if index != SPACE { n := n + 1; }
      p := p + 1;
    }
    assert text[..p] == text;
    count := Some(n);
  }

  method DecodeText(text: string) returns (r: Option<seq<byte>>)
    ensures r == Decode(text)
  {
    hide Clean, Decode, Index, QuadBytes, Octet, Run, CanRun;
    var count := CountClean(text);
    DecodeStart(text);
    if count.None? { return None; }
    if count.value == 0 { return Some([]); }
    if count.value % 4 != 0 { return None; }
    var max := count.value / 4 * 3;
    var out := new byte[max](k => 0);
    var quad: seq<int> := [];
    var written, sawPad, p := 0, false, 0;
    assert text[0..] == text && out[..0] == [];
    while p < |text|
      invariant p <= |text| && |quad| < 4 && 0 <= written <= max
      invariant CanRun(Clean(text[p..]), quad)
      invariant 4 * written + 3 * |Clean(text[p..])| + 3 * |quad| <= 3 * count.value
      invariant Run(Clean(text[p..]), quad, sawPad, out[..written]) == Decode(text)
    {
      var index := Index(text[p]);
      CleanFront(text, p);
      p := p + 1;
      if index == SPACE {
        assert [] + Clean(text[p..]) == Clean(text[p..]);
        continue;
      }
      ghost var done := out[..written];
      RunFront(index, Clean(text[p..]), quad, sawPad, done);
      if index != PAD && sawPad { return None; }
      sawPad := sawPad || index == PAD;
      quad := quad + [index];
      if |quad| != 4 { continue; }
      if quad[0] < 0 || quad[1] < 0 { return None; }
      var bytes := Emit(quad);
      WriteAll(out, written, bytes);
      written := written + |bytes|;
      quad := [];
    }
    RunEnd(text, p, quad, sawPad, out[..written]);
    r := Some(out[..written]);
  }

  /** The checks before the loop. */
  lemma DecodeStart(text: string)
    ensures var c := Clean(text);
            && CanRun(c, [])
            && Decode(text) == (if BAD in c || |c| % 4 != 0 then None else Run(c, [], false, []))
            && (|c| == 0 ==> Decode(text) == Some([]))
  {
    CleanBounds(text);
  }

  lemma RunEnd(text: string, p: nat, quad: seq<int>, sawPad: bool, out: seq<byte>)
    requires p == |text| && |quad| < 4 && CanRun(Clean(text[p..]), quad)
    ensures Run(Clean(text[p..]), quad, sawPad, out) == Some(out)
  {
    assert text[p..] == "";
  }

  lemma RunFront(index: int, rest: seq<int>, quad: seq<int>, sawPad: bool, out: seq<byte>)
    requires CanRun([index] + rest, quad) && |quad| < 4
    ensures CanRun(rest, quad) && forall k :: 0 <= k <= |quad| ==> (quad + [index])[k] < 64
    ensures CanRun([index] + rest, quad) && CanRun(rest, quad + [index]) && CanRun(rest, [])
    ensures var q, pad, run := quad + [index], sawPad || index == PAD, Run([index] + rest, quad, sawPad, out);
            run == if index != PAD && sawPad then None
                   else if |q| < 4 then Run(rest, q, pad, out)
                   else if q[0] < 0 || q[1] < 0 then None
                   else Run(rest, [], pad, out + QuadBytes(q))
  {
    assert ([index] + rest)[1..] == rest && ([index] + rest)[0] == index;
    assert forall k :: 0 <= k < |rest| ==> rest[k] == ([index] + rest)[k + 1];
  }

  /** The bytes of a full quad: one, two or three. */
  method Emit(q: seq<int>) returns (bytes: seq<byte>)
    requires |q| == 4 && (forall k :: 0 <= k < 4 ==> q[k] < 64) && q[0] >= 0 && q[1] >= 0
    ensures bytes == QuadBytes(q) && |bytes| <= 3
  {
    var triple := Joined(q[0], q[1], if q[2] >= 0 then q[2] else 0, if q[3] >= 0 then q[3] else 0);
    bytes := [Octet(triple, 0)];
    if q[2] != PAD { bytes := bytes + [Octet(triple, 1)]; }
    if q[3] != PAD { bytes := bytes + [Octet(triple, 2)]; }
  }

  /** Store bytes one after the other. */
  method WriteAll(out: array<byte>, at: nat, bytes: seq<byte>)
    requires at + |bytes| <= out.Length
    modifies out
    ensures out[..at + |bytes|] == old(out[..at]) + bytes
  {
    var k := 0;
    while k < |bytes|
      invariant k <= |bytes| && out[..at + k] == old(out[..at]) + bytes[..k]
    {
      out[at + k] := bytes[k];
      k := k + 1;
    }
    assert bytes[..k] == bytes;
  }
}
