/** Round trips of the encoder and the decoder, and exactly which texts decode. */
module Base64Theorems {
  import opened Common
  import opened Base64

  /** The decoding of whole quads. */
  function DecodeQuads(c: seq<int>): Option<seq<byte>>
    requires |c| % 4 == 0 && forall k :: 0 <= k < |c| ==> c[k] < 64
  {
    if c == [] then Some([])
    else if c[0] < 0 || c[1] < 0 then None
    else if c[2] == PAD && c[3] != PAD then None
    else if c[3] == PAD && |c| > 4 then None
    else
      var rest := DecodeQuads(c[4..]);
      if rest.None? then None else Some(QuadBytes(c[..4]) + rest.value)
  }

  predicate Digital(c: seq<int>) {
    forall k :: 0 <= k < |c| ==> PAD <= c[k] < 64 && c[k] != BAD
  }

  /** After a pad only pads are accepted, and a full quad of them is not. */
  lemma {:induction false} RunAfterPad(c: seq<int>, quad: seq<int>, out: seq<byte>)
    requires Digital(c) && |quad| < 4 && (|quad| + |c|) % 4 == 0 && c != []
    requires forall k :: 0 <= k < |quad| ==> quad[k] == PAD
    ensures CanRun(c, quad) && Run(c, quad, true, out) == None
    decreases |c|
  {
    if c[0] == PAD && |quad| < 3 {
      RunAfterPad(c[1..], quad + [c[0]], out);
    }
  }

  /** One quad of the loop. */
  lemma RunQuad(c: seq<int>, out: seq<byte>)
    requires Digital(c) && |c| >= 4
    ensures CanRun(c, []) && CanRun(c[4..], [])
    ensures Run(c, [], false, out) ==
              if c[0] == PAD || c[1] == PAD || (c[2] == PAD && c[3] != PAD) then None
              else Run(c[4..], [], c[3] == PAD, out + QuadBytes(c[..4]))
  {
    hide QuadBytes;
    var c1, c2, c3 := c[1..], c[2..], c[3..];
    assert c1[1..] == c2 && c2[1..] == c3 && c3[1..] == c[4..];
    var q1, q2, q3 := [c[0]], [c[0], c[1]], [c[0], c[1], c[2]];
    var p1, p2, p3 := c[0] == PAD, c[0] == PAD || c[1] == PAD, c[0] == PAD || c[1] == PAD || c[2] == PAD;
    assert [] + [c[0]] == q1 && q1 + [c[1]] == q2 && q2 + [c[2]] == q3 && q3 + [c[3]] == c[..4];
    assert Run(c, [], false, out) == Run(c1, q1, p1, out);
    assert c1[0] == c[1] && c2[0] == c[2] && c3[0] == c[3];
    assert Run(c1, q1, p1, out) == if c[1] != PAD && p1 then None else Run(c2, q2, p2, out);
    assert Run(c2, q2, p2, out) == if c[2] != PAD && p2 then None else Run(c3, q3, p3, out);
    assert Run(c3, q3, p3, out) ==
      if c[3] != PAD && p3 then None
      else if c[0] < 0 || c[1] < 0 then None
      else Run(c[4..], [], p3 || c[3] == PAD, out + QuadBytes(c[..4]));
  }

  /** The loop decodes quad by quad. */
  lemma {:induction false} RunIsQuads(c: seq<int>, out: seq<byte>)
    requires Digital(c) && |c| % 4 == 0
    ensures CanRun(c, [])
    ensures Run(c, [], false, out) ==
              match DecodeQuads(c) { case None => None case Some(bytes) => Some(out + bytes) }
    decreases |c|
  {
    hide QuadBytes, Run;
    if c == [] {
      RunNothing(out);
      assert out + [] == out;
    } else {
      RunQuad(c, out);
      var bytes := if c[0] >= 0 && c[1] >= 0 then QuadBytes(c[..4]) else [];
      if c[3] == PAD && |c| > 4 {
        RunAfterPad(c[4..], [], out + bytes);
      } else if c[3] == PAD {
        assert c[4..] == [];
        RunPadded(out + bytes);
        assert out + (bytes + []) == out + bytes;
      } else {
        RunIsQuads(c[4..], out + bytes);
        if c[0] >= 0 && c[1] >= 0 && DecodeQuads(c[4..]).Some? {
          assert out + (bytes + DecodeQuads(c[4..]).value) == out + bytes + DecodeQuads(c[4..]).value;
        }
      }
    }
  }

  lemma RunNothing(out: seq<byte>)
    ensures Run([], [], false, out) == Some(out)
  {
  }

  lemma RunPadded(out: seq<byte>)
    ensures Run([], [], true, out) == Some(out)
  {
  }

  lemma {:induction false} CleanDigital(text: string)
    requires BAD !in Clean(text)
    ensures Digital(Clean(text))
  {
    CleanBounds(text);
  }

  lemma DecodeIsQuads(text: string)
    ensures var c := Clean(text);
            if BAD in c || |c| % 4 != 0 then Decode(text) == None
            else Digital(c) && Decode(text) == DecodeQuads(c)
  {
    hide Run, DecodeQuads, Clean;
    var c := Clean(text);
    if BAD !in c && |c| % 4 == 0 {
      CleanDigital(text);
      RunIsQuads(c, []);
      if DecodeQuads(c).Some? { assert [] + DecodeQuads(c).value == DecodeQuads(c).value; }
    }
  }

  // ---- what decodes ----------------------------------------------------------------------------

  /** Whole quads of digits, of which the last may end in one or two pads. */
  predicate WellFormed(c: seq<int>) {
    && |c| % 4 == 0
    && (forall k :: 0 <= k < |c| - 2 ==> c[k] >= 0)
    && (c != [] ==> c[|c| - 2] != BAD && c[|c| - 1] != BAD && (c[|c| - 2] == PAD ==> c[|c| - 1] == PAD))
  }

  lemma {:induction false} QuadsDecodeIff(c: seq<int>)
    requires Digital(c) && |c| % 4 == 0
    ensures DecodeQuads(c).Some? <==> WellFormed(c)
    decreases |c|
  {
    hide QuadBytes;
    if |c| > 4 {
      QuadsDecodeIff(c[4..]);
      var d := c[4..];
      assert forall k :: 0 <= k < |d| ==> d[k] == c[k + 4];
      if WellFormed(c) {
        assert c[0] >= 0 && c[1] >= 0 && c[2] >= 0 && c[3] >= 0;
        assert forall k :: 0 <= k < |d| - 2 ==> d[k] == c[k + 4] >= 0;
      }
      if DecodeQuads(c).Some? {
        forall k | 0 <= k < |c| - 2
          ensures c[k] >= 0
        {
          if k >= 4 { assert c[k] == d[k - 4]; }
        }
      }
    } else if |c| == 4 {
      assert c[4..] == [];
    }
  }

  /** The decoder accepts exactly the texts that are well-formed once whitespace is removed. */
  lemma DecodesIff(text: string)
    ensures Decode(text).Some? <==> BAD !in Clean(text) && WellFormed(Clean(text))
  {
    hide Clean, Decode, DecodeQuads;
    DecodeIsQuads(text);
    var c := Clean(text);
    if BAD !in c && |c| % 4 == 0 { QuadsDecodeIff(c); }
  }

  /** Whitespace may be inserted anywhere. */
  lemma WhitespaceIgnored(before: string, spaces: string, after: string)
    requires forall k :: 0 <= k < |spaces| ==> Index(spaces[k]) == SPACE
    ensures Decode(before + spaces + after) == Decode(before + after)
  {
    hide Run, Index;
    var whole := before + spaces + after;
    CleanSplit(whole, |before| + |spaces|);
    CleanSplit(before + spaces, |before|);
    CleanSplit(before + after, |before|);
    assert whole[..|before| + |spaces|] == before + spaces && whole[|before| + |spaces|..] == after;
    assert (before + spaces)[..|before|] == before && (before + spaces)[|before|..] == spaces;
    assert (before + after)[..|before|] == before && (before + after)[|before|..] == after;
    CleanSpaces(spaces);
    assert Clean(before) + [] == Clean(before);
    assert Clean(whole) == Clean(before + after);
  }

  lemma {:induction false} CleanSpaces(spaces: string)
    requires forall k :: 0 <= k < |spaces| ==> Index(spaces[k]) == SPACE
    ensures Clean(spaces) == []
  {
    if spaces != "" { CleanSpaces(spaces[..|spaces| - 1]); }
  }

  // ---- decode after encode ---------------------------------------------------------------------

  lemma CleanQuad(q: string)
    requires |q| == 4 && forall k :: 0 <= k < 4 ==> Index(q[k]) != SPACE
    ensures Clean(q) == [Index(q[0]), Index(q[1]), Index(q[2]), Index(q[3])]
  {
    hide Index;
    assert q[..4] == q && q[..3][..2] == q[..2] && q[..2][..1] == q[..1] && q[..1][..0] == "";
    assert Clean(q[..0]) == [];
    assert Clean(q[..1]) == [Index(q[0])];
    assert Clean(q[..2]) == [Index(q[0]), Index(q[1])];
    assert Clean(q[..3]) == [Index(q[0]), Index(q[1]), Index(q[2])];
  }

  /** Three bytes survive. */
  lemma GroupRoundTrip(a: byte, b: byte, c: byte)
    ensures var t := Triple(a as int, b as int, c as int);
            QuadBytes([Sextet(t, 0), Sextet(t, 1), Sextet(t, 2), Sextet(t, 3)]) == [a, b, c]
    ensures var t := Triple(a as int, b as int, 0);
            QuadBytes([Sextet(t, 0), Sextet(t, 1), Sextet(t, 2), PAD]) == [a, b]
    ensures var t := Triple(a as int, 0, 0);
            QuadBytes([Sextet(t, 0), Sextet(t, 1), PAD, PAD]) == [a]
  {
    hide Triple, Sextet, Joined, Octet;
    SextetsAre(a, b, c);
    var t := Triple(a as int, b as int, c as int);
    OctetsAre(Sextet(t, 0), Sextet(t, 1), Sextet(t, 2), Sextet(t, 3));
    ShortRoundTrip(a, b);
  }

  lemma ShortRoundTrip(a: byte, b: byte)
    ensures var t := Triple(a as int, b as int, 0);
            QuadBytes([Sextet(t, 0), Sextet(t, 1), Sextet(t, 2), PAD]) == [a, b]
    ensures var t := Triple(a as int, 0, 0);
            QuadBytes([Sextet(t, 0), Sextet(t, 1), PAD, PAD]) == [a]
  {
    hide Triple, Sextet, Joined, Octet;
    TwoBytes(a, b);
    OneByte(a);
  }

  lemma TwoBytes(a: byte, b: byte)
    ensures var t := Triple(a as int, b as int, 0);
            QuadBytes([Sextet(t, 0), Sextet(t, 1), Sextet(t, 2), PAD]) == [a, b]
  {
    hide Triple, Sextet, Joined, Octet;
    SextetsAre(a, b, 0);
    var t := Triple(a as int, b as int, 0);
    OctetsAre(Sextet(t, 0), Sextet(t, 1), Sextet(t, 2), 0);
    assert Octet(Joined(Sextet(t, 0), Sextet(t, 1), Sextet(t, 2), 0), 0) == a;
    assert Octet(Joined(Sextet(t, 0), Sextet(t, 1), Sextet(t, 2), 0), 1) == b;
  }

  lemma OneByte(a: byte)
    ensures var t := Triple(a as int, 0, 0);
            QuadBytes([Sextet(t, 0), Sextet(t, 1), PAD, PAD]) == [a]
  {
    hide Triple, Sextet, Joined, Octet;
    SextetsAre(a, 0, 0);
    var t := Triple(a as int, 0, 0);
    OctetsAre(Sextet(t, 0), Sextet(t, 1), 0, 0);
    assert Octet(Joined(Sextet(t, 0), Sextet(t, 1), 0, 0), 0) == a;
  }

  lemma IndexOfQuad(triple: int, k: nat)
    requires k < 4
    ensures Index(Quad(triple)[k]) == Sextet(triple, k)
  {
    hide Index, Digit, Sextet;
    DigitsAndIndices(Sextet(triple, k), 'A');
  }

  lemma {:induction false} EncodeQuads(data: seq<byte>)
    ensures var c := Clean(Encode(data));
            Digital(c) && |c| % 4 == 0 && DecodeQuads(c) == Some(data)
    decreases |data|
  {
    hide Index, Digit, Sextet, Triple, Quad, QuadBytes;
    if data == [] {
    } else if |data| < 3 {
      ShortEncode(data);
    } else {
      var triple := Triple(data[0] as int, data[1] as int, data[2] as int);
      EncodeQuads(data[3..]);
      FullQuad(triple, Encode(data[3..]));
      GroupRoundTrip(data[0], data[1], data[2]);
      assert data == [data[0], data[1], data[2]] + data[3..];
    }
  }

  lemma FullQuad(triple: int, rest: string)
    requires var c := Clean(rest); Digital(c) && |c| % 4 == 0 && DecodeQuads(c).Some?
    ensures var c := Clean(Quad(triple) + rest);
            && Digital(c) && |c| % 4 == 0
            && DecodeQuads(c) == Some(
                 QuadBytes([Sextet(triple, 0), Sextet(triple, 1), Sextet(triple, 2), Sextet(triple, 3)])
                 + DecodeQuads(Clean(rest)).value)
  {
    hide Index, Digit, Sextet, Quad, QuadBytes, Clean, DecodeQuads;
    var q := Quad(triple);
    IndexOfQuad(triple, 0);
    IndexOfQuad(triple, 1);
    IndexOfQuad(triple, 2);
    IndexOfQuad(triple, 3);
    CleanQuad(q);
    CleanSplit(q + rest, 4);
    assert (q + rest)[..4] == q && (q + rest)[4..] == rest;
    QuadFront(Clean(q), Clean(rest));
  }

  /** A quad of digits in front. */
  lemma QuadFront(q: seq<int>, rest: seq<int>)
    requires |q| == 4 && |rest| % 4 == 0 && (forall k :: 0 <= k < 4 ==> 0 <= q[k] < 64)
    requires forall k :: 0 <= k < |rest| ==> rest[k] < 64
    ensures |q + rest| % 4 == 0 && forall k :: 0 <= k < |q + rest| ==> (q + rest)[k] < 64
    ensures DecodeQuads(q + rest) ==
              if DecodeQuads(rest).None? then None else Some(QuadBytes(q) + DecodeQuads(rest).value)
  {
    hide QuadBytes;
    assert (q + rest)[..4] == q && (q + rest)[4..] == rest;
  }

  lemma ShortEncode(data: seq<byte>)
    requires 1 <= |data| <= 2
    ensures var c := Clean(Encode(data));
            Digital(c) && |c| % 4 == 0 && DecodeQuads(c) == Some(data)
  {
    hide Digit, Sextet, Triple, Quad, QuadBytes;
    var triple := Triple(data[0] as int, if |data| == 2 then data[1] as int else 0, 0);
    IndexOfQuad(triple, 0);
    IndexOfQuad(triple, 1);
    IndexOfQuad(triple, 2);
    var e := Encode(data);
    assert Index('=') == PAD;
    CleanQuad(e);
    GroupRoundTrip(data[0], if |data| == 2 then data[1] else 0, 0);
    var c := Clean(e);
    hide Clean, Encode, DecodeQuads;
    OnlyQuad(c);
    assert data == if |data| == 2 then [data[0], data[1]] else [data[0]];
  }

  /** Decoding undoes encoding, for every byte string. */
  lemma RoundTrip(data: seq<byte>)
    ensures Decode(Encode(data)) == Some(data)
  {
    hide Decode, Encode, Clean, DecodeQuads;
    EncodeQuads(data);
    DecodeIsQuads(Encode(data));
  }

  // ---- encode after decode ---------------------------------------------------------------------

  predicate Standard(ch: char) {
    (Index(ch) >= 0 || ch == '=') && ch != '-' && ch != '_'
  }

  predicate StandardText(text: string) {
    forall k :: 0 <= k < |text| ==> Standard(text[k])
  }

  function Indices(text: string): (r: seq<int>)
    ensures |r| == |text|
    ensures forall k :: 0 <= k < |text| ==> r[k] == Index(text[k])
  {
    seq(|text|, k requires 0 <= k < |text| => Index(text[k]))
  }

  /** The bits that the padding cuts off are zero. */
  predicate SpareZero(c: seq<int>) {
    |c| >= 4 && c[|c| - 1] == PAD ==>
      if c[|c| - 2] == PAD then c[|c| - 3] % 16 == 0 else c[|c| - 2] % 4 == 0
  }

  /** The standard alphabet without whitespace, complete quads, and zero spare bits. */
  predicate Canonical(text: string) {
    StandardText(text) && WellFormed(Indices(text)) && SpareZero(Indices(text))
  }

  lemma {:induction false} CleanIsIndices(text: string)
    requires StandardText(text)
    ensures Clean(text) == Indices(text) && Digital(Indices(text))
  {
    if text != "" {
      var init := text[..|text| - 1];
      CleanIsIndices(init);
      assert Indices(text) == Indices(init) + [Index(text[|text| - 1])];
    }
  }

  /** Four canonical digits are the encoding of their three bytes. */
  lemma QuadOfOctets(t: string)
    requires |t| == 4 && StandardText(t) && forall k :: 0 <= k < 4 ==> Index(t[k]) >= 0
    ensures var bytes := QuadBytes(Indices(t));
            |bytes| == 3 && Quad(Triple(bytes[0] as int, bytes[1] as int, bytes[2] as int)) == t
  {
    hide Index, Digit, Triple, Sextet, Octet, Joined;
    var s := Indices(t);
    var bytes := QuadBytes(s);
    ThreeBytes(s[0], s[1], s[2], s[3]);
    var triple := Triple(bytes[0] as int, bytes[1] as int, bytes[2] as int);
    Standards(t);
    assert Quad(triple) == [Digit(s[0]), Digit(s[1]), Digit(s[2]), Digit(s[3])];
  }

  lemma ThreeBytes(s0: int, s1: int, s2: int, s3: int)
    requires IsSextet(s0) && IsSextet(s1) && IsSextet(s2) && IsSextet(s3)
    ensures var bytes := QuadBytes([s0, s1, s2, s3]);
            && |bytes| == 3
            && var t := Triple(bytes[0] as int, bytes[1] as int, bytes[2] as int);
               Sextet(t, 0) == s0 && Sextet(t, 1) == s1 && Sextet(t, 2) == s2 && Sextet(t, 3) == s3
  {
    hide Triple, Sextet, Octet, Joined;
    OctetsAre(s0, s1, s2, s3);
    var bytes := QuadBytes([s0, s1, s2, s3]);
    SextetsAre(bytes[0], bytes[1], bytes[2]);
  }

  lemma Standards(t: string)
    requires StandardText(t)
    ensures forall k :: 0 <= k < |t| && Index(t[k]) >= 0 ==> Digit(Index(t[k])) == t[k]
    ensures forall k :: 0 <= k < |t| && Index(t[k]) < 0 ==> Index(t[k]) == PAD
  {
    hide Index, Digit;
    PadStandard();
    forall k | 0 <= k < |t| && Index(t[k]) >= 0
      ensures Digit(Index(t[k])) == t[k]
    {
      DigitsAndIndices(0, t[k]);
    }
  }

  /** A canonical last quad, whatever its padding, is the encoding of its bytes. */
  lemma LastQuad(t: string)
    requires |t| == 4 && Canonical(t)
    ensures QuadBytes(Indices(t)) != [] && Encode(QuadBytes(Indices(t))) == t
  {
    hide Index, Digit, Triple, Sextet, Octet, Joined, QuadBytes, Quad;
    var s := Indices(t);
    Standards(t);
    assert s[0] >= 0 && s[1] >= 0;
    if s[3] >= 0 {
      assert s[2] >= 0;
      QuadOfOctets(t);
      var bytes := QuadBytes(s);
      assert bytes[3..] == [] && Encode(bytes[3..]) == "";
      assert Encode(bytes) == Quad(Triple(bytes[0] as int, bytes[1] as int, bytes[2] as int)) + "";
    } else if s[2] >= 0 {
      LastTwo(t);
    } else {
      LastOne(t);
    }
  }

  lemma LastTwo(t: string)
    requires |t| == 4 && Canonical(t) && Index(t[2]) >= 0 && Index(t[3]) == PAD
    ensures QuadBytes(Indices(t)) != [] && Encode(QuadBytes(Indices(t))) == t
  {
    hide Index, Digit, Triple, Sextet, Octet, Joined, QuadBytes, Quad, Encode;
    var s := Indices(t);
    assert s[0] >= 0 && s[1] >= 0 && s[2] % 4 == 0;
    ShortBytes(s);
    OctetsAre(s[0], s[1], s[2], 0);
    var u := Joined(s[0], s[1], s[2], 0);
    SextetsAre(Octet(u, 0), Octet(u, 1), 0);
    Standards(t);
    var v := Triple(Octet(u, 0) as int, Octet(u, 1) as int, 0);
    QuadIs(v);
    assert Quad(v)[..3] == t[..3];
    assert t == t[..3] + "=";
  }

  lemma LastOne(t: string)
    requires |t| == 4 && Canonical(t) && Index(t[2]) == PAD && Index(t[3]) == PAD
    ensures QuadBytes(Indices(t)) != [] && Encode(QuadBytes(Indices(t))) == t
  {
    hide Index, Digit, Triple, Sextet, Octet, Joined, QuadBytes, Quad, Encode;
    var s := Indices(t);
    assert s[0] >= 0 && s[1] >= 0 && s[1] % 16 == 0;
    ShortBytes(s);
    OctetsAre(s[0], s[1], 0, 0);
    var u := Joined(s[0], s[1], 0, 0);
    SextetsAre(Octet(u, 0), 0, 0);
    Standards(t);
    var v := Triple(Octet(u, 0) as int, 0, 0);
    QuadIs(v);
    assert Quad(v)[..2] == t[..2];
    assert t == t[..2] + "==";
  }

  /** The bytes of a padded quad, and how they are encoded again. */
  lemma ShortBytes(s: seq<int>)
    requires |s| == 4 && (forall k :: 0 <= k < 4 ==> s[k] < 64) && s[0] >= 0 && s[1] >= 0 && s[3] == PAD
    requires s[2] >= 0 || s[2] == PAD
    ensures s[2] == PAD ==>
              var u := Joined(s[0], s[1], 0, 0);
              QuadBytes(s) == [Octet(u, 0)]
              && Encode(QuadBytes(s)) == Quad(Triple(Octet(u, 0) as int, 0, 0))[..2] + "=="
    ensures s[2] >= 0 ==>
              var u := Joined(s[0], s[1], s[2], 0);
              QuadBytes(s) == [Octet(u, 0), Octet(u, 1)]
              && Encode(QuadBytes(s)) == Quad(Triple(Octet(u, 0) as int, Octet(u, 1) as int, 0))[..3] + "="
  {
    hide Octet, Joined, Triple, Quad;
  }

  lemma {:induction false} CanonicalEncodes(text: string)
    requires Canonical(text)
    ensures var c := Indices(text);
            Digital(c) && |c| % 4 == 0 && DecodeQuads(c).Some? && Encode(DecodeQuads(c).value) == text
    decreases |text|
  {
    hide Index, Standard, Triple, QuadBytes, Quad, Encode, DecodeQuads;
    CleanIsIndices(text);
    var c := Indices(text);
    if text == "" {
      EmptyText();
    } else if |text| == 4 {
      LastQuad(text);
      OnlyQuad(c);
    } else {
      var t, rest := text[..4], text[4..];
      RestCanonical(text);
      CanonicalEncodes(rest);
      QuadOfOctets(t);
      var bytes, tail := QuadBytes(Indices(t)), DecodeQuads(Indices(rest)).value;
      QuadFront(Indices(t), Indices(rest));
      assert c == Indices(t) + Indices(rest);
      EncodeFront(bytes, tail);
      assert text == t + rest;
    }
  }

  lemma EmptyText()
    ensures Indices("") == [] && DecodeQuads([]) == Some([]) && Encode([]) == ""
  {
  }

  lemma OnlyQuad(c: seq<int>)
    requires |c| == 4 && Digital(c) && WellFormed(c)
    ensures c[0] >= 0 && c[1] >= 0 && DecodeQuads(c) == Some(QuadBytes(c))
  {
    hide QuadBytes;
    assert c[..4] == c && c[4..] == [];
    assert QuadBytes(c) + [] == QuadBytes(c);
  }

  lemma EncodeFront(bytes: seq<byte>, tail: seq<byte>)
    requires |bytes| == 3
    ensures Encode(bytes + tail) ==
              Quad(Triple(bytes[0] as int, bytes[1] as int, bytes[2] as int)) + Encode(tail)
  {
    hide Quad, Triple;
    assert (bytes + tail)[3..] == tail;
  }

  lemma RestCanonical(text: string)
    requires Canonical(text) && |text| > 4
    ensures Canonical(text[4..]) && forall k :: 0 <= k < 4 ==> Index(text[k]) >= 0
  {
    hide Index, Standard;
    var c, d := Indices(text), Indices(text[4..]);
    assert d == c[4..];
    forall k | 0 <= k < |d| - 2
      ensures d[k] >= 0
    {
      assert d[k] == c[k + 4];
    }
  }

  lemma DigitsStandard(triple: int, k: nat)
    requires k < 4
    ensures Standard(Quad(triple)[k]) && Index(Quad(triple)[k]) == Sextet(triple, k)
  {
    hide Digit, Sextet, Index;
    DigitsAndIndices(Sextet(triple, k), 'A');
  }

  lemma {:induction false} EncodedStandard(data: seq<byte>)
    ensures StandardText(Encode(data)) && SpareZero(Indices(Encode(data)))
    ensures data != [] ==> |Encode(data)| >= 4
    decreases |data|
  {
    hide Index, Standard, Digit, Sextet, Triple, Quad;
    if data != [] {
      var a := data[0];
      var b: byte := if |data| > 1 then data[1] else 0;
      var c: byte := if |data| > 2 then data[2] else 0;
      var t := Triple(a as int, b as int, c as int);
      DigitsStandard(t, 0);
      DigitsStandard(t, 1);
      DigitsStandard(t, 2);
      DigitsStandard(t, 3);
      PadStandard();
      SextetsAre(a, b, c);
      if |data| >= 3 {
        EncodedStandard(data[3..]);
        SpareBehind(Quad(t), Encode(data[3..]));
      }
    }
  }

  lemma PadStandard()
    ensures Standard('=') && Index('=') == PAD
  {
  }

  lemma SpareBehind(q: string, rest: string)
    requires |q| == 4 && StandardText(q) && StandardText(rest) && SpareZero(Indices(rest))
    requires |rest| >= 4 || (rest == "" && Index(q[3]) != PAD)
    ensures StandardText(q + rest) && SpareZero(Indices(q + rest))
  {
    hide Index, Standard;
    var c, d := Indices(q + rest), Indices(rest);
    assert |rest| >= 4 ==> c[|c| - 1] == d[|d| - 1] && c[|c| - 2] == d[|d| - 2] && c[|c| - 3] == d[|d| - 3];
  }

  /** Encoding undoes decoding exactly for canonical texts. */
  lemma ReencodeIff(text: string)
    ensures Decode(text).Some? && Encode(Decode(text).value) == text <==> Canonical(text)
  {
    hide Decode, Encode, DecodeQuads, Clean, StandardText, WellFormed, SpareZero;
    DecodeIsQuads(text);
    if Canonical(text) {
      CleanIsIndices(text);
      NoBad(text);
      CanonicalEncodes(text);
    } else if Decode(text).Some? && Encode(Decode(text).value) == text {
      EncodedStandard(Decode(text).value);
      CleanIsIndices(text);
      DecodesIff(text);
    }
  }

  lemma NoBad(text: string)
    requires Digital(Indices(text))
    ensures BAD !in Indices(text)
  {
  }
}
