/** What the token estimate makes of UTF-8 text: the encoding is written out here, independently of the estimator. */
module TokenText {
  import opened TokenEstimate

  /** Unicode code points; NUL ends a C string. */
  type CodePoint = x: int | 0 < x < 0x11_0000 witness 1

  /** Section 3 of RFC 3629. */
  function Encode(c: CodePoint): seq<byte> {
    if c < 0x80 then [c as byte]
    else if c < 0x800 then [(0xC0 + c / 0x40) as byte, (0x80 + c % 0x40) as byte]
    else if c < 0x1_0000 then [(0xE0 + c / 0x1000) as byte, (0x80 + c / 0x40 % 0x40) as byte, (0x80 + c % 0x40) as byte]
    else
      [(0xF0 + c / 0x4_0000) as byte, (0x80 + c / 0x1000 % 0x40) as byte, (0x80 + c / 0x40 % 0x40) as byte,
       (0x80 + c % 0x40) as byte]
  }

  function EncodeText(text: seq<CodePoint>): seq<byte> {
    if text == [] then [] else Encode(text[0]) + EncodeText(text[1..])
  }

  /** The number of ASCII characters at the front. */
  function AsciiRun(text: seq<CodePoint>): (n: nat)
    ensures n <= |text|
    ensures n < |text| ==> text[n] >= 0x80
    ensures forall i :: 0 <= i < n ==> text[i] < 0x80
  {
    if text == [] || text[0] >= 0x80 then 0 else 1 + AsciiRun(text[1..])
  }

  /** A quarter, rounded up, of every maximal run of ASCII characters, and one for every other character. */
  function TextTokens(text: seq<CodePoint>): nat
    decreases |text|
  {
    var n := AsciiRun(text);
    (n + 3) / 4 + if n == |text| then 0 else 1 + TextTokens(text[n + 1..])
  }

  /** The estimator takes a character that is not ASCII as a whole, however many bytes it has. */
  lemma CharacterTaken(c: CodePoint, rest: seq<byte>, run: nat)
    requires c >= 0x80
    ensures EstimateFrom(Encode(c) + rest, run) == (run + 3) / 4 + 1 + EstimateFrom(rest, 0)
  {
    var e := Encode(c);
    assert e[0] >= 0x80 && Skip(e + rest) == |e| && (e + rest)[|e|..] == rest;
  }

  lemma AsciiTaken(c: CodePoint, rest: seq<byte>, run: nat)
    requires c < 0x80
    ensures EstimateFrom(Encode(c) + rest, run) ==
              if run + 1 == 4 then 1 + EstimateFrom(rest, 0) else EstimateFrom(rest, run + 1)
  {
    assert (Encode(c) + rest)[1..] == rest && (Encode(c) + rest)[0] == c as byte;
  }

  /** One token for a single character of two, three or four bytes. */
  lemma OneCharacter(c: CodePoint)
    requires c >= 0x80
    ensures Estimate(Encode(c)) == 1
  {
    CharacterTaken(c, [], 0);
    assert Encode(c) + [] == Encode(c);
  }

  lemma {:induction false} RunTaken(text: seq<CodePoint>, run: nat)
    requires run < 4
    ensures var n := AsciiRun(text);
            EstimateFrom(EncodeText(text), run) ==
              (run + n + 3) / 4 + if n == |text| then 0 else 1 + Estimate(EncodeText(text[n + 1..]))
    decreases |text|
  {
    hide Encode;
    if text != [] {
      var rest := EncodeText(text[1..]);
      if text[0] < 0x80 {
        AsciiTaken(text[0], rest, run);
        RunTaken(text[1..], if run + 1 == 4 then 0 else run + 1);
        assert text[1..][AsciiRun(text[1..])..] == text[AsciiRun(text)..];
        if AsciiRun(text) < |text| { assert text[1..][AsciiRun(text)..] == text[AsciiRun(text) + 1..]; }
      } else {
        CharacterTaken(text[0], rest, run);
      }
    }
  }

  /** The estimate of any text in UTF-8. */
  lemma {:induction false} TextEstimate(text: seq<CodePoint>)
    ensures Estimate(EncodeText(text)) == TextTokens(text)
    decreases |text|
  {
    hide EncodeText, EstimateFrom;
    RunTaken(text, 0);
    var n := AsciiRun(text);
    if n < |text| { TextEstimate(text[n + 1..]); }
  }
}
