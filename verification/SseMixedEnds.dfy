/**
 How a text must be for the framers not to care where it is cut. The block framer looks for a pair of newlines
 before it looks for a pair of CRLFs, even if the pair of CRLFs comes first; what it makes of a text in which
 that happens depends on the pieces, and of no other text.
 */
module SseMixedEnds {
  import opened Common
  import opened SseCore
  import opened SseAgreement
  import opened SseData
  import opened SseTheorems

  // ---- exactly the ordered texts can be cut anywhere ----------------------------------------------

  lemma CutOne(s: string)
    ensures Concat([s]) == s && Cut([s]) == Frames(s)
  {
    hide Frames;
    var data := [s];
    assert data[..0] == [] && "" + s == s;
    assert [] + Frames(s).0 == Frames(s).0;
  }

  lemma CutTwo(a: string, b: string)
    ensures Concat([a, b]) == a + b
    ensures Cut([a, b]) == (Frames(a).0 + Frames(Frames(a).1 + b).0, Frames(Frames(a).1 + b).1)
  {
    hide Frames;
    var data := [a, b];
    assert data[..1] == [a];
    CutOne(a);
  }

  /** The blocks of a text that is cut at n. */
  function CutAt(s: string, n: nat): seq<string>
    requires n <= |s|
  {
    Frames(s[..n]).0 + Frames(Frames(s[..n]).1 + s[n..]).0
  }

  /** A pair of CRLFs before a pair of newlines gives a place where a cut changes the blocks. */
  lemma {:induction false} WrongCut(s: string) returns (n: nat)
    requires !Ordered(s)
    ensures n <= |s| && CutAt(s, n) != Frames(s).0
    decreases |s|
  {
    hide Frames, NextSeparator, Ordered, BlankAt, DosBlankAt;
    var i, j := FirstPairs(s);
    FramesStep(s);
    if i < j {
      n := i + 4;
      BetweenPairs(s, i, j);
      FramesStep(s[..n]);
      assert s[..n][..i] == s[..i];
      assert CutAt(s, n)[0] == s[..i] && Frames(s).0[0] == s[..j];
    } else {
      var rest := s[j + 2..];
      var m := WrongCut(rest);
      n := j + 2 + m;
      BeforePairs(s, i, j, n);
      FramesStep(s[..n]);
      assert s[..n][j + 2..] == rest[..m] && s[n..] == rest[m..] && s[..n][..j] == s[..j];
      assert CutAt(s, n) == [s[..j]] + CutAt(rest, m);
      assert ([s[..j]] + CutAt(rest, m))[1..] == CutAt(rest, m) && ([s[..j]] + Frames(rest).0)[1..] == Frames(rest).0;
    }
  }

  /** The first pair of CRLFs and the first pair of newlines, which ends the first block. */
  lemma FirstPairs(s: string) returns (i: nat, j: nat)
    requires !Ordered(s)
    ensures DosBlankAt(s, i) && (forall k: nat :: k < i ==> !DosBlankAt(s, k))
    ensures BlankAt(s, j) && (forall k: nat :: k < j ==> !BlankAt(s, k))
    ensures NextSeparator(s) == Some(Separator(j, 2)) && i != j
    ensures j < i ==> j + 2 <= i && !Ordered(s[j + 2..])
  {
    var a: nat, b: nat :| DosBlankAt(s, a) && a < b && BlankAt(s, b);
    i, j := FindDosBlank(s, 0), FindBlank(s, 0);
    SeparatorAt(s, j, 2);
    if j < i {
      var rest := s[j + 2..];
      assert s[j + 1] == '\n' && s[i] == '\r';
      assert DosBlankAt(rest, a - j - 2) && BlankAt(rest, b - j - 2);
    }
  }

  /** Cut behind the pair of CRLFs: it is the separator of the first piece. */
  lemma BetweenPairs(s: string, i: nat, j: nat)
    requires DosBlankAt(s, i) && (forall k: nat :: k < i ==> !DosBlankAt(s, k))
    requires i < j && forall k: nat :: k < j ==> !BlankAt(s, k)
    ensures NextSeparator(s[..i + 4]) == Some(Separator(i, 4))
  {
    var t := s[..i + 4];
    forall k: nat
      ensures !BlankAt(t, k)
      ensures k < i ==> !DosBlankAt(t, k)
    {
      assert BlankAt(t, k) ==> BlankAt(s, k);
      assert k + 4 <= |t| && DosBlankAt(t, k) ==> DosBlankAt(s, k);
      assert s[i + 2] == '\r';
    }
    SeparatorAt(t, i, 4);
  }

  lemma BeforePairs(s: string, i: nat, j: nat, n: nat)
    requires BlankAt(s, j) && (forall k: nat :: k < j ==> !BlankAt(s, k)) && j + 2 <= n <= |s|
    ensures NextSeparator(s[..n]) == Some(Separator(j, 2))
  {
    var t := s[..n];
    assert forall k: nat :: k + 2 <= n ==> (BlankAt(t, k) <==> BlankAt(s, k));
    SeparatorAt(t, j, 2);
  }

  /** The blocks of a text are the same for every way of cutting it exactly if it is ordered. */
  lemma CutsAgreeIff(s: string)
    ensures Ordered(s) <==> forall data :: Concat(data) == s ==> Cut(data) == Frames(s)
  {
    hide Ordered, Frames, Cut, Concat;
    if Ordered(s) {
      forall data | Concat(data) == s
        ensures Cut(data) == Frames(s)
      {
        CutIsFrames(data);
      }
    } else {
      var n := WrongCut(s);
      CutTwo(s[..n], s[n..]);
      assert s[..n] + s[n..] == s;
      assert Concat([s[..n], s[n..]]) == s;
    }
  }

  // ---- a text that makes the difference -----------------------------------------------------------

  const FIRST: string := "data:a\r\n\r\n"
  const SECOND: string := "data:b\n\n"

  lemma Values()
    ensures StripOne("data:a\r") == "data:a" && StripOne("\r") == "" && StripOne("data:b") == "data:b"
    ensures StripOne("data:a") == "data:a" && StripOne("") == ""
    ensures AddLine("", "data:a") == "a" && AddLine("", "data:b") == "b"
    ensures AddLine("a", "data:b") == "a\nb" && AddLine("a", "") == "a"
  {
    assert "data:a\r"[..6] == "data:a" && "data:a"[..5] == "data:" && "data:a"[5..] == "a";
    assert "data:b"[..5] == "data:" && "data:b"[5..] == "b";
    assert "" + "a" == "a" && "" + "b" == "b" && "a" + "\n" + "b" == "a\nb";
  }

  /** In one piece: the last pair of newlines ends a single block with two data lines. */
  lemma WholeSeparator()
    ensures NextSeparator(FIRST + SECOND) == Some(Separator(16, 2))
    ensures (FIRST + SECOND)[..16] == "data:a\r\n\r\ndata:b" && |FIRST + SECOND| == 18
  {
    var s := "data:a\r\n\r\ndata:b\n\n";
    assert FIRST + SECOND == s;
    forall j: nat | j < 16
      ensures !BlankAt(s, j)
    {
      if j == 7 { assert s[8] == '\r'; } else if j == 9 { assert s[10] == 'd'; } else { assert s[j] != '\n'; }
    }
    BlankIs(s, 16);
    assert s[..16] == "data:a\r\n\r\ndata:b";
  }

  lemma WholePayload()
    ensures Payload("data:a\r\n\r\ndata:b", "") == "a\nb"
  {
    hide Payload, AddLine, StripOne;
    Values();
    assert "data:a\r\n\r\ndata:b" == "data:a\r" + "\n" + "\r\ndata:b" && "\r\ndata:b" == "\r" + "\n" + "data:b";
    BlockLine("data:a\r", "\r\ndata:b", "");
    BlockLine("\r", "data:b", "a");
    BlockLine("data:b", "", "a");
  }

  /** Cut behind the pair of CRLFs: two blocks. */
  lemma CutText()
    ensures NextSeparator(FIRST) == Some(Separator(6, 4)) && NextSeparator(SECOND) == Some(Separator(6, 2))
    ensures FIRST[..6] == "data:a" && FIRST[10..] == "" && SECOND[..6] == "data:b" && SECOND[8..] == ""
    ensures Payload("data:a", "") == "a" && Payload("data:b", "") == "b"
  {
    forall j: nat | j < 10
      ensures !BlankAt(FIRST, j)
    {
      if j == 7 { assert FIRST[8] == '\r'; } else if j == 9 {} else { assert FIRST[j] != '\n'; }
    }
    BlankIs(FIRST, 10);
    forall j: nat | j < 6
      ensures !DosBlankAt(FIRST, j) && !BlankAt(SECOND, j)
    {
      assert FIRST[j] != '\r' && SECOND[j] != '\n';
    }
    DosBlankIs(FIRST, 6);
    BlankIs(SECOND, 6);
    Values();
    assert FIRST[..6] == "data:a" && FIRST[10..] == "" && SECOND[..6] == "data:b" && SECOND[8..] == "";
    BlockLine("data:a", "", "");
    BlockLine("data:b", "", "");
  }

  function Silent(payload: string): (seq<Chunk>, bool) {
    ([], false)
  }

  /** A body callback that completes one block. */
  lemma OneBlock(s: Stream, data: string, block: string, size: nat)
    requires !s.finished && s.buffer == "" && |data| < 100
    requires NextSeparator(data) == Some(Separator(|block|, size))
    requires |block| + size == |data| && data[..|block|] == block
    requires Payload(block, "") != "" && Payload(block, "") != DONE
    ensures Body(Silent, s, data) == Some(Stream("", false, s.payloads + [Payload(block, "")], s.chunks))
  {
    hide Payload, NextSeparator;
    var s1 := s.(buffer := data);
    assert "" + data == data;
    var d := Dispatch(Silent, s1, Payload(block, ""));
    assert s.chunks + [] == s.chunks;
    assert d == Stream(data, false, s.payloads + [Payload(block, "")], s.chunks);
    assert data[|block| + size..] == "";
    NoSeparator();
    var e := d.(buffer := "");
    assert ProcessBuffer(Silent, e) == e;
    assert ProcessBuffer(Silent, s1) == e;
  }

  /** The same bytes give one event in one piece and two events in two pieces. */
  lemma SplitDependent()
    ensures BodyAll(Silent, NEW_STREAM, [FIRST + SECOND]).Some?
            && BodyAll(Silent, NEW_STREAM, [FIRST + SECOND]).value.payloads == ["a\nb"]
    ensures BodyAll(Silent, NEW_STREAM, [FIRST, SECOND]).Some?
            && BodyAll(Silent, NEW_STREAM, [FIRST, SECOND]).value.payloads == ["a", "b"]
    ensures Concat([FIRST, SECOND]) == FIRST + SECOND && !Ordered(FIRST + SECOND)
  {
    hide Payload, NextSeparator, Body;
    WholeSeparator();
    WholePayload();
    CutText();
    assert "a" != DONE && "b" != DONE && "a\nb" != DONE;
    OneBlock(NEW_STREAM, FIRST + SECOND, "data:a\r\n\r\ndata:b", 2);
    OneBlock(NEW_STREAM, FIRST, "data:a", 4);
    OneBlock(Stream("", false, ["a"], []), SECOND, "data:b", 2);
    Pieces(FIRST, SECOND);
    var none: seq<string> := [];
    assert "" + FIRST == FIRST && none + ["a"] == ["a"] && ["a"] + ["b"] == ["a", "b"];
    NotOrdered();
  }

  lemma Pieces(a: string, b: string)
    ensures BodyAll(Silent, NEW_STREAM, [a + b]) == Body(Silent, NEW_STREAM, a + b)
    ensures BodyAll(Silent, NEW_STREAM, [a, b]) ==
              var before := Body(Silent, NEW_STREAM, a);
              if before == None then None else Body(Silent, before.value, b)
    ensures Concat([a, b]) == "" + a + b
  {
    hide Body;
    var whole, cut := [a + b], [a, b];
    var one := [a];
    assert whole[..0] == [] && cut[..1] == one && one[..0] == [];
    assert Concat(one) == "" + a;
    assert BodyAll(Silent, NEW_STREAM, one) == Body(Silent, NEW_STREAM, a);
  }

  lemma NotOrdered()
    ensures !Ordered(FIRST + SECOND)
  {
    var s := FIRST + SECOND;
    assert s == "data:a\r\n\r\ndata:b\n\n";
    assert DosBlankAt(s, 6) && BlankAt(s, 16);
  }

  // ---- a text on which the framers differ ---------------------------------------------------------

  const EMPTY_LINE: string := "data:a\n\r\ndata:b\n\n"

  /** An ordered text with an empty CRLF line behind a plain newline: one block, but two events. */
  lemma UntidyDiffers()
    ensures Ordered(EMPTY_LINE) && !Tidy(EMPTY_LINE)
    ensures Payloads(Frames(EMPTY_LINE).0) == ["a\nb"]
    ensures Feed(NEW_PARSER, EMPTY_LINE).events == ["a", "b"] && !Agree(EMPTY_LINE)
  {
    hide Frames, Payloads, Feed, NextSeparator, Payload, Agree;
    UntidyText();
    UntidyBlocks();
    UntidyEvents();
    ParserDelivers(EMPTY_LINE);
  }

  lemma UntidyText()
    ensures Ordered(EMPTY_LINE) && !Tidy(EMPTY_LINE) && NextSeparator(EMPTY_LINE) == Some(Separator(15, 2))
    ensures EMPTY_LINE[..15] == "data:a\n\r\ndata:b" && EMPTY_LINE[17..] == ""
  {
    var s := EMPTY_LINE;
    assert |s| == 17 && s[6] == '\n' && s[7] == '\r' && s[8] == '\n' && s[5] == 'a';
    forall j: nat
      ensures !DosBlankAt(s, j)
      ensures j < 15 ==> !BlankAt(s, j)
    {
      if j + 4 <= 17 && j != 7 { assert s[j] != '\r'; }
      if j < 15 && j != 6 && j != 8 { assert s[j] != '\n'; }
      assert s[9] == 'd';
    }
    SeparatorAt(s, 15, 2);
    assert s[..15] == "data:a\n\r\ndata:b";
  }

  lemma UntidyBlocks()
    ensures Payloads(Frames(EMPTY_LINE).0) == ["a\nb"]
  {
    hide Payload, AddLine, StripOne, NextSeparator, Frames;
    UntidyText();
    FramesStep(EMPTY_LINE);
    NoSeparator();
    FramesStep("");
    Values();
    var block := "data:a\n\r\ndata:b";
    assert block == "data:a" + "\n" + "\r\ndata:b" && "\r\ndata:b" == "\r" + "\n" + "data:b";
    BlockLine("data:a", "\r\ndata:b", "");
    BlockLine("\r", "data:b", "a");
    BlockLine("data:b", "", "a");
    PayloadsFront(block, []);
    assert [block] + [] == [block];
  }

  lemma UntidyEvents()
    ensures Feed(NEW_PARSER, EMPTY_LINE).events == ["a", "b"]
  {
    hide Feed, AddLine, StripOne, StripAll;
    Values();
    var p0 := NEW_PARSER;
    var p1, p2 := Parser("", "a", []), Parser("", "", ["a"]);
    var p3 := Parser("", "b", ["a"]);
    assert EMPTY_LINE == "data:a" + "\n" + "\r\ndata:b\n\n";
    FeedLine(p0, "data:a", "\r\ndata:b\n\n");
    OkStrips("data:a");
    assert "\r\ndata:b\n\n" == "\r" + "\n" + "data:b\n\n";
    FeedLine(p1, "\r", "data:b\n\n");
    OkStrips("\r");
    assert [] + ["a"] == ["a"];
    assert "data:b\n\n" == "data:b" + "\n" + "\n";
    FeedLine(p2, "data:b", "\n");
    OkStrips("data:b");
    assert "\n" == "" + "\n" + "";
    FeedLine(p3, "", "");
    OkStrips("");
    assert ["a"] + ["b"] == ["a", "b"];
    assert Feed(Parser("", "", ["a", "b"]), "") == Parser("", "", ["a", "b"]) by { FeedPlain(Parser("", "", ["a", "b"]), ""); }
  }
}
