/** What the block framer makes of a text, for every way of cutting it; and how the end of a stream is announced. */
module SseTheorems {
  import opened Common
  import opened SseCore

  // ---- texts -------------------------------------------------------------------------------------

  /** No pair of CRLFs stands before a pair of newlines. */
  ghost predicate Ordered(s: string) {
    forall i: nat, j: nat :: DosBlankAt(s, i) && i < j ==> !BlankAt(s, j)
  }

  /** A carriage return only occurs before a newline, and an empty CRLF line only behind a CRLF line. */
  predicate Tidy(s: string) {
    && (forall i :: 0 <= i && i + 1 < |s| && s[i] == '\r' ==> s[i + 1] == '\n')
    && (forall i :: 0 <= i && i + 2 < |s| && s[i] == '\n' && s[i + 1] == '\r' && s[i + 2] == '\n' ==>
          i > 0 && s[i - 1] == '\r')
  }

  predicate UnixText(s: string) {
    '\r' !in s
  }

  /** Newlines and carriage returns only occur as CRLF; a last carriage return may still wait for its newline. */
  predicate DosText(s: string) {
    forall i :: 0 <= i < |s| ==>
      (s[i] == '\n' ==> i > 0 && s[i - 1] == '\r') && (s[i] == '\r' && i + 1 < |s| ==> s[i + 1] == '\n')
  }

  predicate Uniform(s: string) {
    UnixText(s) || DosText(s)
  }

  /** Texts with one kind of line end are the simplest case. */
  lemma UniformIsTidy(s: string)
    requires Uniform(s)
    ensures Ordered(s) && Tidy(s)
  {
    if UnixText(s) {
      assert forall i :: 0 <= i < |s| ==> s[i] in s;
    } else {
      forall j: nat
        ensures !BlankAt(s, j)
      {
        if j + 1 < |s| && s[j + 1] == '\n' { DosAt(s, j + 1); }
      }
      forall i | 0 <= i && i + 2 < |s| && s[i] == '\n'
        ensures i > 0 && s[i - 1] == '\r'
      {
        DosAt(s, i);
      }
    }
  }

  lemma DosAt(s: string, i: nat)
    requires DosText(s) && i < |s| && s[i] == '\n'
    ensures i > 0 && s[i - 1] == '\r'
  {
  }

  lemma PartOf(s: string, t: string)
    ensures Ordered(s + t) ==> Ordered(s) && Ordered(t)
    ensures Tidy(s + t) ==> Tidy(s)
  {
    hide Ordered, Tidy;
    if Ordered(s + t) { OrderedParts(s, t); }
    if Tidy(s + t) { TidyPart(s, t); }
  }

  lemma OrderedParts(s: string, t: string)
    requires Ordered(s + t)
    ensures Ordered(s) && Ordered(t)
  {
    hide BlankAt, DosBlankAt;
    forall i: nat
      ensures BlankAt(s, i) ==> BlankAt(s + t, i)
      ensures DosBlankAt(s, i) ==> DosBlankAt(s + t, i)
      ensures BlankAt(t, i) ==> BlankAt(s + t, |s| + i)
      ensures DosBlankAt(t, i) ==> DosBlankAt(s + t, |s| + i)
    {
      BlanksStay(s, t, i);
    }
    forall i: nat, j: nat | DosBlankAt(t, i) && i < j
      ensures !BlankAt(t, j)
    {
      BlanksStay(s, t, i);
      BlanksStay(s, t, j);
      assert |s| + i < |s| + j && DosBlankAt(s + t, |s| + i);
      assert !BlankAt(s + t, |s| + j);
    }
  }

  lemma BlanksStay(s: string, t: string, i: nat)
    ensures BlankAt(s, i) ==> BlankAt(s + t, i)
    ensures DosBlankAt(s, i) ==> DosBlankAt(s + t, i)
    ensures BlankAt(t, i) ==> BlankAt(s + t, |s| + i)
    ensures DosBlankAt(t, i) ==> DosBlankAt(s + t, |s| + i)
  {
  }

  lemma TidyPart(s: string, t: string)
    requires Tidy(s + t)
    ensures Tidy(s)
  {
    assert forall i :: 0 <= i < |s| ==> (s + t)[i] == s[i];
  }

  /** What follows a newline is tidy again. */
  lemma TidyRest(s: string, n: nat)
    requires Tidy(s) && 0 < n <= |s| && s[n - 1] == '\n'
    ensures Tidy(s[n..])
  {
    var t := s[n..];
    assert forall i :: 0 <= i < |t| ==> t[i] == s[n + i];
  }

  function Concat(data: seq<string>): string {
    if data == [] then "" else Concat(data[..|data| - 1]) + data[|data| - 1]
  }

  // ---- blocks ----------------------------------------------------------------------------------

  /** The complete blocks of a text and what follows the last separator. */
  function Frames(s: string): (seq<string>, string)
    decreases |s|
  {
    var sep := NextSeparator(s);
    if sep == None then ([], s)
    else
      var (blocks, rest) := Frames(s[sep.value.at + sep.value.size..]);
      ([s[..sep.value.at]] + blocks, rest)
  }

  lemma BlankIs(s: string, k: nat)
    requires k <= |s| && (k < |s| ==> BlankAt(s, k)) && forall j: nat :: j < k ==> !BlankAt(s, j)
    ensures FindBlank(s, 0) == k
  {
  }

  lemma DosBlankIs(s: string, k: nat)
    requires k <= |s| && (k < |s| ==> DosBlankAt(s, k)) && forall j: nat :: j < k ==> !DosBlankAt(s, j)
    ensures FindDosBlank(s, 0) == k
  {
  }

  /** Where the first separator stands. */
  lemma SeparatorIs(s: string)
    requires NextSeparator(s).Some?
    ensures var sep := NextSeparator(s).value;
            && (sep.size == 2 || sep.size == 4) && sep.at + sep.size <= |s| && s[sep.at + sep.size - 1] == '\n'
            && (sep.size == 2 ==> BlankAt(s, sep.at) && forall j: nat :: j < sep.at ==> !BlankAt(s, j))
            && (sep.size == 4 ==> DosBlankAt(s, sep.at) && (forall j: nat :: j < sep.at ==> !DosBlankAt(s, j))
                                  && forall j: nat :: !BlankAt(s, j))
  {
    var k := FindBlank(s, 0);
    if k == |s| { assert forall j: nat :: j < |s| ==> !BlankAt(s, j); }
  }

  lemma SeparatorAt(s: string, at: nat, size: nat)
    requires size == 2 ==> BlankAt(s, at) && forall j: nat :: j < at ==> !BlankAt(s, j)
    requires size == 4 ==> DosBlankAt(s, at) && (forall j: nat :: j < at ==> !DosBlankAt(s, j))
                           && forall j: nat :: !BlankAt(s, j)
    requires size == 2 || size == 4
    ensures NextSeparator(s) == Some(Separator(at, size))
  {
    if size == 2 {
      BlankIs(s, at);
    } else {
      BlankIs(s, |s|);
      DosBlankIs(s, at);
    }
  }

  /** In an ordered text, more text does not move a separator that has been found. */
  lemma SeparatorStable(s: string, t: string)
    requires Ordered(s + t) && NextSeparator(s).Some?
    ensures NextSeparator(s + t) == NextSeparator(s)
  {
    hide NextSeparator;
    var whole, sep := s + t, NextSeparator(s).value;
    SeparatorIs(s);
    assert forall i :: 0 <= i < |s| ==> whole[i] == s[i];
    assert forall j: nat :: j + 2 <= |s| ==> (BlankAt(whole, j) <==> BlankAt(s, j));
    assert forall j: nat :: j + 4 <= |s| ==> (DosBlankAt(whole, j) <==> DosBlankAt(s, j));
    if sep.size == 4 {
      assert DosBlankAt(whole, sep.at);
      forall j: nat
        ensures !BlankAt(whole, j)
      {
        if j + 2 > |s| { assert sep.at < j; }
      }
    }
    SeparatorAt(whole, sep.at, sep.size);
  }

  /** What follows a separator is ordered and tidy if the text is. */
  lemma RestOf(s: string)
    requires NextSeparator(s).Some?
    ensures var rest := s[NextSeparator(s).value.at + NextSeparator(s).value.size..];
            && (Ordered(s) ==> Ordered(rest)) && (Tidy(s) ==> Tidy(rest))
  {
    hide NextSeparator, Ordered, Tidy;
    SeparatorIs(s);
    var n := NextSeparator(s).value.at + NextSeparator(s).value.size;
    assert s == s[..n] + s[n..];
    PartOf(s[..n], s[n..]);
    if Tidy(s) { TidyRest(s, n); }
  }

  /** In an ordered text, blocks already found stay when more text arrives, wherever it is cut. */
  lemma {:induction false} FramesExtend(s: string, t: string)
    requires Ordered(s + t)
    ensures var (blocks, rest) := Frames(s);
            var (more, tail) := Frames(rest + t);
            Frames(s + t) == (blocks + more, tail)
    decreases |s|
  {
    hide NextSeparator, Ordered, Frames;
    var sep := NextSeparator(s);
    FramesStep(s);
    FramesStep(s + t);
    if sep.Some? {
      SeparatorStable(s, t);
      var n := sep.value.at + sep.value.size;
      assert (s + t)[n..] == s[n..] + t && (s + t)[..sep.value.at] == s[..sep.value.at];
      RestOf(s + t);
      FramesExtend(s[n..], t);
      var (blocks, rest) := Frames(s[n..]);
      var (more, tail) := Frames(rest + t);
      assert [s[..sep.value.at]] + (blocks + more) == [s[..sep.value.at]] + blocks + more;
    } else {
      assert [] + Frames(s + t).0 == Frames(s + t).0;
    }
  }

  /** The blocks of a text that arrives in pieces: what is left of one piece is put in front of the next. */
  function Cut(data: seq<string>): (seq<string>, string) {
    if data == [] then ([], "")
    else
      var (blocks, rest) := Cut(data[..|data| - 1]);
      var (more, tail) := Frames(rest + data[|data| - 1]);
      (blocks + more, tail)
  }

  /** In an ordered text the pieces do not matter. */
  lemma {:induction false} CutIsFrames(data: seq<string>)
    requires Ordered(Concat(data))
    ensures Cut(data) == Frames(Concat(data))
  {
    hide Ordered, Frames;
    if data == [] {
      FramesStep("");
      NoSeparator();
    } else {
      var init, last := data[..|data| - 1], data[|data| - 1];
      PartOf(Concat(init), last);
      CutIsFrames(init);
      FramesExtend(Concat(init), last);
    }
  }

  lemma NoSeparator()
    ensures NextSeparator("") == None
  {
  }

  /** The payloads of blocks; blocks without data have none. */
  function Payloads(blocks: seq<string>): seq<string> {
    if blocks == [] then []
    else (if Payload(blocks[0], "") == "" then [] else [Payload(blocks[0], "")]) + Payloads(blocks[1..])
  }

  lemma {:induction false} PayloadsConcat(a: seq<string>, b: seq<string>)
    ensures Payloads(a + b) == Payloads(a) + Payloads(b)
  {
    hide Payload;
    if a == [] {
      assert a + b == b;
    } else {
      assert (a + b)[1..] == a[1..] + b;
      PayloadsConcat(a[1..], b);
    }
  }

  // ---- the block framer ------------------------------------------------------------------------

  /** A payload after which the stream is finished. */
  predicate Ends(p: Protocol, payload: string) {
    payload == DONE || p(payload).1 || Finished in p(payload).0
  }

  predicate AnyEnds(p: Protocol, payloads: seq<string>) {
    exists k :: 0 <= k < |payloads| && Ends(p, payloads[k])
  }

  /** The payloads up to and including the first one that ends the stream. */
  function UpToEnd(p: Protocol, payloads: seq<string>): seq<string> {
    if payloads == [] then []
    else if Ends(p, payloads[0]) then [payloads[0]]
    else [payloads[0]] + UpToEnd(p, payloads[1..])
  }

  lemma {:induction false} UpToEndConcat(p: Protocol, a: seq<string>, b: seq<string>)
    ensures UpToEnd(p, a + b) == if AnyEnds(p, a) then UpToEnd(p, a) else a + UpToEnd(p, b)
    ensures !AnyEnds(p, a) ==> UpToEnd(p, a) == a
    ensures AnyEnds(p, a + b) <==> AnyEnds(p, a) || AnyEnds(p, b)
  {
    hide Ends, AnyEnds;
    if a == [] {
      assert a + b == b && [] + UpToEnd(p, b) == UpToEnd(p, b);
      NoneEnds(p);
    } else {
      assert (a + b)[0] == a[0] && (a + b)[1..] == a[1..] + b;
      UpToEndConcat(p, a[1..], b);
      AnyFront(p, a);
      AnyFront(p, a + b);
      assert a == [a[0]] + a[1..];
      assert [a[0]] + (a[1..] + UpToEnd(p, b)) == a + UpToEnd(p, b);
    }
  }

  lemma NoneEnds(p: Protocol)
    ensures !AnyEnds(p, [])
  {
  }

  lemma AnyFront(p: Protocol, a: seq<string>)
    requires a != []
    ensures AnyEnds(p, a) <==> Ends(p, a[0]) || AnyEnds(p, a[1..])
  {
    hide Ends;
    if k :| 0 <= k < |a| && Ends(p, a[k]) && k > 0 { assert Ends(p, a[1..][k - 1]); }
    if k :| 0 <= k < |a[1..]| && Ends(p, a[1..][k]) { assert Ends(p, a[k + 1]); }
  }

  lemma DispatchEffect(p: Protocol, s: Stream, payload: string)
    requires !s.finished
    ensures var r := Dispatch(p, s, payload);
            && r.buffer == s.buffer
            && r.payloads == s.payloads + (if payload == "" then [] else [payload])
            && r.finished == (payload != "" && Ends(p, payload))
  {
  }

  lemma {:induction false} ProcessEffect(p: Protocol, s: Stream)
    requires !s.finished
    ensures var (blocks, rest) := Frames(s.buffer);
            var r := ProcessBuffer(p, s);
            && r.payloads == s.payloads + UpToEnd(p, Payloads(blocks))
            && r.finished == AnyEnds(p, Payloads(blocks))
            && (!r.finished ==> r.buffer == rest)
    decreases |s.buffer|
  {
    hide NextSeparator, Dispatch, Payload, Ends, AnyEnds, UpToEnd, ProcessBuffer, Frames, Payloads;
    var sep := NextSeparator(s.buffer);
    ProcessStep(p, s);
    FramesStep(s.buffer);
    if sep == None {
      OneEnds(p, "");
      PayloadsFront("", []);
      assert s.payloads + [] == s.payloads;
    } else {
      var n := sep.value.at + sep.value.size;
      var block := s.buffer[..sep.value.at];
      var payload := Payload(block, "");
      DispatchEffect(p, s, payload);
      var s1 := Dispatch(p, s, payload).(buffer := s.buffer[n..]);
      var (blocks, rest) := Frames(s.buffer[n..]);
      var one := if payload == "" then [] else [payload];
      PayloadsFront(block, blocks);
      UpToEndConcat(p, one, Payloads(blocks));
      OneEnds(p, payload);
      ProcessStep(p, s1);
      if !s1.finished {
        ProcessEffect(p, s1);
        assert s.payloads + (one + UpToEnd(p, Payloads(blocks))) == s.payloads + one + UpToEnd(p, Payloads(blocks));
      }
    }
  }

  lemma ProcessStep(p: Protocol, s: Stream)
    ensures var sep := NextSeparator(s.buffer);
            ProcessBuffer(p, s) ==
              if s.finished || sep == None then s
              else ProcessBuffer(p, Dispatch(p, s, Payload(s.buffer[..sep.value.at], "")).(
                                      buffer := s.buffer[sep.value.at + sep.value.size..]))
  {
    hide NextSeparator, Dispatch, Payload;
  }

  lemma FramesStep(s: string)
    ensures var sep := NextSeparator(s);
            && (sep == None ==> Frames(s) == ([], s))
            && (sep.Some? ==>
                  var (blocks, rest) := Frames(s[sep.value.at + sep.value.size..]);
                  Frames(s) == ([s[..sep.value.at]] + blocks, rest))
  {
    hide NextSeparator;
  }

  lemma PayloadsFront(block: string, blocks: seq<string>)
    ensures Payloads([]) == []
    ensures Payloads([block] + blocks) ==
              (if Payload(block, "") == "" then [] else [Payload(block, "")]) + Payloads(blocks)
  {
    hide Payload;
    assert ([block] + blocks)[1..] == blocks;
  }

  lemma OneEnds(p: Protocol, payload: string)
    ensures !AnyEnds(p, []) && UpToEnd(p, []) == []
    ensures AnyEnds(p, [payload]) <==> Ends(p, payload)
    ensures UpToEnd(p, [payload]) == [payload]
  {
    hide Ends;
    AnyFront(p, [payload]);
    assert [payload][1..] == [];
    if Ends(p, payload) { assert Ends(p, [payload][0]); }
  }

  /** Whatever the pieces, the blocks that they make are dispatched up to the first ending. */
  lemma {:induction false} BodyCut(p: Protocol, data: seq<string>)
    requires BodyAll(p, NEW_STREAM, data).Some?
    ensures var (blocks, rest) := Cut(data);
            var r := BodyAll(p, NEW_STREAM, data).value;
            && r.payloads == UpToEnd(p, Payloads(blocks))
            && r.finished == AnyEnds(p, Payloads(blocks))
            && (!r.finished ==> r.buffer == rest)
  {
    hide ProcessBuffer, Ends, Payload, NextSeparator, Frames;
    if data == [] {
      OneEnds(p, "");
    } else {
      var init, last := data[..|data| - 1], data[|data| - 1];
      BodyCut(p, init);
      var before := BodyAll(p, NEW_STREAM, init).value;
      var (blocks, rest) := Cut(init);
      var (more, tail) := Frames(rest + last);
      PayloadsConcat(blocks, more);
      UpToEndConcat(p, Payloads(blocks), Payloads(more));
      if !before.finished { ProcessEffect(p, before.(buffer := before.buffer + last)); }
    }
  }

  /** However an ordered text is cut into body callbacks, its blocks are dispatched up to the first ending. */
  lemma BodyEffect(p: Protocol, data: seq<string>)
    requires Ordered(Concat(data)) && BodyAll(p, NEW_STREAM, data).Some?
    ensures var (blocks, rest) := Frames(Concat(data));
            var r := BodyAll(p, NEW_STREAM, data).value;
            && r.payloads == UpToEnd(p, Payloads(blocks))
            && r.finished == AnyEnds(p, Payloads(blocks))
            && (!r.finished ==> r.buffer == rest)
  {
    hide Ordered, BodyAll, Frames, UpToEnd, AnyEnds, Payloads, Cut;
    BodyCut(p, data);
    CutIsFrames(data);
  }

  // ---- the end of the stream -------------------------------------------------------------------

  /** Finished occurs at most once, as the last chunk. */
  predicate EndsOnce(chunks: seq<Chunk>) {
    forall i :: 0 <= i < |chunks| - 1 ==> chunks[i] != Finished
  }

  predicate StreamOk(s: Stream) {
    EndsOnce(s.chunks) && (s.finished <==> Finished in s.chunks)
  }

  /** The payloads that the framer can make of a buffer within its limit. */
  ghost predicate Framed(payload: string) {
    exists s: string :: FramedBy(payload, s)
  }

  predicate FramedBy(payload: string, s: string) {
    |s| + 1 <= MAX_PENDING && NextSeparator(s).Some? && payload == Payload(s[..NextSeparator(s).value.at], "")
  }

  /** No event that can arrive makes the protocol send anything behind FINISHED. */
  ghost predicate ProtocolOk(p: Protocol) {
    forall payload :: Framed(payload) && payload != "" && payload != DONE ==> EndsOnce(p(payload).0)
  }

  lemma DispatchOk(p: Protocol, s: Stream, payload: string)
    requires payload != "" && payload != DONE ==> EndsOnce(p(payload).0)
    requires StreamOk(s) && !s.finished
    ensures StreamOk(Dispatch(p, s, payload))
  {
    assert forall i :: 0 <= i < |s.chunks| ==> s.chunks[i] in s.chunks;
  }

  lemma {:induction false} ProcessOk(p: Protocol, s: Stream)
    requires ProtocolOk(p) && StreamOk(s) && |s.buffer| + 1 <= MAX_PENDING
    ensures StreamOk(ProcessBuffer(p, s)) && |ProcessBuffer(p, s).buffer| <= |s.buffer|
    decreases |s.buffer|
  {
    hide Dispatch, NextSeparator, ProtocolOk, Payload, StreamOk, ProcessBuffer, Framed;
    ProcessStep(p, s);
    var sep := NextSeparator(s.buffer);
    if !s.finished && sep.Some? {
      var payload := Payload(s.buffer[..sep.value.at], "");
      assert FramedBy(payload, s.buffer);
      FramedOk(p, payload, s.buffer);
      DispatchOk(p, s, payload);
      var t := Dispatch(p, s, payload).(buffer := s.buffer[sep.value.at + sep.value.size..]);
      SameChunks(Dispatch(p, s, payload), t.buffer);
      ProcessOk(p, t);
    }
  }

  lemma SameChunks(s: Stream, buffer: string)
    requires StreamOk(s)
    ensures StreamOk(s.(buffer := buffer))
  {
  }

  lemma FramedOk(p: Protocol, payload: string, s: string)
    requires ProtocolOk(p) && FramedBy(payload, s)
    ensures payload != "" && payload != DONE ==> EndsOnce(p(payload).0)
  {
    hide FramedBy, EndsOnce;
    assert Framed(payload);
  }

  /** If no protocol event sends anything after FINISHED, the runtime sees it at most once, and nothing later. */
  lemma {:induction false} FinishedOnce(p: Protocol, data: seq<string>)
    requires ProtocolOk(p) && BodyAll(p, NEW_STREAM, data).Some?
    ensures StreamOk(BodyAll(p, NEW_STREAM, data).value) && |BodyAll(p, NEW_STREAM, data).value.buffer| + 1 <= MAX_PENDING
  {
    hide ProtocolOk, ProcessBuffer;
    if data != [] {
      var before := BodyAll(p, NEW_STREAM, data[..|data| - 1]).value;
      FinishedOnce(p, data[..|data| - 1]);
      if !before.finished { ProcessOk(p, before.(buffer := before.buffer + data[|data| - 1])); }
    }
  }

  /** Chunks that have been forwarded stay. */
  lemma {:induction false} ChunksStay(p: Protocol, s: Stream)
    ensures s.chunks <= ProcessBuffer(p, s).chunks
    decreases |s.buffer|
  {
    hide NextSeparator, Payload, ProcessBuffer;
    ProcessStep(p, s);
    var sep := NextSeparator(s.buffer);
    if !s.finished && sep.Some? {
      var t := Dispatch(p, s, Payload(s.buffer[..sep.value.at], ""));
      ChunksStay(p, t.(buffer := s.buffer[sep.value.at + sep.value.size..]));
    }
  }

  /** A body callback with an unclean event passes it on. */
  lemma UncleanBody(p: Protocol, payload: string, s: string)
    requires FramedBy(payload, s) && payload != "" && payload != DONE && !EndsOnce(p(payload).0)
    ensures BodyAll(p, NEW_STREAM, [s]).Some? && !EndsOnce(BodyAll(p, NEW_STREAM, [s]).value.chunks)
  {
    hide Payload, NextSeparator, EndsOnce, ProcessBuffer;
    var data := [s];
    assert data[..0] == [] && NEW_STREAM.buffer + s == s;
    var s1 := NEW_STREAM.(buffer := s);
    var sep := NextSeparator(s).value;
    ProcessStep(p, s1);
    var d := Dispatch(p, s1, payload).(buffer := s[sep.at + sep.size..]);
    ChunksStay(p, d);
    var chunks := p(payload).0;
    assert [] + chunks == chunks;
    assert chunks <= ProcessBuffer(p, d).chunks;
    StillUnclean(chunks, ProcessBuffer(p, d).chunks);
  }

  /**
   FINISHED is the last thing the runtime ever sees of a stream, for all streams, exactly if no event that can
   arrive makes the protocol send anything behind it.
   */
  lemma FinishedOnceIff(p: Protocol)
    ensures ProtocolOk(p) <==>
              forall data :: BodyAll(p, NEW_STREAM, data).Some? ==> StreamOk(BodyAll(p, NEW_STREAM, data).value)
  {
    hide BodyAll, FramedBy, EndsOnce;
    if ProtocolOk(p) {
      forall data | BodyAll(p, NEW_STREAM, data).Some?
        ensures StreamOk(BodyAll(p, NEW_STREAM, data).value)
      {
        FinishedOnce(p, data);
      }
    }
    if !ProtocolOk(p) {
      var payload :| Framed(payload) && payload != "" && payload != DONE && !EndsOnce(p(payload).0);
      var s :| FramedBy(payload, s);
      UncleanBody(p, payload, s);
    }
  }

  /** In particular every payload of one line can arrive, and shows if it is unclean. */
  lemma UncleanEventShows(p: Protocol, payload: string)
    requires payload != "" && payload != DONE && '\n' !in payload && '\r' !in payload && |payload| + 9 <= MAX_PENDING
    requires !EndsOnce(p(payload).0)
    ensures BodyAll(p, NEW_STREAM, ["data: " + payload + "\n\n"]).Some?
    ensures !EndsOnce(BodyAll(p, NEW_STREAM, ["data: " + payload + "\n\n"]).value.chunks)
  {
    hide Payload, NextSeparator, EndsOnce, BodyAll;
    var b := "data: " + payload;
    BlockSeparated(payload);
    DataPayload(payload);
    assert (b + "\n\n")[..|b|] == b;
    UncleanBody(p, payload, b + "\n\n");
  }

  lemma StillUnclean(chunks: seq<Chunk>, more: seq<Chunk>)
    requires !EndsOnce(chunks) && chunks <= more
    ensures !EndsOnce(more)
  {
    var i :| 0 <= i < |chunks| - 1 && chunks[i] == Finished;
    assert more[i] == Finished;
  }

  lemma BlockSeparated(payload: string)
    requires '\n' !in payload && '\r' !in payload
    ensures var b := "data: " + payload; NextSeparator(b + "\n\n") == Some(Separator(|b|, 2))
  {
    var b := "data: " + payload;
    assert forall i :: 0 <= i < |b| ==> b[i] == if i < 6 then "data: "[i] else payload[i - 6];
    assert forall i :: 0 <= i < |b| ==> b[i] != '\n';
    BlankIs(b + "\n\n", |b|);
  }

  lemma DataPayload(payload: string)
    requires '\n' !in payload && '\r' !in payload
    ensures Payload("data: " + payload, "") == payload
  {
    var b := "data: " + payload;
    assert forall i :: 0 <= i < |b| ==> b[i] == if i < 6 then "data: "[i] else payload[i - 6];
    assert forall i :: 0 <= i < |b| ==> b[i] != '\n' && b[i] != '\r';
    assert FirstLF(b) == |b| && b[..|b|] == b;
    assert b[..5] == "data:" && b[5] == ' ' && b[6..] == payload;
    assert "" + payload == payload;
  }
}
