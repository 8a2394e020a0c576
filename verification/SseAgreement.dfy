/**
 Exactly when the line parser delivers what the block framer dispatches. Read line by line, a block gives the
 same event to both if no data line keeps a carriage return behind the one that the block framer removes, and
 no data line stands behind an empty line that ends the event for the parser alone.
 */
module SseAgreement {
  import opened Common
  import opened SseCore
  import opened SseTheorems

  // ---- the condition, line by line ---------------------------------------------------------------

  predicate EndsInCR(s: string) {
    s != "" && s[|s| - 1] == '\r'
  }

  /**
   The lines of a block, behind lines that gave the payload: both framers take the same data from each. `closed`
   says that a line that is empty for the parser has already stood behind data.
   */
  predicate SameLines(b: string, payload: string, closed: bool)
    decreases |b|
  {
    var k := FirstLF(b);
    var l := b[..k];
    && (IsData(StripOne(l)) ==> !closed && !EndsInCR(StripOne(l)))
    && (k < |b| ==> SameLines(b[k + 1..], AddLine(payload, StripOne(l)), closed || (StripAll(l) == "" && payload != "")))
  }

  /** The lines behind the last separator: no complete line that is empty for the parser stands behind data. */
  predicate Quiet(s: string, payload: string)
    decreases |s|
  {
    var k := FirstLF(s);
    var l := StripAll(s[..k]);
    k < |s| ==> (l == "" ==> payload == "") && Quiet(s[k + 1..], AddLine(payload, l))
  }

  /** No data line gives the parser anything. */
  predicate NoText(b: string)
    decreases |b|
  {
    var k := FirstLF(b);
    var l := StripAll(b[..k]);
    && (IsData(l) ==> DataValue(l) == "")
    && (k < |b| ==> NoText(b[k + 1..]))
  }

  predicate AllSame(blocks: seq<string>) {
    forall k :: 0 <= k < |blocks| ==> SameLines(blocks[k], "", false)
  }

  /** The condition on a text. */
  predicate Agree(s: string) {
    AllSame(Frames(s).0) && Quiet(Frames(s).1, "")
  }

  /** The condition on the blocks up to the first one that ends the stream, or on all and what follows them. */
  predicate AgreeUpToEnd(p: Protocol, blocks: seq<string>, quiet: bool) {
    if blocks == [] then quiet
    else
      var payload := Payload(blocks[0], "");
      SameLines(blocks[0], "", false) && ((payload != "" && Ends(p, payload)) || AgreeUpToEnd(p, blocks[1..], quiet))
  }

  // ---- the parser, line by line ------------------------------------------------------------------

  lemma {:induction false} FeedConcat(p: Parser, a: string, b: string)
    ensures Feed(p, a + b) == Feed(Feed(p, a), b)
  {
    hide Step;
    if b == "" {
      assert a + b == a;
    } else {
      assert (a + b)[..|a + b| - 1] == a + b[..|b| - 1];
      FeedConcat(p, a, b[..|b| - 1]);
    }
  }

  lemma {:induction false} FeedPlain(p: Parser, s: string)
    requires '\n' !in s
    ensures Feed(p, s) == p.(line := p.line + s)
  {
    if s != "" {
      assert s[|s| - 1] in s && forall c :: c in s[..|s| - 1] ==> c in s;
      FeedPlain(p, s[..|s| - 1]);
      assert p.line + s[..|s| - 1] + [s[|s| - 1]] == p.line + s;
    } else {
      assert p.line + s == p.line;
    }
  }

  lemma FeedNewline(p: Parser)
    ensures Feed(p, "\n") == ProcessLine(p, p.line).(line := "")
  {
    assert "\n"[..0] == "" && Feed(p, "") == p;
  }

  lemma LineIgnored(p: Parser, l: string)
    ensures ProcessLine(p.(line := l), l).(line := "") == ProcessLine(p, l).(line := "")
  {
  }

  lemma FeedLine(p: Parser, l: string, rest: string)
    requires p.line == "" && '\n' !in l
    ensures Feed(p, l + "\n" + rest) == Feed(ProcessLine(p, l), rest) && ProcessLine(p, l).line == ""
  {
    hide Feed;
    FeedConcat(p, l + "\n", rest);
    FeedConcat(p, l, "\n");
    FeedPlain(p, l);
    assert "" + l == l;
    FeedNewline(p.(line := l));
    LineIgnored(p, l);
  }

  lemma FrontLine(b: string)
    ensures var k := FirstLF(b);
            '\n' !in b[..k] && (k < |b| ==> b == b[..k] + "\n" + b[k + 1..]) && (k == |b| ==> b[..k] == b)
  {
    var k := FirstLF(b);
    if k < |b| { SplitAt(b, k); }
    assert forall i :: 0 <= i < k ==> b[..k][i] == b[i];
  }

  lemma SplitAt(b: string, k: nat)
    requires k < |b| && b[k] == '\n'
    ensures b == b[..k] + "\n" + b[k + 1..]
  {
  }

  /** Every line of a block, the last one too. */
  function Consume(p: Parser, b: string): Parser
    decreases |b|
  {
    var k := FirstLF(b);
    var next := ProcessLine(p, b[..k]);
    if k == |b| then next else Consume(next, b[k + 1..])
  }

  function BlockEvents(b: string): seq<string> {
    FlushEvent(Consume(NEW_PARSER, b)).events
  }

  function EventsOf(blocks: seq<string>): seq<string> {
    if blocks == [] then [] else BlockEvents(blocks[0]) + EventsOf(blocks[1..])
  }

  lemma ConsumeStep(p: Parser, b: string)
    ensures var k := FirstLF(b);
            var next := ProcessLine(p, b[..k]);
            Consume(p, b) == if k == |b| then next else Consume(next, b[k + 1..])
  {
    hide ProcessLine;
  }

  /** What has been delivered before does not matter. */
  lemma {:induction false} ConsumeShift(p: Parser, events: seq<string>, b: string)
    requires p.line == ""
    ensures Consume(p.(events := events + p.events), b) ==
              Consume(p, b).(events := events + Consume(p, b).events)
    ensures Consume(p, b).line == ""
    decreases |b|
  {
    hide ProcessLine, Consume;
    var q := p.(events := events + p.events);
    ConsumeStep(p, b);
    ConsumeStep(q, b);
    LineShift(p, events, b[..FirstLF(b)]);
    if FirstLF(b) < |b| { ConsumeShift(ProcessLine(p, b[..FirstLF(b)]), events, b[FirstLF(b) + 1..]); }
  }

  lemma LineShift(p: Parser, events: seq<string>, l: string)
    requires p.line == ""
    ensures ProcessLine(p.(events := events + p.events), l) ==
              ProcessLine(p, l).(events := events + ProcessLine(p, l).events)
    ensures ProcessLine(p, l).line == ""
  {
    hide StripAll, AddLine;
    assert events + (p.events + [p.payload]) == events + p.events + [p.payload];
  }

  /** A separator processes the last line of the block and an empty line. */
  lemma {:induction false} SeparatorFed(p: Parser, b: string, sep: string)
    requires p.line == "" && (sep == "\n\n" || sep == "\r\n\r\n")
    ensures Feed(p, b + sep) == FlushEvent(Consume(p, b))
    decreases |b|
  {
    hide ProcessLine, Consume, Feed;
    var k := FirstLF(b);
    ConsumeStep(p, b);
    FrontLine(b);
    if k == |b| {
      LastLine(p, b, sep);
    } else {
      var rest := b[k + 1..];
      assert b + sep == b[..k] + "\n" + (rest + sep);
      FeedLine(p, b[..k], rest + sep);
      SeparatorFed(ProcessLine(p, b[..k]), rest, sep);
    }
  }

  lemma LastLine(p: Parser, l: string, sep: string)
    requires p.line == "" && '\n' !in l && (sep == "\n\n" || sep == "\r\n\r\n")
    ensures Feed(p, l + sep) == FlushEvent(ProcessLine(p, l))
  {
    hide ProcessLine, Feed;
    var cr := if sep == "\n\n" then "" else "\r";
    assert sep == cr + "\n" + cr + "\n";
    var m := l + cr;
    assert l + sep == m + "\n" + (cr + "\n");
    assert cr + "\n" == cr + "\n" + "";
    CRLine(p, l, cr);
    FeedLine(p, m, cr + "\n");
    var q := ProcessLine(p, l);
    CRLine(q, "", cr);
    assert "" + cr == cr;
    FeedLine(q, cr, "");
    EmptyLine(q);
    FeedPlain(FlushEvent(q), "");
    assert "" + "" == "";
  }

  lemma CRLine(p: Parser, l: string, cr: string)
    requires cr == "" || cr == "\r"
    ensures ProcessLine(p, l + cr) == ProcessLine(p, l)
  {
    assert cr == "" ==> l + cr == l;
    if cr == "\r" { assert (l + cr)[..|l|] == l; assert StripAll(l + cr) == StripAll(l); }
  }

  lemma EmptyLine(p: Parser)
    ensures ProcessLine(p, "") == FlushEvent(p)
  {
  }

  // ---- the parser on the blocks of a text --------------------------------------------------------

  lemma BlockFed(b: string, events: seq<string>, sep: string)
    requires sep == "\n\n" || sep == "\r\n\r\n"
    ensures Feed(Parser("", "", events), b + sep) == Parser("", "", events + BlockEvents(b))
  {
    hide Feed, Consume;
    var p := Parser("", "", events);
    SeparatorFed(p, b, sep);
    ConsumeShift(NEW_PARSER, events, b);
    assert events + [] == events;
    var c := Consume(NEW_PARSER, b);
    assert events + (c.events + [c.payload]) == events + c.events + [c.payload];
  }

  lemma SplitThree(s: string, a: nat, n: nat, middle: string)
    requires a <= n <= |s| && s[a..n] == middle
    ensures s == s[..a] + middle + s[n..]
  {
  }

  lemma SeparatorText(s: string)
    requires NextSeparator(s).Some?
    ensures var sep := NextSeparator(s).value;
            s[sep.at..sep.at + sep.size] == if sep.size == 4 then "\r\n\r\n" else "\n\n"
  {
    hide NextSeparator;
    SeparatorIs(s);
  }

  /** The parser has processed the blocks of a text one after the other, and then what follows them. */
  lemma {:induction false} FramesFed(s: string, events: seq<string>)
    ensures var (blocks, rest) := Frames(s);
            Feed(Parser("", "", events), s) == Feed(Parser("", "", events + EventsOf(blocks)), rest)
    decreases |s|
  {
    hide Feed, NextSeparator, Frames, EventsOf, BlockEvents;
    var sep := NextSeparator(s);
    FramesStep(s);
    EventsFront("", []);
    if sep == None {
      assert events + [] == events;
    } else {
      var b, n := s[..sep.value.at], sep.value.at + sep.value.size;
      SeparatorText(s);
      var nl := if sep.value.size == 4 then "\r\n\r\n" else "\n\n";
      SplitThree(s, sep.value.at, n, nl);
      FeedConcat(Parser("", "", events), b + nl, s[n..]);
      BlockFed(b, events, nl);
      FramesFed(s[n..], events + BlockEvents(b));
      var blocks := Frames(s[n..]).0;
      EventsFront(b, blocks);
      assert events + (BlockEvents(b) + EventsOf(blocks)) == events + BlockEvents(b) + EventsOf(blocks);
    }
  }

  lemma EventsFront(b: string, blocks: seq<string>)
    ensures EventsOf([]) == []
    ensures EventsOf([b] + blocks) == BlockEvents(b) + EventsOf(blocks)
  {
    hide BlockEvents;
    assert ([b] + blocks)[1..] == blocks;
  }

  lemma {:induction false} EventsConcat(a: seq<string>, b: seq<string>)
    ensures EventsOf(a + b) == EventsOf(a) + EventsOf(b)
  {
    hide BlockEvents;
    if a == [] {
      assert a + b == b;
    } else {
      assert (a + b)[0] == a[0] && (a + b)[1..] == a[1..] + b;
      EventsConcat(a[1..], b);
    }
  }

  /** However the text is cut, the parser sees the blocks that the pieces make. */
  lemma {:induction false} CutFed(data: seq<string>)
    ensures var (blocks, rest) := Cut(data);
            Feed(NEW_PARSER, Concat(data)) == Feed(Parser("", "", EventsOf(blocks)), rest)
  {
    hide Feed, Frames, EventsOf;
    EventsFront("", []);
    if data != [] {
      var init, last := data[..|data| - 1], data[|data| - 1];
      var (blocks, rest) := Cut(init);
      CutFed(init);
      FeedConcat(NEW_PARSER, Concat(init), last);
      FeedConcat(Parser("", "", EventsOf(blocks)), rest, last);
      FramesFed(rest + last, EventsOf(blocks));
      EventsConcat(blocks, Frames(rest + last).0);
    }
  }

  /** The events behind the last separator: none exactly if it is quiet there. */
  lemma {:induction false} RestFed(p: Parser, s: string)
    requires p.line == ""
    ensures p.events <= Feed(p, s).events
    ensures Feed(p, s).events == p.events <==> Quiet(s, p.payload)
    decreases |s|
  {
    hide Feed, ProcessLine;
    var k := FirstLF(s);
    FrontLine(s);
    if k == |s| {
      FeedPlain(p, s);
    } else {
      FeedLine(p, s[..k], s[k + 1..]);
      LineEvents(p, s[..k]);
      RestFed(ProcessLine(p, s[..k]), s[k + 1..]);
    }
  }

  lemma LineEvents(p: Parser, l: string)
    ensures var r := ProcessLine(p, l);
            && r.line == p.line && p.events <= r.events
            && (r.events == p.events <==> (StripAll(l) == "" ==> p.payload == ""))
            && (r.events == p.events ==> r.payload == AddLine(p.payload, StripAll(l)))
  {
    hide StripAll;
    var m := StripAll(l);
    if IsData(m) { assert m[..5][0] == m[0]; }
  }

  /** Finishing the parser makes a block of what follows the last separator. */
  lemma RestFinished(events: seq<string>, s: string)
    ensures Finish(Feed(Parser("", "", events), s)).events == events + BlockEvents(s)
  {
    hide Feed, Consume, ProcessLine;
    LinesFed(Parser("", "", events), s);
    ConsumeShift(NEW_PARSER, events, s);
    assert events + [] == events;
    var c := Consume(NEW_PARSER, s);
    assert events + (c.events + [c.payload]) == events + c.events + [c.payload];
  }

  lemma {:induction false} LinesFed(p: Parser, s: string)
    requires p.line == ""
    ensures Finish(Feed(p, s)).events == FlushEvent(Consume(p, s)).events
    decreases |s|
  {
    hide Feed, Consume, ProcessLine;
    var k := FirstLF(s);
    ConsumeStep(p, s);
    FrontLine(s);
    if k == |s| {
      FeedPlain(p, s);
      assert "" + s == s;
      LineIgnored(p, s);
      EmptyLine(p);
    } else {
      FeedLine(p, s[..k], s[k + 1..]);
      LinesFed(ProcessLine(p, s[..k]), s[k + 1..]);
    }
  }

  // ---- a block that agrees -----------------------------------------------------------------------

  lemma {:induction false} StripAllData(l: string)
    ensures IsData(l) <==> IsData(StripAll(l))
    ensures !EndsInCR(l) ==> StripAll(l) == l
    ensures !EndsInCR(StripAll(l)) && StripAll(l) <= l
  {
    if EndsInCR(l) {
      var m := l[..|l| - 1];
      StripAllData(m);
      if IsData(l) { assert l[..5][4] == l[4]; assert m[..5] == l[..5]; }
      if IsData(m) { assert m[..5] == l[..5]; }
    }
  }

  /** A data line for one framer is one for the other. */
  lemma Strips(l: string)
    ensures IsData(StripOne(l)) <==> IsData(StripAll(l))
    ensures !EndsInCR(StripOne(l)) ==> StripAll(l) == StripOne(l)
    ensures IsData(StripAll(l)) ==> StripAll(l)[0] != ':'
    ensures !EndsInCR(StripAll(l))
  {
    hide IsData;
    assert StripAll(StripOne(l)) == StripAll(l);
    StripAllData(StripOne(l));
    DataFront(StripAll(l));
  }

  lemma DataFront(m: string)
    ensures IsData(m) ==> m[0] != ':'
  {
    if IsData(m) { assert m[..5][0] == m[0]; }
  }

  /** What the parser has of a block. */
  function Held(payload: string, closed: bool): Parser {
    if closed then Parser("", "", [payload]) else Parser("", payload, [])
  }

  lemma SameLine(l: string, payload: string, closed: bool)
    requires IsData(StripOne(l)) ==> !closed && !EndsInCR(StripOne(l))
    requires closed ==> payload != ""
    ensures ProcessLine(Held(payload, closed), l) ==
              Held(AddLine(payload, StripOne(l)), closed || (StripAll(l) == "" && payload != ""))
  {
    hide StripAll, StripOne, EndsInCR, DataValue;
    Strips(l);
    var none: seq<string> := [];
    assert none + [payload] == [payload];
  }

  lemma PayloadStep(b: string, payload: string)
    ensures var k := FirstLF(b);
            var next := AddLine(payload, StripOne(b[..k]));
            Payload(b, payload) == if k == |b| then next else Payload(b[k + 1..], next)
  {
    hide DataValue;
    if b == "" { assert StripOne(b[..0]) == ""; }
  }

  lemma {:induction false} SameBlock(b: string, payload: string, closed: bool)
    requires SameLines(b, payload, closed) && (closed ==> payload != "")
    ensures var whole := Payload(b, payload);
            FlushEvent(Consume(Held(payload, closed), b)).events == if whole == "" then [] else [whole]
    decreases |b|
  {
    hide Payload, Consume, ProcessLine, StripAll, StripOne, AddLine, EndsInCR;
    var k := FirstLF(b);
    var l := b[..k];
    ConsumeStep(Held(payload, closed), b);
    PayloadStep(b, payload);
    SameLine(l, payload, closed);
    var next, done := AddLine(payload, StripOne(l)), closed || (StripAll(l) == "" && payload != "");
    PayloadGrows(payload, StripOne(l));
    if k < |b| {
      SameBlock(b[k + 1..], next, done);
    } else {
      var none: seq<string> := [];
      assert none + [next] == [next];
    }
  }

  // ---- a block that does not ---------------------------------------------------------------------

  /** s is whole, or goes on in whole behind a newline. */
  predicate Continues(s: string, whole: string) {
    s <= whole && (s != "" && s != whole ==> whole[|s|] == '\n')
  }

  lemma PayloadGrows(payload: string, l: string)
    ensures Continues(payload, AddLine(payload, l))
    ensures IsData(l) && payload != "" ==> AddLine(payload, l) != payload
  {
    hide DataValue, IsData;
  }

  lemma ContinuesTrans(a: string, b: string, c: string)
    requires Continues(a, b) && Continues(b, c)
    ensures Continues(a, c)
  {
    assert forall i :: 0 <= i < |b| ==> b[i] == c[i];
  }

  lemma {:induction false} BlockGrows(b: string, payload: string)
    ensures Continues(payload, Payload(b, payload))
    decreases |b|
  {
    hide Payload, AddLine, StripOne, Continues;
    var k := FirstLF(b);
    var next := AddLine(payload, StripOne(b[..k]));
    PayloadStep(b, payload);
    PayloadGrows(payload, StripOne(b[..k]));
    if k < |b| {
      BlockGrows(b[k + 1..], next);
      ContinuesTrans(payload, next, Payload(b, payload));
    }
  }

  /** A text that the parser never delivers: a line of it ends in a carriage return. */
  predicate Dirty(payload: string) {
    EndsInCR(payload) || exists i :: 0 <= i < |payload| - 1 && payload[i] == '\r' && payload[i + 1] == '\n'
  }

  lemma DirtyStays(s: string, whole: string)
    requires EndsInCR(s) && Continues(s, whole)
    ensures Dirty(whole)
  {
    if s != whole { assert whole[|s| - 1] == '\r' && whole[|s|] == '\n'; }
  }

  lemma DirtyLine(payload: string, l: string)
    requires IsData(l) && EndsInCR(l)
    ensures EndsInCR(AddLine(payload, l))
  {
    assert l[..5][4] == l[4];
  }

  /** What the parser delivers first, or nothing at all, is not the payload of the block. */
  predicate Misses(events: seq<string>, payload: string) {
    payload != "" && (Dirty(payload) || (events != [] && events[0] != payload))
  }

  lemma {:induction false} OtherBlock(b: string, payload: string, closed: bool)
    requires !SameLines(b, payload, closed) && (closed ==> payload != "")
    ensures Misses(FlushEvent(Consume(Held(payload, closed), b)).events, Payload(b, payload))
    decreases |b|
  {
    hide Payload, Consume, ProcessLine, StripAll, StripOne, AddLine, EndsInCR, IsData, Misses;
    var k := FirstLF(b);
    var l := b[..k];
    if IsData(StripOne(l)) && (closed || EndsInCR(StripOne(l))) {
      OtherLine(b, payload, closed);
    } else {
      ConsumeStep(Held(payload, closed), b);
      PayloadStep(b, payload);
      SameLine(l, payload, closed);
      var next, done := AddLine(payload, StripOne(l)), closed || (StripAll(l) == "" && payload != "");
      PayloadGrows(payload, StripOne(l));
      OtherBlock(b[k + 1..], next, done);
    }
  }

  lemma OtherLine(b: string, payload: string, closed: bool)
    requires closed ==> payload != ""
    requires var l := StripOne(b[..FirstLF(b)]); IsData(l) && (closed || EndsInCR(l))
    ensures Misses(FlushEvent(Consume(Held(payload, closed), b)).events, Payload(b, payload))
  {
    hide Payload, Consume, StripOne, AddLine, EndsInCR, IsData, Dirty;
    var k := FirstLF(b);
    var next, whole := AddLine(payload, StripOne(b[..k])), Payload(b, payload);
    PayloadStep(b, payload);
    PayloadGrows(payload, StripOne(b[..k]));
    if k < |b| { BlockGrows(b[k + 1..], next); }
    assert Continues(next, whole);
    if closed {
      assert |whole| > |payload|;
      FirstStays(payload, b);
    } else {
      DirtyLine(payload, StripOne(b[..k]));
      DirtyStays(next, whole);
      NotEmpty(next);
    }
  }

  lemma NotEmpty(s: string)
    requires EndsInCR(s)
    ensures s != ""
  {
  }

  lemma FirstStays(payload: string, b: string)
    ensures var r := FlushEvent(Consume(Held(payload, true), b)).events; r != [] && r[0] == payload
  {
    hide Consume;
    var p := Parser("", "", []);
    ConsumeShift(p, [payload], b);
    assert [payload] + [] == [payload];
    var c := Consume(p, b);
    assert ([payload] + c.events)[0] == payload;
  }

  // ---- everything the parser delivers is clean ---------------------------------------------------

  predicate Clean(events: seq<string>) {
    forall k :: 0 <= k < |events| ==> !Dirty(events[k])
  }

  lemma {:induction false} FeedClean(p: Parser, s: string)
    requires '\n' !in p.line && !Dirty(p.payload) && Clean(p.events)
    ensures var r := Feed(p, s); '\n' !in r.line && !Dirty(r.payload) && Clean(r.events)
  {
    hide Dirty, Clean, ProcessLine;
    if s != "" {
      var q := Feed(p, s[..|s| - 1]);
      FeedClean(p, s[..|s| - 1]);
      LineClean(q, q.line);
    }
  }

  lemma LineClean(p: Parser, l: string)
    requires '\n' !in l && !Dirty(p.payload) && Clean(p.events)
    ensures var r := ProcessLine(p, l); r.line == p.line && !Dirty(r.payload) && Clean(r.events)
  {
    hide Dirty, StripAll, AddLine;
    Strips(l);
    StripAllData(l);
    NotDirty();
    if StripAll(l) != "" && StripAll(l)[0] != ':' { CleanLine(p.payload, StripAll(l)); }
  }

  lemma NotDirty()
    ensures !Dirty("")
  {
  }

  lemma CleanLine(payload: string, l: string)
    requires '\n' !in l && !EndsInCR(l) && !Dirty(payload)
    ensures !Dirty(AddLine(payload, l))
  {
    if IsData(l) {
      ValueClean(l);
      if payload != "" { JoinClean(payload, DataValue(l)); } else { assert payload + DataValue(l) == DataValue(l); }
    }
  }

  lemma ValueClean(l: string)
    requires '\n' !in l && !EndsInCR(l) && IsData(l)
    ensures '\n' !in DataValue(l) && !EndsInCR(DataValue(l)) && !Dirty(DataValue(l))
  {
    var v := DataValue(l);
    assert forall i :: 0 <= i < |v| ==> v[i] == l[|l| - |v| + i] && v[i] in l;
  }

  lemma JoinClean(payload: string, v: string)
    requires !Dirty(payload) && '\n' !in v && !EndsInCR(v)
    ensures !Dirty(payload + "\n" + v)
  {
    var n := |payload|;
    var whole := payload + "\n" + v;
    assert |whole| == n + 1 + |v| && whole[n] == '\n';
    forall i | 0 <= i < |whole| - 1 && whole[i] == '\r'
      ensures whole[i + 1] != '\n'
    {
      if i + 1 < n { assert payload[i] == '\r'; } else if i > n { assert whole[i + 1] in v; }
    }
  }

  lemma CleanAll(s: string)
    ensures Clean(Feed(NEW_PARSER, s).events) && Clean(Finish(Feed(NEW_PARSER, s)).events)
  {
    hide Feed, Dirty, ProcessLine;
    NotDirty();
    FeedClean(NEW_PARSER, s);
    var q := Feed(NEW_PARSER, s);
    LineClean(q, q.line);
  }

  // ---- agreement ---------------------------------------------------------------------------------

  /** Payloads and events are the same up to the first ending. */
  predicate SameToEnd(p: Protocol, payloads: seq<string>, events: seq<string>) {
    UpToEnd(p, payloads) == UpToEnd(p, events) && (AnyEnds(p, payloads) <==> AnyEnds(p, events))
  }

  lemma SameToEndStep(p: Protocol, payload: string, payloads: seq<string>, events: seq<string>)
    ensures SameToEnd(p, [payload] + payloads, [payload] + events) <==>
              Ends(p, payload) || SameToEnd(p, payloads, events)
  {
    hide Ends, AnyEnds, UpToEnd;
    EndsFront(p, payload, payloads);
    EndsFront(p, payload, events);
    var a, b := UpToEnd(p, payloads), UpToEnd(p, events);
    assert ([payload] + a)[1..] == a && ([payload] + b)[1..] == b;
  }

  lemma SameToEndFront(p: Protocol, payloads: seq<string>, events: seq<string>)
    ensures payloads == [] ==> (SameToEnd(p, payloads, events) <==> events == [])
    ensures payloads != [] && (events == [] || events[0] != payloads[0]) ==> !SameToEnd(p, payloads, events)
  {
    hide Ends, AnyEnds, UpToEnd;
    FirstOfEnd(p, payloads);
    FirstOfEnd(p, events);
    OneEnds(p, "");
  }

  lemma {:induction false} AgreeIff(p: Protocol, blocks: seq<string>, more: seq<string>)
    requires Clean(EventsOf(blocks) + more)
    ensures SameToEnd(p, Payloads(blocks), EventsOf(blocks) + more) <==> AgreeUpToEnd(p, blocks, more == [])
  {
    hide Payload, BlockEvents, SameLines, Ends, SameToEnd, Dirty;
    SameToEndFront(p, Payloads(blocks), EventsOf(blocks) + more);
    if blocks == [] {
      assert EventsOf(blocks) + more == more;
    } else {
      var b, tail := blocks[0], blocks[1..];
      var payload := Payload(b, "");
      var rest := EventsOf(tail) + more;
      assert EventsOf(blocks) + more == BlockEvents(b) + rest;
      if SameLines(b, "", false) {
        BlockAgrees(b);
        SuffixClean(BlockEvents(b), rest);
        AgreeIff(p, tail, more);
        SameToEndStep(p, payload, Payloads(tail), rest);
        assert payload == "" ==> [] + Payloads(tail) == Payloads(tail) && [] + rest == rest;
      } else {
        BlockDiffers(b, rest);
        assert Payloads(blocks)[0] == payload;
      }
    }
  }

  lemma SuffixClean(a: seq<string>, b: seq<string>)
    requires Clean(a + b)
    ensures Clean(b)
  {
    hide Dirty;
    assert forall k :: 0 <= k < |b| ==> b[k] == (a + b)[|a| + k];
  }

  lemma EndsFront(p: Protocol, payload: string, tail: seq<string>)
    ensures UpToEnd(p, [payload] + tail) == if Ends(p, payload) then [payload] else [payload] + UpToEnd(p, tail)
    ensures AnyEnds(p, [payload] + tail) <==> Ends(p, payload) || AnyEnds(p, tail)
  {
    hide Ends, AnyEnds;
    AnyFront(p, [payload] + tail);
    assert ([payload] + tail)[1..] == tail;
  }

  lemma FirstOfEnd(p: Protocol, events: seq<string>)
    ensures UpToEnd(p, events) == [] <==> events == []
    ensures events != [] ==> UpToEnd(p, events)[0] == events[0]
  {
    hide Ends;
  }

  lemma BlockAgrees(b: string)
    requires SameLines(b, "", false)
    ensures BlockEvents(b) == if Payload(b, "") == "" then [] else [Payload(b, "")]
  {
    hide SameLines, Payload, Consume;
    SameBlock(b, "", false);
  }

  lemma BlockDiffers(b: string, more: seq<string>)
    requires !SameLines(b, "", false) && Clean(BlockEvents(b) + more)
    ensures Payload(b, "") != ""
    ensures BlockEvents(b) + more != [] ==> (BlockEvents(b) + more)[0] != Payload(b, "")
  {
    hide SameLines, Payload, Consume, Dirty;
    OtherBlock(b, "", false);
  }

  /** The events behind the last separator. */
  lemma RestSplit(events: seq<string>, rest: string) returns (more: seq<string>)
    ensures Feed(Parser("", "", events), rest).events == events + more
    ensures more == [] <==> Quiet(rest, "")
  {
    hide Feed, Quiet;
    RestFed(Parser("", "", events), rest);
    more := Feed(Parser("", "", events), rest).events[|events|..];
  }

  /**
   For every text, every way of cutting it into chunks that does not overflow the pending buffer and every
   protocol: the provider dispatches what the parser delivers, up to and including the first payload that ends
   the stream, exactly if both take the same from each line up to there.
   */
  lemma FramersAgree(p: Protocol, data: seq<string>)
    requires BodyAll(p, NEW_STREAM, data).Some?
    ensures var delivered := Feed(NEW_PARSER, Concat(data)).events;
            var r := BodyAll(p, NEW_STREAM, data).value;
            r.payloads == UpToEnd(p, delivered) && r.finished == AnyEnds(p, delivered) <==>
              AgreeUpToEnd(p, Cut(data).0, Quiet(Cut(data).1, ""))
  {
    hide Cut, Feed, UpToEnd, AnyEnds, BodyAll, Clean, EventsOf, Payloads, AgreeUpToEnd, Quiet;
    var (blocks, rest) := Cut(data);
    BodyCut(p, data);
    CutFed(data);
    var more := RestSplit(EventsOf(blocks), rest);
    CleanAll(Concat(data));
    AgreeIff(p, blocks, more);
  }

  /** A text that meets the condition as a whole meets it up to any ending. */
  lemma {:induction false} AgreePrefix(p: Protocol, blocks: seq<string>)
    requires AllSame(blocks)
    ensures AgreeUpToEnd(p, blocks, true)
  {
    hide SameLines, Payload, Ends;
    if blocks != [] { AgreePrefix(p, blocks[1..]); }
  }

  /** So the framers agree on every ordered text that meets it, for every way of cutting it. */
  lemma AgreeingText(p: Protocol, data: seq<string>)
    requires Ordered(Concat(data)) && Agree(Concat(data)) && BodyAll(p, NEW_STREAM, data).Some?
    ensures var delivered := Feed(NEW_PARSER, Concat(data)).events;
            var r := BodyAll(p, NEW_STREAM, data).value;
            r.payloads == UpToEnd(p, delivered) && r.finished == AnyEnds(p, delivered)
  {
    hide Ordered, Frames, Cut, Feed, UpToEnd, AnyEnds, BodyAll, AllSame, Quiet, AgreeUpToEnd;
    CutIsFrames(data);
    AgreePrefix(p, Frames(Concat(data)).0);
    FramersAgree(p, data);
  }

  // ---- without an ending -------------------------------------------------------------------------

  /** Blocks and their events, with nothing that ends the stream. */
  lemma {:induction false} AllAgreeIff(blocks: seq<string>, more: seq<string>)
    requires Clean(EventsOf(blocks) + more)
    ensures Payloads(blocks) == EventsOf(blocks) + more <==> AllSame(blocks) && more == []
  {
    hide Payload, BlockEvents, SameLines, Dirty;
    if blocks == [] {
      assert EventsOf(blocks) + more == more;
    } else {
      var b, tail := blocks[0], blocks[1..];
      var payload := Payload(b, "");
      var rest := EventsOf(tail) + more;
      assert EventsOf(blocks) + more == BlockEvents(b) + rest;
      AllSameFront(blocks);
      if SameLines(b, "", false) {
        BlockAgrees(b);
        SuffixClean(BlockEvents(b), rest);
        AllAgreeIff(tail, more);
        if payload != "" {
          assert ([payload] + Payloads(tail))[1..] == Payloads(tail) && ([payload] + rest)[1..] == rest;
        } else {
          assert [] + Payloads(tail) == Payloads(tail) && [] + rest == rest;
        }
      } else {
        BlockDiffers(b, rest);
        assert ([payload] + Payloads(tail))[0] == payload;
      }
    }
  }

  lemma AllSameFront(blocks: seq<string>)
    requires blocks != []
    ensures AllSame(blocks) <==> SameLines(blocks[0], "", false) && AllSame(blocks[1..])
  {
    hide SameLines;
    var tail := blocks[1..];
    if SameLines(blocks[0], "", false) && AllSame(tail) {
      forall k | 0 <= k < |blocks|
        ensures SameLines(blocks[k], "", false)
      {
        if k > 0 { assert blocks[k] == tail[k - 1]; }
      }
    }
  }

  /** The parser delivers exactly the payloads of the complete blocks exactly on such texts. */
  lemma ParserDelivers(s: string)
    ensures Feed(NEW_PARSER, s).events == Payloads(Frames(s).0) <==> Agree(s)
  {
    hide Frames, Feed, Clean, EventsOf, Payloads, AllSame, Quiet;
    var (blocks, rest) := Frames(s);
    FramesFed(s, []);
    assert [] + EventsOf(blocks) == EventsOf(blocks);
    var more := RestSplit(EventsOf(blocks), rest);
    CleanAll(s);
    AllAgreeIff(blocks, more);
  }

  lemma FinishedEvents(data: seq<string>)
    ensures Finish(Feed(NEW_PARSER, Concat(data))).events == EventsOf(Cut(data).0) + BlockEvents(Cut(data).1)
  {
    hide Cut, Feed, Finish, EventsOf, BlockEvents;
    CutFed(data);
    RestFinished(EventsOf(Cut(data).0), Cut(data).1);
  }

  /** With its finish it delivers the block behind the last separator too. */
  lemma FinishDelivers(data: seq<string>)
    ensures var (blocks, rest) := Cut(data);
            Finish(Feed(NEW_PARSER, Concat(data))).events == Payloads(blocks + [rest]) <==> AllSame(blocks + [rest])
  {
    hide Cut, Feed, Finish, Clean, EventsOf, Payloads, AllSame, BlockEvents;
    var (blocks, rest) := Cut(data);
    FinishedEvents(data);
    CleanAll(Concat(data));
    EventsConcat(blocks, [rest]);
    EventsFront(rest, []);
    assert [rest] + [] == [rest] && BlockEvents(rest) + [] == BlockEvents(rest);
    var all := EventsOf(blocks + [rest]);
    assert all + [] == all;
    AllAgreeIff(blocks + [rest], []);
  }

  /** A block without text for the parser gives it no event. */
  lemma {:induction false} NoTextNoEvents(p: Parser, b: string)
    requires p.line == "" && p.payload == ""
    ensures FlushEvent(Consume(p, b)).events == p.events <==> NoText(b)
    decreases |b|
  {
    hide Consume, ProcessLine, StripAll, IsData, DataValue;
    var k := FirstLF(b);
    ConsumeStep(p, b);
    TextLine(p, b[..k]);
    var next := ProcessLine(p, b[..k]);
    if next.payload == "" {
      if k < |b| { NoTextNoEvents(next, b[k + 1..]); }
    } else if k < |b| {
      HeldDelivered(next, b[k + 1..]);
    }
  }

  lemma TextLine(p: Parser, l: string)
    requires p.payload == ""
    ensures var r := ProcessLine(p, l);
            var m := StripAll(l);
            r.line == p.line && r.events == p.events && (r.payload == "" <==> (IsData(m) ==> DataValue(m) == ""))
  {
    hide StripAll, DataValue;
    Strips(l);
  }

  /** What the parser holds is delivered in the end. */
  lemma {:induction false} HeldDelivered(p: Parser, b: string)
    requires p.line == ""
    ensures p.events <= FlushEvent(Consume(p, b)).events
    ensures p.payload != "" ==> |FlushEvent(Consume(p, b)).events| > |p.events|
    decreases |b|
  {
    hide Consume, ProcessLine;
    var k := FirstLF(b);
    ConsumeStep(p, b);
    LineHeld(p, b[..k]);
    if k < |b| { HeldDelivered(ProcessLine(p, b[..k]), b[k + 1..]); }
  }

  lemma LineHeld(p: Parser, l: string)
    ensures var r := ProcessLine(p, l);
            r.line == p.line && p.events <= r.events && (p.payload != "" ==> r.payload != "" || |r.events| > |p.events|)
  {
    hide StripAll, DataValue;
  }

  /**
   At the end of a stream that nothing has finished, the parser delivers what stands behind the last
   separator and the provider drops it: they agree exactly if they agree on the blocks and nothing stands there.
   */
  lemma FramersAgreeAtEnd(p: Protocol, data: seq<string>)
    requires BodyAll(p, NEW_STREAM, data).Some? && !BodyAll(p, NEW_STREAM, data).value.finished
    ensures var r := BodyAll(p, NEW_STREAM, data).value;
            Finish(Feed(NEW_PARSER, Concat(data))).events == r.payloads <==> AllSame(Cut(data).0) && NoText(r.buffer)
  {
    hide Cut, Feed, Finish, Clean, EventsOf, Payloads, AllSame, UpToEnd, AnyEnds, BodyAll, Consume, NoText;
    var (blocks, rest) := Cut(data);
    BodyCut(p, data);
    UpToEndConcat(p, Payloads(blocks), []);
    FinishedEvents(data);
    CleanAll(Concat(data));
    AllAgreeIff(blocks, BlockEvents(rest));
    NoTextNoEvents(NEW_PARSER, rest);
  }

  // ---- tidy texts --------------------------------------------------------------------------------

  /** A line with a carriage return at its end, or with none. */
  predicate LineOk(l: string) {
    forall i :: 0 <= i < |l| - 1 ==> l[i] != '\r'
  }

  lemma OkStrips(l: string)
    requires LineOk(l)
    ensures !EndsInCR(StripOne(l)) && StripAll(l) == StripOne(l)
    ensures StripOne(l) == "" ==> l == "" || l == "\r"
  {
    if EndsInCR(l) { assert l == l[..|l| - 1] + [l[|l| - 1]]; }
    Strips(l);
  }

  lemma TidyLine(b: string)
    requires Tidy(b)
    ensures LineOk(b[..FirstLF(b)])
    ensures FirstLF(b) < |b| ==> Tidy(b[FirstLF(b) + 1..])
  {
    var k := FirstLF(b);
    if k < |b| { TidyRest(b, k + 1); }
    forall i | 0 <= i < k - 1
      ensures b[i] != '\r'
    {
      assert b[i + 1] != '\n';
    }
  }

  /** No empty line behind another line, and none at the front if there is data already. */
  ghost predicate NoBlanks(b: string, payload: string) {
    && (forall i: nat :: !BlankAt(b, i) && !DosBlankAt(b, i))
    && (payload != "" ==> b == "" || (b[0] != '\n' && !(|b| >= 2 && b[0] == '\r' && b[1] == '\n')))
  }

  lemma NextNoBlanks(b: string, payload: string)
    requires Tidy(b) && NoBlanks(b, payload) && FirstLF(b) < |b|
    ensures var k := FirstLF(b);
            && (StripAll(b[..k]) != "" || payload == "")
            && NoBlanks(b[k + 1..], AddLine(payload, StripOne(b[..k])))
  {
    hide Tidy, StripOne, StripAll, AddLine;
    TidyLine(b);
    var k := FirstLF(b);
    var l, rest := b[..k], b[k + 1..];
    OkStrips(l);
    forall i: nat
      ensures !BlankAt(rest, i) && !DosBlankAt(rest, i)
    {
      assert !BlankAt(b, k + 1 + i) && !DosBlankAt(b, k + 1 + i);
    }
    assert !BlankAt(b, k);
    if k > 0 { assert !DosBlankAt(b, k - 1); }
    if l == "\r" { assert b[0] == l[0] && b[1] == '\n'; }
    DosFront(b);
  }

  /** Behind the first line of a tidy text, an empty CRLF line makes a pair of CRLFs. */
  lemma DosFront(b: string)
    requires Tidy(b) && FirstLF(b) < |b|
    ensures var k := FirstLF(b);
            k + 1 < |b| && b[k + 1] == '\n' ==> BlankAt(b, k)
    ensures var k := FirstLF(b);
            k + 2 < |b| && b[k + 1] == '\r' && b[k + 2] == '\n' ==> k > 0 && b[k - 1] == '\r' && DosBlankAt(b, k - 1)
  {
  }

  lemma {:induction false} TidyLines(b: string, payload: string)
    requires Tidy(b) && NoBlanks(b, payload)
    ensures SameLines(b, payload, false) && Quiet(b, payload)
    decreases |b|
  {
    hide Tidy, NoBlanks, StripOne, StripAll, AddLine, EndsInCR, IsData;
    var k := FirstLF(b);
    TidyLine(b);
    OkStrips(b[..k]);
    if k < |b| {
      NextNoBlanks(b, payload);
      TidyLines(b[k + 1..], AddLine(payload, StripOne(b[..k])));
    }
  }

  lemma NoneInside(s: string, at: nat, size: nat)
    requires at <= |s|
    requires size == 2 ==> Ordered(s) && BlankAt(s, at) && forall j: nat :: j < at ==> !BlankAt(s, j)
    requires size != 2 ==> (forall j: nat :: j < at ==> !DosBlankAt(s, j)) && forall j: nat :: !BlankAt(s, j)
    ensures NoBlanks(s[..at], "")
  {
    var b := s[..at];
    assert forall i: nat :: i + 2 <= at ==> (BlankAt(b, i) <==> BlankAt(s, i));
    assert forall i: nat :: i + 4 <= at ==> (DosBlankAt(b, i) <==> DosBlankAt(s, i));
  }

  lemma NoBlanksAtAll(s: string)
    requires NextSeparator(s) == None
    ensures NoBlanks(s, "")
  {
    forall i: nat
      ensures !BlankAt(s, i) && !DosBlankAt(s, i)
    {
      if i < |s| { assert i < FindBlank(s, 0); assert i < FindDosBlank(s, 0); }
    }
  }

  /** Ordered and tidy texts, in particular those with one kind of line end, meet the condition, and so does their rest. */
  lemma {:induction false} TidyAgree(s: string)
    requires Ordered(s) && Tidy(s)
    ensures Agree(s) && SameLines(Frames(s).1, "", false)
    decreases |s|
  {
    hide Ordered, Tidy, NextSeparator, NoBlanks, Frames, SameLines, AllSame, Quiet;
    var sep := NextSeparator(s);
    FramesStep(s);
    if sep == None {
      NoBlanksAtAll(s);
      TidyLines(s, "");
      NoBlocks();
    } else {
      var at := sep.value.at;
      SeparatorIs(s);
      assert s == s[..at] + s[at..];
      PartOf(s[..at], s[at..]);
      NoneInside(s, at, sep.value.size);
      TidyLines(s[..at], "");
      RestOf(s);
      TidyAgree(s[at + sep.value.size..]);
      AllSameFront(Frames(s).0);
      assert Frames(s).0[1..] == Frames(s[at + sep.value.size..]).0;
    }
  }

  lemma NoBlocks()
    ensures AllSame([])
  {
  }
}
