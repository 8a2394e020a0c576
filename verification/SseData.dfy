/**
 Which lines carry data, and how much of them, said with the field name itself: the other fields of an event and
 its comments leave no trace, for either framer.
 */
module SseData {
  import opened Common
  import opened SseCore
  import opened SseTheorems
  import opened SseAgreement

  predicate AllCR(s: string) {
    forall i :: 0 <= i < |s| ==> s[i] == '\r'
  }

  /** A value is added without one leading space, behind a newline if there is text already. */
  function Grown(payload: string, value: string): string {
    var added := if value != "" && value[0] == ' ' then value[1..] else value;
    if payload == "" then added else payload + "\n" + added
  }

  lemma DataPrefix(l: string)
    ensures IsData(l) <==> "data:" <= l
  {
  }

  lemma Added(payload: string, value: string)
    ensures AddLine(payload, "data:" + value) == Grown(payload, value)
  {
    var l := "data:" + value;
    assert l[..5] == "data:" && l[5..] == value;
    if value != "" { assert l[5] == value[0] && l[6..] == value[1..]; }
    assert "" + DataValue(l) == DataValue(l);
  }

  lemma {:induction false} StripsCRs(l: string, crs: string)
    requires AllCR(crs) && !EndsInCR(l)
    ensures StripAll(l + crs) == l
    decreases |crs|
  {
    if crs == "" {
      assert l + crs == l;
    } else {
      var shorter := crs[..|crs| - 1];
      assert (l + crs)[..|l + crs| - 1] == l + shorter;
      StripsCRs(l, shorter);
    }
  }

  lemma {:induction false} StripsToNothing(l: string)
    ensures StripAll(l) == "" <==> AllCR(l)
    ensures StripAll(l) <= l
  {
    if EndsInCR(l) {
      var m := l[..|l| - 1];
      StripsToNothing(m);
      assert forall i :: 0 <= i < |m| ==> m[i] == l[i];
    } else if l != "" {
      assert l[|l| - 1] != '\r';
    }
  }

  // ---- the parser --------------------------------------------------------------------------------

  lemma ParserLine(p: Parser, l: string)
    requires p.line == "" && '\n' !in l
    ensures Feed(p, l + "\n") == ProcessLine(p, l) && ProcessLine(p, l).line == ""
  {
    hide Feed, ProcessLine;
    assert l + "\n" == l + "\n" + "";
    FeedLine(p, l, "");
    FeedPlain(ProcessLine(p, l), "");
    assert "" + "" == "";
  }

  /** A line that is not blank and does not start with "data:" changes nothing; a blank one delivers the event. */
  lemma ParserSkips(p: Parser, l: string)
    requires p.line == "" && '\n' !in l && !("data:" <= l)
    ensures !AllCR(l) ==> Feed(p, l + "\n") == p
    ensures AllCR(l) ==> Feed(p, l + "\n") == if p.payload == "" then p else Parser("", "", p.events + [p.payload])
  {
    hide Feed, StripAll, IsData, AllCR;
    ParserLine(p, l);
    StripsToNothing(l);
    StripAllData(l);
    DataPrefix(l);
  }

  /** A data line adds its value, without carriage returns behind it. */
  lemma ParserTakes(p: Parser, value: string, crs: string)
    requires p.line == "" && '\n' !in value && AllCR(crs) && (value != "" ==> value[|value| - 1] != '\r')
    ensures Feed(p, "data:" + value + crs + "\n") == p.(payload := Grown(p.payload, value))
  {
    hide Feed, StripAll, IsData, AddLine, Grown;
    var l := "data:" + value;
    forall i | 0 <= i < |l + crs|
      ensures (l + crs)[i] != '\n'
    {
      if i < 5 { assert (l + crs)[i] == "data:"[i]; } else if i < |l| { assert (l + crs)[i] == value[i - 5]; }
    }
    ParserLine(p, l + crs);
    assert l[|l| - 1] == if value == "" then ':' else value[|value| - 1];
    StripsCRs(l, crs);
    Added(p.payload, value);
    assert l[0] == 'd';
  }

  // ---- the provider ------------------------------------------------------------------------------

  lemma BlockLine(l: string, rest: string, payload: string)
    requires '\n' !in l
    ensures Payload(l + "\n" + rest, payload) == Payload(rest, AddLine(payload, StripOne(l)))
    ensures Payload(l, payload) == AddLine(payload, StripOne(l))
  {
    hide AddLine, StripOne, Payload;
    var b := l + "\n" + rest;
    LineAt(l, rest);
    PayloadStep(b, payload);
    PayloadStep(l, payload);
    assert b[..|l|] == l && b[|l| + 1..] == rest && l[..|l|] == l;
  }

  lemma LineAt(l: string, rest: string)
    requires '\n' !in l
    ensures FirstLF(l + "\n" + rest) == |l| && FirstLF(l) == |l|
  {
    var b := l + "\n" + rest;
    assert forall i :: 0 <= i < |l| ==> b[i] == l[i] && l[i] in l;
    assert b[|l|] == '\n';
  }

  /** A line that does not start with "data:" changes nothing, wherever it stands in the block. */
  lemma {:induction false} ProviderSkips(before: string, l: string, rest: string, payload: string)
    requires '\n' !in l && !("data:" <= l) && (before != "" ==> before[|before| - 1] == '\n')
    ensures Payload(before + l + "\n" + rest, payload) == Payload(before + rest, payload)
    ensures Payload(before + l, payload) == Payload(before, payload)
    decreases |before|
  {
    hide Payload, AddLine, StripOne;
    if before == "" {
      assert before + l + "\n" + rest == l + "\n" + rest && before + rest == rest && before + l == l;
      BlockLine(l, rest, payload);
      NotTaken(l, payload);
      BlockLine("", "", payload);
      NotTaken("", payload);
    } else {
      var k := FirstLF(before);
      FrontLine(before);
      var first, more := before[..k], before[k + 1..];
      assert before[|before| - 1] == '\n' && k < |before|;
      var next := AddLine(payload, StripOne(first));
      assert before + l + "\n" + rest == first + "\n" + (more + l + "\n" + rest);
      assert before + rest == first + "\n" + (more + rest) && before + l == first + "\n" + (more + l);
      BlockLine(first, more + l + "\n" + rest, payload);
      BlockLine(first, more + rest, payload);
      BlockLine(first, more + l, payload);
      BlockLine(first, more, payload);
      assert more != "" ==> more[|more| - 1] == before[|before| - 1];
      ProviderSkips(more, l, rest, next);
    }
  }

  lemma NotTaken(l: string, payload: string)
    requires !("data:" <= l)
    ensures AddLine(payload, StripOne(l)) == payload
  {
    hide IsData;
    DataPrefix(StripOne(l));
    assert StripOne(l) <= l;
  }

  /** A data line adds its value; one carriage return behind it is removed. */
  lemma ProviderTakes(value: string, cr: string, rest: string, payload: string)
    requires '\n' !in value && (cr == "\r" || (cr == "" && (value != "" ==> value[|value| - 1] != '\r')))
    ensures Payload("data:" + value + cr + "\n" + rest, payload) == Payload(rest, Grown(payload, value))
    ensures Payload("data:" + value + cr, payload) == Grown(payload, value)
  {
    hide Payload, AddLine, Grown;
    var l := "data:" + value;
    forall i | 0 <= i < |l + cr|
      ensures (l + cr)[i] != '\n'
    {
      if i < 5 { assert (l + cr)[i] == "data:"[i]; } else if i < |l| { assert (l + cr)[i] == value[i - 5]; }
    }
    BlockLine(l + cr, rest, payload);
    assert l[|l| - 1] == if value == "" then ':' else value[|value| - 1];
    assert cr == "" ==> l + cr == l;
    assert (l + cr)[..|l|] == l;
    Added(payload, value);
  }

  // ---- a named event, and the end of a stream ----------------------------------------------------

  /** The usual form of a named event: both framers see its data alone. */
  lemma NamedEvent(name: string, value: string)
    requires '\n' !in name && '\n' !in value && value != "" && value[0] != ' ' && value[|value| - 1] != '\r'
    ensures Payload("event: " + name + "\ndata: " + value, "") == value
    ensures Feed(NEW_PARSER, "event: " + name + "\ndata: " + value + "\n\n").events == [value]
  {
    hide Payload, Feed;
    var l, v := "event: " + name, " " + value;
    assert l[0] == 'e' && v[|v| - 1] == value[|value| - 1];
    assert forall i :: 0 <= i < |l| ==> l[i] == if i < 7 then "event: "[i] else name[i - 7];
    assert forall i :: 0 <= i < |v| ==> v[i] == if i < 1 then ' ' else value[i - 1];
    assert v[1..] == value;
    assert "event: " + name + "\ndata: " + value == "" + l + "\n" + ("data:" + v);
    ProviderSkips("", l, "data:" + v, "");
    assert "" + ("data:" + v) == "data:" + v + "";
    ProviderTakes(v, "", "", "");
    assert "event: " + name + "\ndata: " + value + "\n\n" == (l + "\n") + (("data:" + v + "" + "\n") + ("" + "\n"));
    FeedConcat(NEW_PARSER, l + "\n", ("data:" + v + "" + "\n") + ("" + "\n"));
    ParserSkips(NEW_PARSER, l);
    FeedConcat(NEW_PARSER, "data:" + v + "" + "\n", "" + "\n");
    ParserTakes(NEW_PARSER, v, "");
    ParserSkips(Parser("", value, []), "");
    assert [] + [value] == [value];
  }

  /** The payload [DONE] is never handed to the protocol: it ends the stream. */
  lemma DoneEnds(p: Protocol, s: Stream)
    requires !s.finished
    ensures Dispatch(p, s, "[DONE]") ==
              Stream(s.buffer, true, s.payloads + ["[DONE]"], s.chunks + [Finished])
  {
  }
}
