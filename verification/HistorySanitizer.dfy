/**
 The history sanitizer of the context builder: which stored messages may be sent to a model provider.
 Providers reject a tool message that does not answer a call of the assistant message before it, and an
 assistant message whose calls are not all answered.
 */
module HistorySanitizer {
  import opened Common

  datatype Role = System | User | Assistant | Tool

  /** `calls` are the ids of an assistant's tool calls, `answers` the call that a tool message replies to. */
  datatype Msg = Msg(role: Role, calls: seq<Option<string>>, answers: Option<string>, text: string)

  predicate Blank(c: char) {
    c == ' ' || c == '\t' || c == '\r' || c == '\n'
  }

  predicate StartsWithSlash(text: string) {
    text != [] && (if Blank(text[0]) then StartsWithSlash(text[1..]) else text[0] == '/')
  }

  predicate IsCommand(m: Msg) {
    m.role == User && StartsWithSlash(m.text)
  }

  predicate Skipped(m: Msg) {
    m.role == System || m.role == Tool || IsCommand(m)
  }

  predicate Calling(m: Msg) {
    m.role == Assistant && m.calls != []
  }

  predicate Plain(m: Msg) {
    !Skipped(m) && !Calling(m)
  }

  /** The first call with an id, or the number of calls. An empty id matches nothing. */
  function CallIndex(calls: seq<Option<string>>, id: Option<string>, i: nat): (r: nat)
    requires i <= |calls|
    ensures i <= r <= |calls|
    ensures r < |calls| ==> id.Some? && id.value != "" && calls[r] == id
    ensures id.Some? && id.value != "" ==> forall k :: i <= k < r ==> calls[k] != id
    decreases |calls| - i
  {
    if id == None || id.value == "" then |calls|
    else if i == |calls| || calls[i] == id then i
    else CallIndex(calls, id, i + 1)
  }

  function ToolRun(h: seq<Msg>): (n: nat)
    ensures n <= |h|
    ensures forall k :: 0 <= k < n ==> h[k].role == Tool
    ensures n < |h| ==> h[n].role != Tool
  {
    if h == [] || h[0].role != Tool then 0 else 1 + ToolRun(h[1..])
  }

  /** The calls that a run of tool messages answers, given those answered before. */
  function Matched(calls: seq<Option<string>>, tools: seq<Msg>, done: set<nat>): (r: set<nat>)
    ensures done <= r
  {
    if tools == [] then done
    else
      var i := CallIndex(calls, tools[0].answers, 0);
      Matched(calls, tools[1..], if i < |calls| then done + {i} else done)
  }

  /** The first answer to every call, in the order of the answers. */
  function Picked(calls: seq<Option<string>>, tools: seq<Msg>, done: set<nat>): seq<Msg> {
    if tools == [] then []
    else
      var i := CallIndex(calls, tools[0].answers, 0);
      if i < |calls| && i !in done then [tools[0]] + Picked(calls, tools[1..], done + {i})
      else Picked(calls, tools[1..], done)
  }

  function Group(m: Msg, tools: seq<Msg>): seq<Msg> {
    if |Matched(m.calls, tools, {})| == |m.calls| then [m] + Picked(m.calls, tools, {}) else []
  }

  function Sanitize(h: seq<Msg>): seq<Msg>
    decreases |h|
  {
    if h == [] then []
    else if Skipped(h[0]) then Sanitize(h[1..])
    else if Calling(h[0]) then
      var n := ToolRun(h[1..]);
      Group(h[0], h[1..][..n]) + Sanitize(h[1..][n..])
    else [h[0]] + Sanitize(h[1..])
  }

  // ---- the loops -------------------------------------------------------------------------------

  /** Walk the tool messages behind an assistant message and count the calls they answer. */
  method CountMatched(calls: seq<Option<string>>, history: seq<Msg>, start: nat, end: nat)
    returns (count: nat, groupEnd: nat)
    requires start <= end <= |history|
    ensures groupEnd == start + ToolRun(history[start..end])
    ensures count == |Matched(calls, history[start..groupEnd], {})|
  {
    hide Matched, CallIndex, ToolRun;
    var matched := new bool[|calls|](k => false);
    count, groupEnd := 0, start;
    ghost var done: set<nat> := {};
    NoneMatched(calls);
    assert history[start..start] == [];
    while groupEnd < end && history[groupEnd].role == Tool
      invariant start <= groupEnd <= end
      invariant forall k :: start <= k < groupEnd ==> history[k].role == Tool
      invariant forall k: nat :: k < |calls| ==> (matched[k] <==> k in done)
      invariant forall k :: k in done ==> k < |calls|
      invariant count == |done| && done == Matched(calls, history[start..groupEnd], {})
    {
      var index := CallIndex(calls, history[groupEnd].answers, 0);
      MatchedNext(calls, history, start, groupEnd, done);
      if index < |calls| && !matched[index] {
        matched[index] := true;
        count := count + 1;
        done := done + {index};
      }
      groupEnd := groupEnd + 1;
    }
    RunEnds(history[start..end], groupEnd - start);
  }

  /** Append the assistant message at position i and its answers, or nothing if an answer is missing. */
  method AppendValidToolGroup(out: seq<Msg>, history: seq<Msg>, i: nat, end: nat)
    returns (out': seq<Msg>, next: nat)
    requires i < end <= |history| && Calling(history[i])
    ensures next == i + 1 + ToolRun(history[i + 1..end])
    ensures out' == out + Group(history[i], history[i + 1..next])
  {
    hide Matched, Picked, CallIndex, ToolRun;
    var calls := history[i].calls;
    var count;
    count, next := CountMatched(calls, history, i + 1, end);
    if count != |calls| { return out, next; }

    var matched := new bool[|calls|](k => false);
    ghost var done: set<nat> := {};
    ghost var picked: seq<Msg> := [];
    out' := out + [history[i]];
    var k := i + 1;
    while k < next
      invariant i + 1 <= k <= next
      invariant forall l: nat :: l < |calls| ==> (matched[l] <==> l in done)
      invariant out' == out + [history[i]] + picked
      invariant picked + Picked(calls, history[k..next], done) == Picked(calls, history[i + 1..next], {})
    {
      PickedFront(calls, history[k..next], done);
      assert history[k..next][1..] == history[k + 1..next];
      var index := CallIndex(calls, history[k].answers, 0);
      if index < |calls| && !matched[index] {
        matched[index] := true;
        done := done + {index};
        picked := picked + [history[k]];
        out' := out' + [history[k]];
      }
      k := k + 1;
    }
    assert history[next..next] == [];
    NonePicked(calls, done);
    assert picked == Picked(calls, history[i + 1..next], {});
  }

  /** Append what a provider may see of the messages from start to end. */
  method AppendHistoryRangeSanitized(out: seq<Msg>, history: seq<Msg>, start: nat, end: nat) returns (out': seq<Msg>)
    requires start <= end <= |history|
    ensures out' == out + Sanitize(history[start..end])
  {
    hide Sanitize, Group, Skipped, ToolRun;
    var i := start;
    out' := out;
    while i < end
      invariant start <= i <= end
      invariant out' + Sanitize(history[i..end]) == out + Sanitize(history[start..end])
      decreases end - i
    {
      var m := history[i];
      SanitizeFront(history[i..end]);
      assert history[i..end][1..] == history[i + 1..end];
      if Skipped(m) {
        i := i + 1;
      } else if m.role == Assistant && |m.calls| > 0 {
        var next;
        out', next := AppendValidToolGroup(out', history, i, end);
        assert history[i + 1..end][..next - i - 1] == history[i + 1..next];
        assert history[i + 1..end][next - i - 1..] == history[next..end];
        i := next;
      } else {
        out' := out' + [m];
        i := i + 1;
      }
    }
    assert history[end..end] == [];
    SanitizeEmpty();
    assert out' + [] == out';
  }

  lemma NoneMatched(calls: seq<Option<string>>)
    ensures Matched(calls, [], {}) == {}
  {
  }

  lemma NonePicked(calls: seq<Option<string>>, done: set<nat>)
    ensures Picked(calls, [], done) == []
  {
  }

  lemma PickedFront(calls: seq<Option<string>>, tools: seq<Msg>, done: set<nat>)
    requires tools != []
    ensures var i := CallIndex(calls, tools[0].answers, 0);
            Picked(calls, tools, done) ==
              if i < |calls| && i !in done then [tools[0]] + Picked(calls, tools[1..], done + {i})
              else Picked(calls, tools[1..], done)
  {
  }

  lemma SanitizeEmpty()
    ensures Sanitize([]) == []
  {
  }

  lemma SanitizeFront(h: seq<Msg>)
    requires h != []
    ensures Skipped(h[0]) ==> Sanitize(h) == Sanitize(h[1..])
    ensures !Skipped(h[0]) && Calling(h[0]) ==>
              var n := ToolRun(h[1..]);
              Sanitize(h) == Group(h[0], h[1..][..n]) + Sanitize(h[1..][n..])
    ensures !Skipped(h[0]) && !Calling(h[0]) ==> Sanitize(h) == [h[0]] + Sanitize(h[1..])
  {
  }

  lemma {:induction false} MatchedSnoc(calls: seq<Option<string>>, tools: seq<Msg>, m: Msg, done: set<nat>)
    ensures var i := CallIndex(calls, m.answers, 0);
            Matched(calls, tools + [m], done) ==
              Matched(calls, tools, done) + if i < |calls| then {i} else {}
  {
    if tools == [] {
      assert [m][1..] == [];
    } else {
      var i := CallIndex(calls, tools[0].answers, 0);
      assert (tools + [m])[1..] == tools[1..] + [m];
      MatchedSnoc(calls, tools[1..], m, if i < |calls| then done + {i} else done);
    }
  }

  /** One more tool message in a range that matches `done` so far. */
  lemma MatchedNext(calls: seq<Option<string>>, history: seq<Msg>, start: nat, k: nat, done: set<nat>)
    requires start <= k < |history| && done == Matched(calls, history[start..k], {})
    ensures var i := CallIndex(calls, history[k].answers, 0);
            Matched(calls, history[start..k + 1], {}) == if i < |calls| && i !in done then done + {i} else done
  {
    hide Matched, CallIndex;
    MatchedSnoc(calls, history[start..k], history[k], {});
    assert history[start..k + 1] == history[start..k] + [history[k]];
    var i := CallIndex(calls, history[k].answers, 0);
    assert i in done ==> done + {i} == done;
  }

  lemma RunEnds(h: seq<Msg>, n: nat)
    requires n <= |h| && (forall k :: 0 <= k < n ==> h[k].role == Tool) && (n < |h| ==> h[n].role != Tool)
    ensures ToolRun(h) == n
  {
  }
}
