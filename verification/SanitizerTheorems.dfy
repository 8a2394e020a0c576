/** What the history sanitizer lets through, what it keeps, and which histories it leaves alone. */
module SanitizerTheorems {
  import opened Common
  import opened HistorySanitizer

  // ---- what a provider accepts -----------------------------------------------------------------

  predicate ValidIds(calls: seq<Option<string>>) {
    Distinct(calls) && forall k :: 0 <= k < |calls| ==> calls[k].Some? && calls[k].value != ""
  }

  /** Distinct, nonempty call ids, each answered exactly once. */
  ghost predicate AnswersAll(calls: seq<Option<string>>, tools: seq<Msg>) {
    && |tools| == |calls| && ValidIds(calls)
    && (forall k :: 0 <= k < |tools| ==> tools[k].role == Tool && tools[k].answers in calls)
    && (forall j, k :: 0 <= j < k < |tools| ==> tools[j].answers != tools[k].answers)
    && (forall c :: c in calls ==> exists k :: 0 <= k < |tools| && tools[k].answers == c)
  }

  /**
   Only plain messages and complete groups: a calling assistant message directly followed by one answer to
   each of its calls. Tool messages occur nowhere else, system messages and commands nowhere.
   */
  ghost predicate WellFormed(h: seq<Msg>)
    decreases |h|
  {
    h == [] ||
    (!Skipped(h[0]) &&
     if Calling(h[0]) then
       var n := |h[0].calls|;
       n < |h| && AnswersAll(h[0].calls, h[1..n + 1]) && WellFormed(h[n + 1..])
     else WellFormed(h[1..]))
  }

  /** A slash with only blanks before it. */
  predicate SlashAt(text: string, k: nat) {
    k < |text| && text[k] == '/' && forall i :: 0 <= i < k ==> text[i] in {' ', '\t', '\r', '\n'}
  }

  lemma {:induction false} SlashIff(text: string)
    ensures StartsWithSlash(text) <==> exists k: nat :: SlashAt(text, k)
  {
    if text != [] {
      var rest := text[1..];
      SlashIff(rest);
      if Blank(text[0]) && StartsWithSlash(rest) {
        var k: nat :| SlashAt(rest, k);
        assert forall i :: 0 < i <= k ==> text[i] == rest[i - 1];
        assert SlashAt(text, k + 1);
      }
      if !Blank(text[0]) && text[0] == '/' { assert SlashAt(text, 0); }
      if k: nat :| SlashAt(text, k) {
        if k > 0 { assert SlashAt(rest, k - 1); }
      }
    }
  }

  /** A user message is a command, and not sent, exactly if its first character that is no blank is a slash. */
  lemma CommandIff(m: Msg)
    ensures IsCommand(m) <==> m.role == User && exists k: nat :: SlashAt(m.text, k)
    ensures m.role == User ==> (Sanitize([m]) == [m] <==> !exists k: nat :: SlashAt(m.text, k))
  {
    SlashIff(m.text);
    SanitizeFront([m]);
    SanitizeEmpty();
    assert [m][1..] == [];
  }

  /** Which single messages are sent as they are. */
  lemma PlainIff(m: Msg)
    ensures Plain(m) <==> (m.role == User && !exists k: nat :: SlashAt(m.text, k)) || (m.role == Assistant && m.calls == [])
  {
    SlashIff(m.text);
  }

  // ---- groups ----------------------------------------------------------------------------------

  lemma {:induction false} MatchedBounds(calls: seq<Option<string>>, tools: seq<Msg>, done: set<nat>)
    requires forall k :: k in done ==> k < |calls|
    ensures forall k :: k in Matched(calls, tools, done) ==> k < |calls|
    ensures forall k :: k in Matched(calls, tools, done) && k !in done ==>
              exists t :: 0 <= t < |tools| && CallIndex(calls, tools[t].answers, 0) == k
  {
    if tools != [] {
      var i := CallIndex(calls, tools[0].answers, 0);
      var done' := if i < |calls| then done + {i} else done;
      MatchedBounds(calls, tools[1..], done');
      forall k | k in Matched(calls, tools, done) && k !in done
        ensures exists t :: 0 <= t < |tools| && CallIndex(calls, tools[t].answers, 0) == k
      {
        if k in done' {
          assert CallIndex(calls, tools[0].answers, 0) == k;
        } else {
          var t :| 0 <= t < |tools[1..]| && CallIndex(calls, tools[1..][t].answers, 0) == k;
          assert CallIndex(calls, tools[t + 1].answers, 0) == k;
        }
      }
    }
  }

  lemma {:induction false} MatchedHas(calls: seq<Option<string>>, tools: seq<Msg>, done: set<nat>, t: nat)
    requires t < |tools| && CallIndex(calls, tools[t].answers, 0) < |calls|
    ensures CallIndex(calls, tools[t].answers, 0) in Matched(calls, tools, done)
  {
    var i := CallIndex(calls, tools[0].answers, 0);
    if t > 0 { MatchedHas(calls, tools[1..], if i < |calls| then done + {i} else done, t - 1); }
  }

  /** The messages answer different calls, namely those in m but not in done. */
  ghost predicate Answering(calls: seq<Option<string>>, p: seq<Msg>, m: set<nat>, done: set<nat>) {
    && |p| == |m| - |done|
    && (forall k :: 0 <= k < |p| ==>
          p[k].role == Tool && CallIndex(calls, p[k].answers, 0) < |calls| && CallIndex(calls, p[k].answers, 0) !in done)
    && (forall j, k :: 0 <= j < k < |p| ==> CallIndex(calls, p[j].answers, 0) != CallIndex(calls, p[k].answers, 0))
    && (forall c :: c in m && c !in done ==> exists k :: 0 <= k < |p| && CallIndex(calls, p[k].answers, 0) == c)
  }

  /** The picked messages answer different calls, namely the newly matched ones. */
  lemma {:induction false} PickedAre(calls: seq<Option<string>>, tools: seq<Msg>, done: set<nat>)
    requires forall k :: 0 <= k < |tools| ==> tools[k].role == Tool
    ensures Answering(calls, Picked(calls, tools, done), Matched(calls, tools, done), done)
  {
    hide CallIndex, Picked, Matched, Answering;
    if tools == [] {
      NonePicked(calls, done);
      NoneAnswering(calls, done);
    } else {
      var i := CallIndex(calls, tools[0].answers, 0);
      PickedFront(calls, tools, done);
      MatchedFront(calls, tools, done);
      if i < |calls| && i !in done {
        PickedAre(calls, tools[1..], done + {i});
        OneMore(calls, tools[0], Picked(calls, tools[1..], done + {i}), Matched(calls, tools, done), done);
      } else {
        assert i < |calls| ==> done + {i} == done;
        PickedAre(calls, tools[1..], done);
      }
    }
  }

  lemma NoneAnswering(calls: seq<Option<string>>, done: set<nat>)
    ensures Answering(calls, [], Matched(calls, [], done), done)
  {
  }

  lemma MatchedFront(calls: seq<Option<string>>, tools: seq<Msg>, done: set<nat>)
    requires tools != []
    ensures var i := CallIndex(calls, tools[0].answers, 0);
            Matched(calls, tools, done) == Matched(calls, tools[1..], if i < |calls| then done + {i} else done)
  {
  }

  /** A picked message in front of others that answer other calls. */
  lemma OneMore(calls: seq<Option<string>>, first: Msg, q: seq<Msg>, m: set<nat>, done: set<nat>)
    requires first.role == Tool && CallIndex(calls, first.answers, 0) < |calls|
    requires CallIndex(calls, first.answers, 0) !in done
    requires Answering(calls, q, m, done + {CallIndex(calls, first.answers, 0)})
    ensures Answering(calls, [first] + q, m, done)
  {
    hide CallIndex;
    var p := [first] + q;
    assert forall k :: 0 <= k < |q| ==> p[k + 1] == q[k];
    forall c | c in m && c !in done
      ensures exists k :: 0 <= k < |p| && CallIndex(calls, p[k].answers, 0) == c
    {
      if c == CallIndex(calls, first.answers, 0) {
        assert CallIndex(calls, p[0].answers, 0) == c;
      } else {
        var k :| 0 <= k < |q| && CallIndex(calls, q[k].answers, 0) == c;
        assert p[k + 1] == q[k];
      }
    }
  }

  lemma {:induction false} FullSet(s: set<nat>, n: nat)
    requires |s| == n && forall k :: k in s ==> k < n
    ensures forall k: nat :: k < n ==> k in s
  {
    forall k: nat | k < n
      ensures k in s
    {
      if k !in s {
        SetBounded(s + {k}, n);
      }
    }
  }

  /** Each call has a nonempty id of its own, and a tool message that answers it. */
  ghost predicate Complete(calls: seq<Option<string>>, tools: seq<Msg>) {
    ValidIds(calls) && forall c :: c in calls ==> exists t :: 0 <= t < |tools| && tools[t].answers == c
  }

  lemma IndexOfCall(calls: seq<Option<string>>, k: nat)
    requires ValidIds(calls) && k < |calls|
    ensures CallIndex(calls, calls[k], 0) == k
  {
  }

  /** All calls are matched exactly if the run of tool messages completes the group. */
  lemma CompleteIff(calls: seq<Option<string>>, tools: seq<Msg>)
    ensures |Matched(calls, tools, {})| == |calls| <==> Complete(calls, tools)
    ensures Complete(calls, tools) ==> forall k: nat :: k < |calls| ==> k in Matched(calls, tools, {})
  {
    hide CallIndex, Matched, Distinct;
    var m := Matched(calls, tools, {});
    MatchedBounds(calls, tools, {});
    if |m| == |calls| {
      FullSet(m, |calls|);
      AllMatched(calls, tools);
    }
    if Complete(calls, tools) {
      forall k: nat | k < |calls|
        ensures k in m
      {
        assert calls[k] in calls;
        var t :| 0 <= t < |tools| && tools[t].answers == calls[k];
        IndexOfCall(calls, k);
        MatchedHas(calls, tools, {}, t);
      }
      FullSize(m, |calls|);
    }
  }

  lemma {:induction false} FullSize(s: set<nat>, n: nat)
    requires (forall k :: k in s ==> k < n) && forall k: nat :: k < n ==> k in s
    ensures |s| == n
  {
    if n == 0 {
      assert s == {};
    } else {
      FullSize(s - {n - 1}, n - 1);
    }
  }

  lemma AllMatched(calls: seq<Option<string>>, tools: seq<Msg>)
    requires forall k: nat :: k < |calls| ==> k in Matched(calls, tools, {})
    ensures Complete(calls, tools)
  {
    hide CallIndex, Matched;
    MatchedBounds(calls, tools, {});
    forall k: nat | k < |calls|
      ensures calls[k].Some? && calls[k].value != ""
      ensures exists t :: 0 <= t < |tools| && tools[t].answers == calls[k]
      ensures forall j: nat :: j < k ==> calls[j] != calls[k]
    {
      assert k in Matched(calls, tools, {});
      var t :| 0 <= t < |tools| && CallIndex(calls, tools[t].answers, 0) == k;
      assert tools[t].answers == calls[k];
    }
  }

  /** A group is kept exactly if it is complete, and then it is the message with one answer per call. */
  lemma GroupIs(m: Msg, tools: seq<Msg>)
    requires forall k :: 0 <= k < |tools| ==> tools[k].role == Tool
    ensures Group(m, tools) == [] <==> !Complete(m.calls, tools)
    ensures Complete(m.calls, tools) ==>
              var g := Group(m, tools);
              |g| == 1 + |m.calls| && g[0] == m && AnswersAll(m.calls, g[1..])
  {
    hide CallIndex, Matched, Picked, Distinct;
    CompleteIff(m.calls, tools);
    if Complete(m.calls, tools) {
      PickedAre(m.calls, tools, {});
      var p := Picked(m.calls, tools, {});
      assert Group(m, tools)[1..] == p;
      forall c | c in m.calls
        ensures exists k :: 0 <= k < |p| && p[k].answers == c
      {
        var i :| 0 <= i < |m.calls| && m.calls[i] == c;
        assert i in Matched(m.calls, tools, {});
        var k :| 0 <= k < |p| && CallIndex(m.calls, p[k].answers, 0) == i;
        assert p[k].answers == c;
      }
    }
  }

  // ---- theorems --------------------------------------------------------------------------------

  /** Whatever the history, only plain messages and complete groups come out. */
  lemma {:induction false} SanitizedIsWellFormed(h: seq<Msg>)
    ensures WellFormed(Sanitize(h))
    decreases |h|
  {
    hide Skipped, Group, AnswersAll;
    if h != [] {
      SanitizeFront(h);
      if Skipped(h[0]) {
        SanitizedIsWellFormed(h[1..]);
      } else if Calling(h[0]) {
        var n := ToolRun(h[1..]);
        var tools, rest := h[1..][..n], h[1..][n..];
        SanitizedIsWellFormed(rest);
        GroupIs(h[0], tools);
        var g := Group(h[0], tools);
        if g == [] { assert g + Sanitize(rest) == Sanitize(rest); } else { GroupThen(g, Sanitize(rest)); }
      } else {
        SanitizedIsWellFormed(h[1..]);
        assert ([h[0]] + Sanitize(h[1..]))[1..] == Sanitize(h[1..]);
      }
    }
  }

  lemma GroupThen(g: seq<Msg>, rest: seq<Msg>)
    requires g != [] && !Skipped(g[0]) && Calling(g[0]) && |g| == 1 + |g[0].calls|
    requires AnswersAll(g[0].calls, g[1..]) && WellFormed(rest)
    ensures WellFormed(g + rest)
  {
    hide Skipped, AnswersAll;
    var n := |g[0].calls|;
    assert (g + rest)[1..n + 1] == g[1..] && (g + rest)[n + 1..] == rest;
  }

  /** Messages that answer different calls are all picked. */
  lemma {:induction false} AllPicked(calls: seq<Option<string>>, tools: seq<Msg>, done: set<nat>)
    requires forall k :: 0 <= k < |tools| ==>
               CallIndex(calls, tools[k].answers, 0) < |calls| && CallIndex(calls, tools[k].answers, 0) !in done
    requires forall j, k :: 0 <= j < k < |tools| ==>
               CallIndex(calls, tools[j].answers, 0) != CallIndex(calls, tools[k].answers, 0)
    ensures Picked(calls, tools, done) == tools
  {
    hide CallIndex;
    if tools != [] { AllPicked(calls, tools[1..], done + {CallIndex(calls, tools[0].answers, 0)}); }
  }

  lemma GroupFixed(m: Msg, tools: seq<Msg>)
    requires AnswersAll(m.calls, tools)
    ensures Group(m, tools) == [m] + tools && AllTools(tools) && |tools| == |m.calls|
  {
    hide CallIndex, Matched, Picked, Distinct;
    CompleteIff(m.calls, tools);
    forall k | 0 <= k < |tools|
      ensures var i := CallIndex(m.calls, tools[k].answers, 0); i < |m.calls| && m.calls[i] == tools[k].answers
    {
      var i :| 0 <= i < |m.calls| && m.calls[i] == tools[k].answers;
      IndexOfCall(m.calls, i);
    }
    AllPicked(m.calls, tools, {});
  }

  /** A well-formed history is not changed. */
  lemma {:induction false} WellFormedIsFixed(h: seq<Msg>)
    requires WellFormed(h)
    ensures Sanitize(h) == h
    decreases |h|
  {
    hide Group, Skipped, ToolRun, Sanitize, AnswersAll;
    SanitizeEmpty();
    if h != [] {
      SanitizeFront(h);
      if Calling(h[0]) {
        var n := |h[0].calls|;
        var tools, rest := h[1..n + 1], h[n + 1..];
        WellFormedIsFixed(rest);
        GroupFixed(h[0], tools);
        NotTool(rest);
        FrontGroup(h, n);
        RunOf(tools, rest);
      } else {
        WellFormedIsFixed(h[1..]);
        assert h == [h[0]] + h[1..];
      }
    }
  }

  lemma FrontGroup(h: seq<Msg>, n: nat)
    requires n < |h|
    ensures h[1..] == h[1..n + 1] + h[n + 1..] && h == [h[0]] + h[1..n + 1] + h[n + 1..]
    ensures h[1..][..n] == h[1..n + 1] && h[1..][n..] == h[n + 1..]
  {
  }

  predicate AllTools(tools: seq<Msg>) {
    forall k :: 0 <= k < |tools| ==> tools[k].role == Tool
  }

  lemma NotTool(h: seq<Msg>)
    requires WellFormed(h)
    ensures h != [] ==> h[0].role != Tool
  {
  }

  lemma RunOf(tools: seq<Msg>, rest: seq<Msg>)
    requires AllTools(tools) && (rest != [] ==> rest[0].role != Tool)
    ensures ToolRun(tools + rest) == |tools|
  {
    RunEnds(tools + rest, |tools|);
  }

  /** The sanitizer changes exactly the histories that are not well-formed. */
  lemma FixedIffWellFormed(h: seq<Msg>)
    ensures Sanitize(h) == h <==> WellFormed(h)
  {
    SanitizedIsWellFormed(h);
    if WellFormed(h) { WellFormedIsFixed(h); }
  }

  lemma Idempotent(h: seq<Msg>)
    ensures Sanitize(Sanitize(h)) == Sanitize(h)
  {
    SanitizedIsWellFormed(h);
    WellFormedIsFixed(Sanitize(h));
  }

  lemma {:induction false} PickedSubsequence(calls: seq<Option<string>>, tools: seq<Msg>, done: set<nat>)
    ensures Subsequence(Picked(calls, tools, done), tools)
  {
    hide CallIndex, Subsequence;
    if tools == [] {
      SubsequenceRefl<Msg>([]);
    } else {
      var i := CallIndex(calls, tools[0].answers, 0);
      var front := [tools[0]];
      assert tools == front + tools[1..];
      PickedSubsequence(calls, tools[1..], done);
      PickedSubsequence(calls, tools[1..], done + {i});
      SubsequenceRefl(front);
      NothingSubsequence(front);
      SubsequenceConcat(front, front, Picked(calls, tools[1..], done + {i}), tools[1..]);
      SubsequenceConcat([], front, Picked(calls, tools[1..], done), tools[1..]);
      assert [] + Picked(calls, tools[1..], done) == Picked(calls, tools[1..], done);
    }
  }

  lemma NothingSubsequence<T>(b: seq<T>)
    ensures Subsequence([], b)
  {
    var f: seq<nat> := [];
    var none: seq<T> := [];
    assert Embeds(f, none, b);
  }

  /** Nothing is invented or reordered. */
  lemma {:induction false} SanitizedIsSubsequence(h: seq<Msg>)
    ensures Subsequence(Sanitize(h), h)
    decreases |h|
  {
    hide Subsequence, Skipped, Picked, Matched, Sanitize, ToolRun;
    if h == [] {
      SanitizeEmpty();
      SubsequenceRefl<Msg>([]);
    } else {
      SanitizeFront(h);
      var front := [h[0]];
      assert h == front + h[1..];
      SubsequenceRefl(front);
      NothingSubsequence(front);
      if Calling(h[0]) && !Skipped(h[0]) {
        var n := ToolRun(h[1..]);
        var tools, rest := h[1..][..n], h[1..][n..];
        assert h == front + tools + rest;
        SanitizedIsSubsequence(rest);
        PickedSubsequence(h[0].calls, tools, {});
        SubsequenceConcat(front, front, Picked(h[0].calls, tools, {}), tools);
        NothingSubsequence(front + tools);
        SubsequenceConcat(Group(h[0], tools), front + tools, Sanitize(rest), rest);
      } else {
        SanitizedIsSubsequence(h[1..]);
        SubsequenceConcat(front, front, Sanitize(h[1..]), h[1..]);
        SubsequenceConcat([], front, Sanitize(h[1..]), h[1..]);
        assert [] + Sanitize(h[1..]) == Sanitize(h[1..]);
      }
    }
  }

  /** Parts are sanitized independently wherever the second one does not start with a tool message. */
  lemma {:induction false} SanitizeConcat(a: seq<Msg>, b: seq<Msg>)
    requires b != [] ==> b[0].role != Tool
    ensures Sanitize(a + b) == Sanitize(a) + Sanitize(b)
    decreases |a|
  {
    hide Skipped, Group, Sanitize, ToolRun;
    SanitizeEmpty();
    if a == [] {
      assert a + b == b && [] + Sanitize(b) == Sanitize(b);
    } else {
      SanitizeFront(a);
      SanitizeFront(a + b);
      assert (a + b)[0] == a[0] && (a + b)[1..] == a[1..] + b;
      if Calling(a[0]) && !Skipped(a[0]) {
        var n := ToolRun(a[1..]);
        RunExtends(a[1..], b);
        var g, rest := Group(a[0], a[1..][..n]), a[1..][n..];
        SanitizeConcat(rest, b);
        assert g + (Sanitize(rest) + Sanitize(b)) == g + Sanitize(rest) + Sanitize(b);
      } else {
        SanitizeConcat(a[1..], b);
        assert [a[0]] + (Sanitize(a[1..]) + Sanitize(b)) == [a[0]] + Sanitize(a[1..]) + Sanitize(b);
      }
    }
  }

  lemma RunExtends(a: seq<Msg>, b: seq<Msg>)
    requires b != [] ==> b[0].role != Tool
    ensures var n := ToolRun(a);
            ToolRun(a + b) == n && (a + b)[..n] == a[..n] && (a + b)[n..] == a[n..] + b
  {
    hide ToolRun;
    RunEnds(a + b, ToolRun(a));
  }

  /** A calling message and the tool messages behind it survive exactly if the group is complete. */
  lemma KeepsCompleteGroups(a: seq<Msg>, m: Msg, tools: seq<Msg>, b: seq<Msg>)
    requires Calling(m) && (forall k :: 0 <= k < |tools| ==> tools[k].role == Tool)
    requires b != [] ==> b[0].role != Tool
    ensures Sanitize(a + [m] + tools + b) == Sanitize(a) + Group(m, tools) + Sanitize(b)
    ensures Group(m, tools) == [] <==> !Complete(m.calls, tools)
    ensures AnswersAll(m.calls, tools) ==> Group(m, tools) == [m] + tools
  {
    hide Group, Complete, AnswersAll, Sanitize, AllTools;
    IsAllTools(tools);
    var g := [m] + tools;
    assert g[0] == m && (g + b)[0] == m;
    Associate(a, [m], tools, b);
    SanitizeConcat(a, g + b);
    SanitizeConcat(g, b);
    SanitizeGroup(m, tools);
    GroupIs(m, tools);
    if AnswersAll(m.calls, tools) { GroupFixed(m, tools); }
    Associate(Sanitize(a), [], Group(m, tools), Sanitize(b));
  }

  lemma Associate(a: seq<Msg>, b: seq<Msg>, c: seq<Msg>, d: seq<Msg>)
    ensures a + b + c + d == a + ((b + c) + d)
    ensures b == [] ==> a + c + d == a + (c + d)
  {
  }

  lemma IsAllTools(tools: seq<Msg>)
    requires forall k :: 0 <= k < |tools| ==> tools[k].role == Tool
    ensures AllTools(tools)
  {
  }

  /** A group by itself. */
  lemma SanitizeGroup(m: Msg, tools: seq<Msg>)
    requires Calling(m) && AllTools(tools)
    ensures Sanitize([m] + tools) == Group(m, tools)
  {
    hide Group, Sanitize, ToolRun, AllTools;
    var g := [m] + tools;
    SanitizeFront(g);
    SanitizeEmpty();
    assert g[1..] == tools && tools + [] == tools;
    RunOf(tools, []);
    assert tools[..|tools|] == tools && tools[|tools|..] == [];
    assert Group(m, tools) + [] == Group(m, tools);
  }

  function PlainOf(h: seq<Msg>): seq<Msg> {
    if h == [] then [] else (if Plain(h[0]) then [h[0]] else []) + PlainOf(h[1..])
  }

  lemma {:induction false} PlainConcat(a: seq<Msg>, b: seq<Msg>)
    ensures PlainOf(a + b) == PlainOf(a) + PlainOf(b)
  {
    hide Plain;
    if a == [] {
      assert a + b == b && [] + PlainOf(b) == PlainOf(b);
    } else {
      assert (a + b)[0] == a[0] && (a + b)[1..] == a[1..] + b;
      PlainConcat(a[1..], b);
      var one := if Plain(a[0]) then [a[0]] else [];
      assert one + (PlainOf(a[1..]) + PlainOf(b)) == one + PlainOf(a[1..]) + PlainOf(b);
    }
  }

  lemma {:induction false} NoPlain(h: seq<Msg>)
    requires forall k :: 0 <= k < |h| ==> h[k].role == Tool
    ensures PlainOf(h) == []
  {
    if h != [] { NoPlain(h[1..]); }
  }

  /** Every plain user and assistant message is kept, in order. */
  lemma {:induction false} KeepsPlainMessages(h: seq<Msg>)
    ensures PlainOf(Sanitize(h)) == PlainOf(h)
    decreases |h|
  {
    hide Group, Complete, AnswersAll;
    if h != [] {
      SanitizeFront(h);
      if Calling(h[0]) && !Skipped(h[0]) {
        var n := ToolRun(h[1..]);
        var tools, rest := h[1..][..n], h[1..][n..];
        KeepsPlainMessages(rest);
        GroupHasNoPlain(h[0], tools);
        PlainConcat(Group(h[0], tools), Sanitize(rest));
        PlainConcat(tools, rest);
        NoPlain(tools);
        assert h[1..] == tools + rest;
      } else {
        KeepsPlainMessages(h[1..]);
      }
    }
  }

  lemma GroupHasNoPlain(m: Msg, tools: seq<Msg>)
    requires Calling(m) && forall k :: 0 <= k < |tools| ==> tools[k].role == Tool
    ensures PlainOf(Group(m, tools)) == []
  {
    hide Complete;
    GroupIs(m, tools);
    var g := Group(m, tools);
    if g != [] { NoPlain(g[1..]); }
  }

  // ---- histories that the runtime writes -------------------------------------------------------

  /** What one atomic batch of the runtime adds to a history. */
  datatype Turn = Said(m: Msg) | Used(assistant: Msg, tool: Msg)

  predicate TurnOk(t: Turn) {
    match t
    case Said(m) => (m.role == User || m.role == Assistant) && m.calls == [] && !IsCommand(m)
    case Used(a, m) =>
      a.role == Assistant && m.role == Tool && |a.calls| == 1 && a.calls[0].Some? && a.calls[0].value != ""
      && m.answers == a.calls[0]
  }

  function Written(turns: seq<Turn>): seq<Msg> {
    if turns == [] then []
    else (match turns[0] case Said(m) => [m] case Used(a, m) => [a, m]) + Written(turns[1..])
  }

  /** Histories made of whole batches, with nonempty call ids and without commands, are left alone. */
  lemma {:induction false} RuntimeHistoryIsFixed(turns: seq<Turn>)
    requires forall k :: 0 <= k < |turns| ==> TurnOk(turns[k])
    ensures WellFormed(Written(turns)) && Sanitize(Written(turns)) == Written(turns)
  {
    if turns != [] {
      RuntimeHistoryIsFixed(turns[1..]);
      var h, rest := Written(turns), Written(turns[1..]);
      match turns[0] {
        case Said(m) =>
          assert h[1..] == rest;
        case Used(a, m) =>
          assert h[1..2] == [m] && h[2..] == rest && h[1..2][0].answers == a.calls[0];
          assert a.calls == [a.calls[0]];
          assert AnswersAll(a.calls, h[1..2]);
      }
      WellFormedIsFixed(h);
    }
  }

  /** A load limit that cuts a batch in two costs only the orphaned tool message. */
  lemma CutHistory(orphan: Msg, turns: seq<Turn>)
    requires orphan.role == Tool && forall k :: 0 <= k < |turns| ==> TurnOk(turns[k])
    ensures Sanitize([orphan] + Written(turns)) == Written(turns)
  {
    RuntimeHistoryIsFixed(turns);
    assert ([orphan] + Written(turns))[1..] == Written(turns);
  }
}
