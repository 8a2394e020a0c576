/** What the tool slots hold after any accepted chunks, what is executed, and what a complete response becomes. */
module ToolStreamTheorems {
  import opened Common
  import opened ToolStreamCore

  // ---- a reference: calls read off the whole chunk history ----------------------------------------

  predicate OfTool(c: Chunk) {
    c.ToolStart? || c.ToolDelta? || c.ToolEnd?
  }

  predicate Usable(c: Chunk)
    requires OfTool(c)
  {
    c.index >= 0 || c.id != ""
  }

  /** The chunk names the call that `start` begins, by its index or by its id. */
  predicate Belongs(c: Chunk, start: Chunk)
    requires OfTool(c) && OfTool(start)
  {
    (c.index >= 0 && start.index == c.index) || (c.id != "" && start.id == c.id)
  }

  function Starts(cs: seq<Chunk>): (r: seq<Chunk>)
    ensures forall k :: 0 <= k < |r| ==> r[k].ToolStart? && r[k] in cs
  {
    if cs == [] then []
    else Starts(cs[..|cs| - 1]) + if cs[|cs| - 1].ToolStart? then [cs[|cs| - 1]] else []
  }

  /** The chunk goes to the k-th call: the first one that it names. */
  predicate Owns(starts: seq<Chunk>, k: nat, c: Chunk)
    requires OfTool(c) && forall j :: 0 <= j < |starts| ==> starts[j].ToolStart?
  {
    k < |starts| && Belongs(c, starts[k]) && forall j :: 0 <= j < k ==> !Belongs(c, starts[j])
  }

  /** The deltas that went to the k-th call, one after the other. */
  function Deltas(cs: seq<Chunk>, k: nat): string {
    if cs == [] then ""
    else
      var init, c := cs[..|cs| - 1], cs[|cs| - 1];
      Deltas(init, k) + if c.ToolDelta? && Owns(Starts(init), k, c) then c.content else ""
  }

  /** The k-th call was ended by name, or by an end for all the calls begun so far. */
  predicate EndedIn(cs: seq<Chunk>, k: nat) {
    cs != [] &&
    var init, c := cs[..|cs| - 1], cs[|cs| - 1];
    EndedIn(init, k) || (c.ToolEnd? && if Usable(c) then Owns(Starts(init), k, c) else k < |Starts(init)|)
  }

  /** Every started call, in start order, with its own deltas. */
  function Assembled(cs: seq<Chunk>): (r: seq<Slot>)
    ensures |r| == |Starts(cs)|
  {
    seq(|Starts(cs)|, k requires 0 <= k < |Starts(cs)| =>
      Slot(Starts(cs)[k].name, Starts(cs)[k].id, Starts(cs)[k].index, Deltas(cs, k), EndedIn(cs, k)))
  }

  /** What may come next: a new call with a name of its own, or a chunk for a call that is still open. */
  ghost predicate Accepts(before: seq<Chunk>, c: Chunk) {
    match c
    case ToolStart(name, _, _) =>
      name != "" && |Starts(before)| < MAX_TOOLS
      && forall k :: 0 <= k < |Starts(before)| ==> !Belongs(c, Starts(before)[k])
    case ToolDelta(_, _, _) => exists k: nat :: Owns(Starts(before), k, c) && !EndedIn(before, k)
    case ToolEnd(_, _) =>
      if Usable(c) then exists k: nat :: Owns(Starts(before), k, c) && !EndedIn(before, k)
      else Starts(before) != []
    case _ => true
  }

  ghost predicate AllAccepted(cs: seq<Chunk>) {
    forall i :: 0 <= i < |cs| ==> Accepts(cs[..i], cs[i])
  }

  /** What counts against the byte limit: everything that is shown, thought, or passed to a tool. */
  function Size(c: Chunk): nat {
    match c
    case Thinking(content) => |content|
    case Text(content) => |content|
    case ToolStart(_, _, _) => 0
    case ToolDelta(content, _, _) => |content|
    case ToolEnd(_, _) => 0
    case Finished => 0
    case Notice(content) => |content|
  }

  function Content(cs: seq<Chunk>): nat {
    if cs == [] then 0 else Content(cs[..|cs| - 1]) + Size(cs[|cs| - 1])
  }

  // ---- reassembly ------------------------------------------------------------------------------

  /** The loop's state is what the reference says of the chunks so far. */
  ghost predicate Tracks(s: Loop, cs: seq<Chunk>, maxBytes: nat) {
    && s.slots == Assembled(cs)
    && !s.limitExceeded && s.maxBytes == maxBytes
    && s.emitted == (if maxBytes > 0 then Content(cs) else 0)
  }

  lemma Snoc(init: seq<Chunk>, c: Chunk)
    ensures (init + [c])[..|init + [c]| - 1] == init && (init + [c])[|init|] == c
    ensures Starts(init + [c]) == Starts(init) + if c.ToolStart? then [c] else []
    ensures Content(init + [c]) == Content(init) + Size(c)
  {
    assert (init + [c])[..|init|] == init;
  }

  lemma SlotSnoc(init: seq<Chunk>, c: Chunk, k: nat)
    ensures Deltas(init + [c], k) ==
              Deltas(init, k) + if c.ToolDelta? && Owns(Starts(init), k, c) then c.content else ""
    ensures EndedIn(init + [c], k) <==>
              EndedIn(init, k) || (c.ToolEnd? && if Usable(c) then Owns(Starts(init), k, c) else k < |Starts(init)|)
    ensures Deltas(init, k) + "" == Deltas(init, k)
  {
    Snoc(init, c);
  }

  /** A call that has not begun has no deltas and no end. */
  lemma {:induction false} NotYet(cs: seq<Chunk>, k: nat)
    requires k >= |Starts(cs)|
    ensures Deltas(cs, k) == "" && !EndedIn(cs, k)
  {
    if cs != [] { NotYet(cs[..|cs| - 1], k); }
  }

  /** The slot that a chunk finds is the one that owns it. */
  lemma FindsOwner(cs: seq<Chunk>, c: Chunk)
    requires OfTool(c)
    ensures var n := FindSlot(Assembled(cs), c.index, c.id, 0);
            && (n < |Starts(cs)| ==> Owns(Starts(cs), n, c) && forall k: nat :: Owns(Starts(cs), k, c) ==> k == n)
            && (n == |Starts(cs)| ==> forall k: nat :: k < |Starts(cs)| ==> !Belongs(c, Starts(cs)[k]))
            && ((exists k: nat :: Owns(Starts(cs), k, c) && !EndedIn(cs, k)) <==>
                  n < |Starts(cs)| && !EndedIn(cs, n))
  {
    hide Deltas, EndedIn;
    var slots := Assembled(cs);
    var n := FindSlot(slots, c.index, c.id, 0);
    assert forall k: nat :: k < |slots| ==> (Matches(slots[k], c.index, c.id) <==> Belongs(c, Starts(cs)[k]));
    if n < |Starts(cs)| { assert Owns(Starts(cs), n, c); }
  }

  /** One chunk: it is accepted exactly if it may come next, and then the state is tracked on. */
  lemma CallbackStep(s: Loop, init: seq<Chunk>, c: Chunk, maxBytes: nat)
    requires Tracks(s, init, maxBytes) && (maxBytes == 0 || Content(init) <= maxBytes)
    ensures var (status, s') := Callback(s, c);
            && (status == Ok <==> Accepts(init, c) && (maxBytes == 0 || Content(init + [c]) <= maxBytes))
            && (status == Ok ==> Tracks(s', init + [c], maxBytes))
  {
    hide FindSlot, Assembled, Owns, Deltas, EndedIn, Accepts, Starts, Content;
    Snoc(init, c);
    match c
    case ToolStart(_, _, _) => StartStep(s, init, c, maxBytes);
    case ToolDelta(_, _, _) => DeltaStep(s, init, c, maxBytes);
    case ToolEnd(_, _) => EndStep(s, init, c, maxBytes);
    case _ => OtherStep(init, c);
  }

  lemma OtherStep(init: seq<Chunk>, c: Chunk)
    requires !OfTool(c)
    ensures Assembled(init + [c]) == Assembled(init) && Accepts(init, c)
  {
    hide Deltas, EndedIn;
    Snoc(init, c);
    forall k: nat | k < |Starts(init)|
      ensures Assembled(init + [c])[k] == Assembled(init)[k]
    {
      SlotSnoc(init, c, k);
    }
  }

  lemma StartSlots(init: seq<Chunk>, c: Chunk)
    requires c.ToolStart?
    ensures Assembled(init + [c]) == Assembled(init) + [Slot(c.name, c.id, c.index, "", false)]
  {
    hide Deltas, EndedIn;
    var cs := init + [c];
    Snoc(init, c);
    NotYet(init, |Starts(init)|);
    forall k: nat | k < |Starts(cs)|
      ensures Assembled(cs)[k] == (Assembled(init) + [Slot(c.name, c.id, c.index, "", false)])[k]
    {
      SlotSnoc(init, c, k);
    }
  }

  lemma StartStep(s: Loop, init: seq<Chunk>, c: Chunk, maxBytes: nat)
    requires c.ToolStart? && Tracks(s, init, maxBytes) && (maxBytes == 0 || Content(init) <= maxBytes)
    ensures Callback(s, c).0 == Ok <==> Accepts(init, c)
    ensures Callback(s, c).0 == Ok ==> Tracks(Callback(s, c).1, init + [c], maxBytes)
  {
    hide FindSlot, Assembled, Deltas, EndedIn, Starts, Content;
    Snoc(init, c);
    FindsOwner(init, c);
    StartSlots(init, c);
  }

  lemma DeltaSlots(init: seq<Chunk>, c: Chunk, n: nat)
    requires c.ToolDelta? && n < |Starts(init)| && Owns(Starts(init), n, c)
    ensures var t := Assembled(init)[n];
            Assembled(init + [c]) == Assembled(init)[n := t.(arguments := t.arguments + c.content)]
  {
    hide Deltas, EndedIn;
    var cs := init + [c];
    Snoc(init, c);
    var t := Assembled(init)[n];
    forall k: nat | k < |Starts(cs)|
      ensures Assembled(cs)[k] == Assembled(init)[n := t.(arguments := t.arguments + c.content)][k]
    {
      SlotSnoc(init, c, k);
    }
  }

  lemma DeltaStep(s: Loop, init: seq<Chunk>, c: Chunk, maxBytes: nat)
    requires c.ToolDelta? && Tracks(s, init, maxBytes) && (maxBytes == 0 || Content(init) <= maxBytes)
    ensures Callback(s, c).0 == Ok <==> Accepts(init, c) && (maxBytes == 0 || Content(init + [c]) <= maxBytes)
    ensures Callback(s, c).0 == Ok ==> Tracks(Callback(s, c).1, init + [c], maxBytes)
  {
    hide FindSlot, Assembled, Deltas, EndedIn, Starts, Content, Owns;
    Snoc(init, c);
    FindsOwner(init, c);
    var n := FindSlot(s.slots, c.index, c.id, 0);
    if n < |Starts(init)| {
      EndedAt(init, n);
      DeltaSlots(init, c, n);
    }
  }

  lemma EndedAt(cs: seq<Chunk>, n: nat)
    requires n < |Starts(cs)|
    ensures Assembled(cs)[n].ended <==> EndedIn(cs, n)
  {
  }

  lemma EndSlots(init: seq<Chunk>, c: Chunk, n: nat)
    requires c.ToolEnd? && (Usable(c) ==> n < |Starts(init)| && Owns(Starts(init), n, c))
    ensures Assembled(init + [c]) == if Usable(c) then Assembled(init)[n := Assembled(init)[n].(ended := true)]
                                     else EndAll(Assembled(init))
  {
    hide Deltas, EndedIn;
    var cs := init + [c];
    Snoc(init, c);
    forall k: nat | k < |Starts(cs)|
      ensures Assembled(cs)[k] == Assembled(init)[k].(ended := EndedIn(init, k) || !Usable(c) || k == n)
    {
      SlotSnoc(init, c, k);
    }
  }

  lemma EndStep(s: Loop, init: seq<Chunk>, c: Chunk, maxBytes: nat)
    requires c.ToolEnd? && Tracks(s, init, maxBytes) && (maxBytes == 0 || Content(init) <= maxBytes)
    ensures Callback(s, c).0 == Ok <==> Accepts(init, c)
    ensures Callback(s, c).0 == Ok ==> Tracks(Callback(s, c).1, init + [c], maxBytes)
  {
    hide FindSlot, Assembled, Deltas, EndedIn, Starts, Content, Owns, EndAll;
    Snoc(init, c);
    FindsOwner(init, c);
    var n := FindSlot(s.slots, c.index, c.id, 0);
    if Usable(c) && n < |Starts(init)| { EndedAt(init, n); }
    if !Usable(c) || n < |Starts(init)| { EndSlots(init, c, n); }
  }

  /** The state after any accepted stream, and when a stream is accepted. */
  lemma {:induction false} Delivered(maxBytes: nat, cs: seq<Chunk>)
    ensures Deliver(NewLoop(maxBytes), cs).0 == Ok <==>
              AllAccepted(cs) && (maxBytes == 0 || Content(cs) <= maxBytes)
    ensures Deliver(NewLoop(maxBytes), cs).0 == Ok ==> Tracks(Deliver(NewLoop(maxBytes), cs).1, cs, maxBytes)
  {
    hide Callback, Accepts, Tracks, AllAccepted;
    if cs == [] {
      NothingDelivered(maxBytes);
    } else {
      var init, c := cs[..|cs| - 1], cs[|cs| - 1];
      assert cs == init + [c];
      Delivered(maxBytes, init);
      AcceptedSnoc(init, c);
      var (status, s) := Deliver(NewLoop(maxBytes), init);
      if status == Ok { CallbackStep(s, init, c, maxBytes); }
    }
  }

  lemma NothingDelivered(maxBytes: nat)
    ensures AllAccepted([]) && Tracks(NewLoop(maxBytes), [], maxBytes)
  {
  }

  lemma AcceptedSnoc(init: seq<Chunk>, c: Chunk)
    ensures AllAccepted(init + [c]) <==> AllAccepted(init) && Accepts(init, c)
  {
    hide Accepts;
    var cs := init + [c];
    assert forall i :: 0 <= i < |init| ==> cs[..i] == init[..i] && cs[i] == init[i];
    assert cs[..|init|] == init && cs[|init|] == c;
  }

  /**
   A stream is accepted exactly if it keeps to the byte limit, every call has a name, a key of its own and a
   place, and every delta and end names a call that is still open.
   */
  lemma AcceptedIff(maxBytes: nat, cs: seq<Chunk>)
    ensures Deliver(NewLoop(maxBytes), cs).0 == Ok <==>
              && (maxBytes == 0 || Content(cs) <= maxBytes)
              && forall i :: 0 <= i < |cs| ==> Accepts(cs[..i], cs[i])
  {
    Delivered(maxBytes, cs);
  }

  /**
   After any accepted stream the slots are exactly the calls that the history describes: in start order, each
   with the concatenation of the deltas that it owns, ended if its end was seen. If no chunk names two calls,
   these are simply all the deltas that name it.
   */
  lemma {:induction false} Reassembly(maxBytes: nat, cs: seq<Chunk>)
    requires Deliver(NewLoop(maxBytes), cs).0 == Ok
    ensures Deliver(NewLoop(maxBytes), cs).1.slots == Assembled(cs)
    ensures |Assembled(cs)| <= MAX_TOOLS && forall k :: 0 <= k < |Assembled(cs)| ==> Assembled(cs)[k].name != ""
    ensures forall j, k :: 0 <= j < k < |Starts(cs)| ==> !Belongs(Starts(cs)[k], Starts(cs)[j])
    ensures Unambiguous(cs) ==>
              forall k :: 0 <= k < |Assembled(cs)| ==> Assembled(cs)[k].arguments == DeltasTo(cs, Starts(cs)[k])
  {
    hide Deliver, Unambiguous, DeltasTo, Deltas, EndedIn, Belongs;
    Delivered(maxBytes, cs);
    StartsApart(cs);
    if Unambiguous(cs) {
      forall k: nat | k < |Starts(cs)|
        ensures Deltas(cs, k) == DeltasTo(cs, Starts(cs)[k])
      {
        OwnDeltas(cs, |cs|, k);
        assert cs[..|cs|] == cs;
      }
    }
  }

  // ---- the rest of the transcript, and refusals ----------------------------------------------------

  function Shown(cs: seq<Chunk>): string {
    if cs == [] then ""
    else
      var c := cs[|cs| - 1];
      Shown(cs[..|cs| - 1]) + if c.Text? then c.content else ""
  }

  function Thought(cs: seq<Chunk>): string {
    if cs == [] then ""
    else
      var c := cs[|cs| - 1];
      Thought(cs[..|cs| - 1]) + if c.Thinking? then c.content else ""
  }

  /** After any accepted stream the text is all text in order, the thinking all thinking, and the end has been seen if it was sent. */
  lemma {:induction false} Transcript(maxBytes: nat, cs: seq<Chunk>)
    requires Deliver(NewLoop(maxBytes), cs).0 == Ok
    ensures var s := Deliver(NewLoop(maxBytes), cs).1;
            s.text == Shown(cs) && s.thinking == Thought(cs) && (s.finished <==> Chunk.Finished in cs)
  {
    hide FindSlot, EndAll;
    if cs != [] {
      var init, c := cs[..|cs| - 1], cs[|cs| - 1];
      Transcript(maxBytes, init);
      assert cs == init + [c];
      assert Shown(init) + "" == Shown(init) && Thought(init) + "" == Thought(init);
    }
  }

  /**
   How a chunk is refused after an accepted stream: a limit is exceeded by its bytes or by a ninth call, and
   everything else is an error of the model. Once the byte limit is exceeded, everything is refused.
   */
  lemma Refusal(maxBytes: nat, cs: seq<Chunk>, c: Chunk, d: Chunk)
    requires Deliver(NewLoop(maxBytes), cs).0 == Ok
    ensures var (status, s) := Callback(Deliver(NewLoop(maxBytes), cs).1, c);
            var tooMuch := maxBytes > 0 && Content(cs + [c]) > maxBytes;
            && (status == LimitExceeded <==>
                  || tooMuch
                  || (c.ToolStart? && c.name != "" && |Starts(cs)| == 8
                      && forall k :: 0 <= k < |Starts(cs)| ==> !Belongs(c, Starts(cs)[k])))
            && status in {Ok, LimitExceeded, Model}
            && (tooMuch ==> s.limitExceeded && s.finished && s.slots == Assembled(cs) && Callback(s, d) == (LimitExceeded, s))
  {
    hide FindSlot, Assembled, Deltas, EndedIn, Starts, Content, EndAll, Deliver, Belongs;
    Delivered(maxBytes, cs);
    Reassembly(maxBytes, cs);
    Snoc(cs, c);
    if OfTool(c) { FindsOwner(cs, c); }
  }

  /** No delta and no end names two calls. */
  ghost predicate Unambiguous(cs: seq<Chunk>) {
    forall c, j, k :: c in cs && (c.ToolDelta? || c.ToolEnd?) && 0 <= j < k < |Starts(cs)| ==>
      !(Belongs(c, Starts(cs)[j]) && Belongs(c, Starts(cs)[k]))
  }

  /** All deltas that name the call, wherever they stand. */
  function DeltasTo(cs: seq<Chunk>, start: Chunk): string
    requires start.ToolStart?
  {
    if cs == [] then ""
    else
      var c := cs[|cs| - 1];
      DeltasTo(cs[..|cs| - 1], start) + if c.ToolDelta? && Belongs(c, start) then c.content else ""
  }

  lemma {:induction false} StartsPrefix(cs: seq<Chunk>, n: nat)
    requires n <= |cs|
    ensures Starts(cs[..n]) <= Starts(cs)
    decreases |cs|
  {
    if n == |cs| {
      assert cs[..n] == cs;
    } else {
      var init := cs[..|cs| - 1];
      assert init[..n] == cs[..n];
      StartsPrefix(init, n);
    }
  }

  /** Accepted calls have different keys, names, and places. */
  lemma {:induction false} StartsApart(cs: seq<Chunk>)
    requires AllAccepted(cs)
    ensures |Starts(cs)| <= MAX_TOOLS && forall k :: 0 <= k < |Starts(cs)| ==> Starts(cs)[k].name != ""
    ensures forall j, k :: 0 <= j < k < |Starts(cs)| ==> !Belongs(Starts(cs)[k], Starts(cs)[j])
  {
    hide Belongs, AllAccepted, EndedIn, Owns;
    if cs != [] {
      var init, c := cs[..|cs| - 1], cs[|cs| - 1];
      assert cs == init + [c];
      AcceptedSnoc(init, c);
      StartsApart(init);
    }
  }

  lemma {:induction false} OwnDeltas(cs: seq<Chunk>, n: nat, k: nat)
    requires AllAccepted(cs) && Unambiguous(cs) && n <= |cs| && k < |Starts(cs)|
    ensures Deltas(cs[..n], k) == DeltasTo(cs[..n], Starts(cs)[k])
    decreases n
  {
    hide Belongs, EndedIn, AllAccepted, Unambiguous;
    if n > 0 {
      var before, c := cs[..n - 1], cs[n - 1];
      assert cs[..n] == before + [c];
      OwnDeltas(cs, n - 1, k);
      SlotSnoc(before, c, k);
      assert cs[..n][..n - 1] == before;
      if c.ToolDelta? {
        assert Accepts(before, c) by { AcceptedAt(cs, n - 1); }
        var m: nat :| Owns(Starts(before), m, c);
        StartsPrefix(cs, n - 1);
        NamesOne(cs, c, m, k);
      }
    }
  }

  lemma AcceptedAt(cs: seq<Chunk>, i: nat)
    requires AllAccepted(cs) && i < |cs|
    ensures Accepts(cs[..i], cs[i])
  {
  }

  lemma NamesOne(cs: seq<Chunk>, c: Chunk, m: nat, k: nat)
    requires Unambiguous(cs) && c in cs && c.ToolDelta? && m < |Starts(cs)| && k < |Starts(cs)|
    requires Belongs(c, Starts(cs)[m])
    ensures Belongs(c, Starts(cs)[k]) <==> k == m
  {
    hide Belongs;
  }

  /**
   The streams of the providers name every call by its index, and repeat its id or leave it out: no chunk of
   such a stream names two calls.
   */
  lemma IndexedStreams(cs: seq<Chunk>)
    requires AllAccepted(cs)
    requires forall c :: c in cs && (c.ToolDelta? || (c.ToolEnd? && Usable(c))) ==> c.index >= 0
    requires forall c, s :: c in cs && s in cs && (c.ToolDelta? || c.ToolEnd?) && s.ToolStart? ==>
               c.id == "" || s.id != c.id || s.index == c.index
    ensures Unambiguous(cs)
  {
    hide AllAccepted, Accepts, Belongs, Starts, Unambiguous, Usable;
    StartsApart(cs);
    forall c, j, k | c in cs && (c.ToolDelta? || c.ToolEnd?) && 0 <= j < k < |Starts(cs)|
      ensures !(Belongs(c, Starts(cs)[j]) && Belongs(c, Starts(cs)[k]))
    {
      var a, b := Starts(cs)[j], Starts(cs)[k];
      assert a in cs && b in cs && !Belongs(b, a);
      SameIndex(c, a, b);
    }
    NamedOnce(cs);
  }

  lemma NamedOnce(cs: seq<Chunk>)
    requires forall c, j, k :: c in cs && (c.ToolDelta? || c.ToolEnd?) && 0 <= j < k < |Starts(cs)| ==>
               !(Belongs(c, Starts(cs)[j]) && Belongs(c, Starts(cs)[k]))
    ensures Unambiguous(cs)
  {
    hide Belongs, Starts;
  }

  lemma SameIndex(c: Chunk, a: Chunk, b: Chunk)
    requires OfTool(c) && a.ToolStart? && b.ToolStart? && (Usable(c) ==> c.index >= 0)
    requires c.id == "" || a.id != c.id || a.index == c.index
    requires c.id == "" || b.id != c.id || b.index == c.index
    ensures Belongs(c, a) && Belongs(c, b) ==> Belongs(b, a)
  {
  }

  // ---- execution -------------------------------------------------------------------------------

  lemma {:induction false} ValidateAll(slots: seq<Slot>, check: string -> Status)
    ensures Validate(slots, check) == Ok <==>
              forall k :: 0 <= k < |slots| ==> slots[k].ended && check(Arguments(slots[k])) == Ok
  {
    if slots != [] {
      ValidateAll(slots[1..], check);
      assert forall k :: 0 < k < |slots| ==> slots[k] == slots[1..][k - 1];
    }
  }

  lemma {:induction false} ExecutedPrefix(calls: seq<Call>, run: Call -> Status)
    ensures var (status, executed) := ExecuteFrom(calls, run);
            && executed <= calls
            && (status == Ok <==> executed == calls && forall k :: 0 <= k < |calls| ==> run(calls[k]) == Ok)
            && (forall k :: 0 <= k < |executed| - 1 ==> run(executed[k]) == Ok)
            && (status != Ok ==> executed != [] && run(executed[|executed| - 1]) == status)
  {
    if calls != [] {
      ExecutedPrefix(calls[1..], run);
      var (status, executed) := ExecuteFrom(calls, run);
      var (rest, more) := ExecuteFrom(calls[1..], run);
      if run(calls[0]) == Ok {
        assert executed == [calls[0]] + more;
        assert executed <= calls by { assert calls == [calls[0]] + calls[1..]; }
        if rest == Ok { assert forall k :: 0 < k < |calls| ==> calls[k] == calls[1..][k - 1]; }
        if executed == calls { assert more == executed[1..]; }
        assert forall k :: 0 < k < |executed| ==> executed[k] == more[k - 1];
      }
    }
  }

  /**
   Calls run in start order, each at most once, up to the first that fails; none runs unless every call has
   been ended and has an object for its arguments.
   */
  lemma RunsOnlyComplete(maxBytes: nat, cs: seq<Chunk>, check: string -> Status, run: Call -> Status)
    requires Deliver(NewLoop(maxBytes), cs).0 == Ok
    ensures var (status, executed, s) := ExecutePending(Deliver(NewLoop(maxBytes), cs).1, check, run);
            && executed <= CallsOf(Assembled(cs))
            && (executed != [] ==>
                  forall k :: 0 <= k < |Assembled(cs)| ==>
                    EndedIn(cs, k) && check(Arguments(Assembled(cs)[k])) == Ok)
            && (status == Ok ==> executed == CallsOf(Assembled(cs)) && executed != [])
            && (forall j, k :: 0 <= j < k < |executed| ==> !Belongs(Starts(cs)[k], Starts(cs)[j]))
  {
    hide Deliver, Deltas, EndedIn, Validate, Belongs, Unambiguous;
    Reassembly(maxBytes, cs);
    ValidateAll(Assembled(cs), check);
    forall k: nat | k < |Assembled(cs)|
      ensures Assembled(cs)[k].ended <==> EndedIn(cs, k)
    {
      EndedAt(cs, k);
    }
    ExecutedPrefix(CallsOf(Assembled(cs)), run);
  }

  /** The call as the tool gets it: no arguments at all are an empty object. */
  function Sent(slot: Slot): Call {
    Call(slot.id, slot.name, if slot.arguments == "" then "{}" else slot.arguments)
  }

  /** The k-th call keeps all of them from running, and with which status; Ok if it does not. */
  function Objection(cs: seq<Chunk>, k: nat, check: string -> Status): Status
    requires k < |Starts(cs)|
  {
    if !EndedIn(cs, k) then Model else check(Sent(Assembled(cs)[k]).arguments)
  }

  lemma {:induction false} ValidateFirst(slots: seq<Slot>, check: string -> Status, k: nat)
    requires k < |slots| && forall j :: 0 <= j < k ==> slots[j].ended && check(Arguments(slots[j])) == Ok
    requires !slots[k].ended || check(Arguments(slots[k])) != Ok
    ensures Validate(slots, check) == if !slots[k].ended then Model else check(Arguments(slots[k]))
  {
    if k > 0 {
      assert forall j :: 0 < j < |slots| ==> slots[j] == slots[1..][j - 1];
      ValidateFirst(slots[1..], check, k - 1);
    }
  }

  lemma SentArguments(slot: Slot)
    ensures CallOf(slot) == Sent(slot) && Arguments(slot) == Sent(slot).arguments
  {
  }

  /**
   What executing the calls of an accepted stream comes to. The first call with an objection keeps all of them
   from running and keeps the slots; otherwise the calls run up to the first failure, which is the result, and
   the slots are free again.
   */
  lemma ExecutionOutcome(maxBytes: nat, cs: seq<Chunk>, check: string -> Status, run: Call -> Status, k: nat)
    requires Deliver(NewLoop(maxBytes), cs).0 == Ok
    ensures var r := Deliver(NewLoop(maxBytes), cs).1;
            var (status, executed, s) := ExecutePending(r, check, run);
            var n := |Starts(cs)|;
            && (n == 0 ==> status == InvalidArgument && executed == [] && s == r)
            && (k < n && Objection(cs, k, check) != Ok && (forall j :: 0 <= j < k ==> Objection(cs, j, check) == Ok) ==>
                  status == Objection(cs, k, check) && executed == [] && s == r)
            && (n > 0 && (forall j :: 0 <= j < n ==> Objection(cs, j, check) == Ok) ==>
                  && s == r.(slots := []) && 0 < |executed| <= n
                  && (forall j :: 0 <= j < |executed| ==> executed[j] == Sent(Assembled(cs)[j]))
                  && (forall j :: 0 <= j < |executed| - 1 ==> run(executed[j]) == Ok)
                  && status == run(executed[|executed| - 1])
                  && (status == Ok ==> |executed| == n))
  {
    hide Deliver, Deltas, EndedIn, Validate, Belongs, Unambiguous, Sent, Arguments, ExecuteFrom, Objection, Assembled;
    Reassembly(maxBytes, cs);
    var slots := Assembled(cs);
    forall j: nat | j < |slots|
      ensures Objection(cs, j, check) == if !slots[j].ended then Model else check(Arguments(slots[j]))
      ensures CallOf(slots[j]) == Sent(slots[j])
    {
      ObjectionIs(cs, j, check);
      SentArguments(slots[j]);
    }
    if k < |slots| && Objection(cs, k, check) != Ok && forall j :: 0 <= j < k ==> Objection(cs, j, check) == Ok {
      forall j: nat | j < k
        ensures slots[j].ended && check(Arguments(slots[j])) == Ok
      {
        assert Objection(cs, j, check) == Ok;
      }
      ValidateFirst(slots, check, k);
    }
    if forall j :: 0 <= j < |slots| ==> Objection(cs, j, check) == Ok {
      forall j: nat | j < |slots|
        ensures slots[j].ended && check(Arguments(slots[j])) == Ok
      {
        assert Objection(cs, j, check) == Ok;
      }
      ValidateAll(slots, check);
    }
    ExecutedPrefix(CallsOf(slots), run);
  }

  lemma ObjectionIs(cs: seq<Chunk>, j: nat, check: string -> Status)
    requires j < |Starts(cs)|
    ensures var slot := Assembled(cs)[j];
            Objection(cs, j, check) == if !slot.ended then Model else check(Arguments(slot))
  {
    hide Deltas, EndedIn, Starts, Sent;
    EndedAt(cs, j);
    SentArguments(Assembled(cs)[j]);
  }

  // ---- replaying a complete response -----------------------------------------------------------

  function Normal(call: Call): string {
    if call.arguments == "" then "{}" else call.arguments
  }

  function SlotsOf(calls: seq<Call>): (r: seq<Slot>)
    ensures |r| == |calls|
  {
    seq(|calls|, k requires 0 <= k < |calls| => Slot(calls[k].name, calls[k].id, k, Normal(calls[k]), true))
  }

  /** The call has a name, and no earlier call has its id. */
  predicate Acceptable(calls: seq<Call>, k: nat)
    requires k < |calls|
  {
    calls[k].name != "" && (calls[k].id != "" ==> forall j :: 0 <= j < k ==> calls[j].id != calls[k].id)
  }

  function ArgumentBytes(calls: seq<Call>): nat {
    if calls == [] then 0 else ArgumentBytes(calls[..|calls| - 1]) + |Normal(calls[|calls| - 1])|
  }

  function Bytes(r: Response): nat {
    |r.thinking| + |r.text| + ArgumentBytes(r.calls) + |r.artifacts|
  }

  lemma {:induction false} DeliverConcat(s: Loop, a: seq<Chunk>, b: seq<Chunk>)
    ensures Deliver(s, a + b) == if Deliver(s, a).0 == Ok then Deliver(Deliver(s, a).1, b) else Deliver(s, a)
  {
    hide Callback;
    if b == [] {
      assert a + b == a;
    } else {
      assert (a + b)[..|a + b| - 1] == a + b[..|b| - 1];
      DeliverConcat(s, a, b[..|b| - 1]);
    }
  }

  lemma DeliverOne(s: Loop, c: Chunk)
    ensures Deliver(s, [c]) == Callback(s, c)
  {
    assert [c][..0] == [];
  }

  predicate Fits(s: Loop, bytes: nat) {
    !s.limitExceeded && (s.maxBytes == 0 || s.emitted + bytes <= s.maxBytes)
  }

  function Emit(s: Loop, bytes: nat): Loop {
    s.(emitted := if s.maxBytes > 0 then s.emitted + bytes else s.emitted)
  }

  /** The three chunks of one call. */
  lemma CallDelivered(s: Loop, calls: seq<Call>, i: nat)
    requires i < |calls| <= MAX_TOOLS && s.slots == SlotsOf(calls[..i]) && Fits(s, 0)
    ensures var (status, r) := Deliver(s, CallChunks(calls[i], i));
            && (status == Ok <==> Acceptable(calls, i) && Fits(s, |Normal(calls[i])|))
            && (status == Ok ==> r == Emit(s, |Normal(calls[i])|).(slots := SlotsOf(calls[..i + 1])))
  {
    hide Callback;
    var call := calls[i];
    var a, b, c := ToolStart(call.name, call.id, i), ToolDelta(Normal(call), call.id, i), ToolEnd(call.id, i);
    assert CallChunks(call, i) == [a] + [b] + [c];
    DeliverConcat(s, [a] + [b], [c]);
    DeliverConcat(s, [a], [b]);
    DeliverOne(s, a);
    CallStarted(s, calls, i);
    if Acceptable(calls, i) {
      var s1 := Callback(s, a).1;
      DeliverOne(s1, b);
      CallFilled(s, s1, calls, i);
      if Fits(s, |Normal(call)|) { DeliverOne(Callback(s1, b).1, c); }
    }
  }

  lemma CallStarted(s: Loop, calls: seq<Call>, i: nat)
    requires i < |calls| <= MAX_TOOLS && s.slots == SlotsOf(calls[..i]) && Fits(s, 0)
    ensures var call := calls[i];
            var (status, r) := Callback(s, ToolStart(call.name, call.id, i));
            && (status == Ok <==> Acceptable(calls, i))
            && (status == Ok ==> r == s.(slots := s.slots + [Slot(call.name, call.id, i, "", false)]))
  {
    var call := calls[i];
    assert forall k :: 0 <= k < i ==> s.slots[k].index == k && s.slots[k].id == calls[k].id;
    if !Acceptable(calls, i) && call.name != "" {
      var j :| 0 <= j < i && calls[j].id == call.id;
      assert Matches(s.slots[j], i, call.id);
    }
  }

  lemma CallFilled(s: Loop, s1: Loop, calls: seq<Call>, i: nat)
    requires i < |calls| <= MAX_TOOLS && s.slots == SlotsOf(calls[..i]) && Fits(s, 0) && Acceptable(calls, i)
    requires s1 == s.(slots := s.slots + [Slot(calls[i].name, calls[i].id, i, "", false)])
    ensures var call := calls[i];
            var (status, s2) := Callback(s1, ToolDelta(Normal(call), call.id, i));
            && (status == Ok <==> Fits(s, |Normal(call)|))
            && (status == Ok ==>
                  Callback(s2, ToolEnd(call.id, i)) ==
                    (Ok, Emit(s, |Normal(call)|).(slots := SlotsOf(calls[..i + 1]))))
  {
    hide FindSlot, SlotsOf, Callback;
    var call := calls[i];
    SlotsAre(calls, i);
    FindOwn(s1.slots, i, call.id);
    var filled := Slot(call.name, call.id, i, Normal(call), false);
    assert "" + Normal(call) == Normal(call);
    var slots2 := s1.slots[i := filled];
    FindOwn(slots2, i, call.id);
    assert slots2[i := filled.(ended := true)] == s.slots + [filled.(ended := true)];
    if Fits(s, |Normal(call)|) {
      DeltaThenEnd(s1, call, i, filled);
    } else {
      DeltaRefused(s1, ToolDelta(Normal(call), call.id, i));
    }
  }

  lemma DeltaRefused(s: Loop, c: Chunk)
    requires c.ToolDelta? && !Fits(s, |c.content|)
    ensures Callback(s, c).0 != Ok
  {
    hide FindSlot;
  }

  lemma SlotsAre(calls: seq<Call>, i: nat)
    requires i < |calls|
    ensures forall k :: 0 <= k < i ==> SlotsOf(calls[..i])[k].index == k && SlotsOf(calls[..i])[k].id == calls[k].id
    ensures SlotsOf(calls[..i]) + [Slot(calls[i].name, calls[i].id, i, Normal(calls[i]), true)] == SlotsOf(calls[..i + 1])
  {
  }

  /** The second and third chunk of a call, once its slot is known. */
  lemma DeltaThenEnd(s1: Loop, call: Call, i: nat, filled: Slot)
    requires i < |s1.slots| && s1.slots[i] == filled.(arguments := "") && !filled.ended
    requires filled == Slot(call.name, call.id, i, Normal(call), false) && Fits(s1, |Normal(call)|)
    requires FindSlot(s1.slots, i, call.id, 0) == i && FindSlot(s1.slots[i := filled], i, call.id, 0) == i
    ensures var (status, s2) := Callback(s1, ToolDelta(Normal(call), call.id, i));
            && status == Ok && s2 == Emit(s1, |Normal(call)|).(slots := s1.slots[i := filled])
            && Callback(s2, ToolEnd(call.id, i)) ==
                 (Ok, s2.(slots := s1.slots[i := filled][i := filled.(ended := true)]))
  {
    hide FindSlot;
    assert "" + Normal(call) == Normal(call);
  }

  lemma FindOwn(slots: seq<Slot>, i: nat, id: string)
    requires i < |slots| && slots[i].index == i
    requires forall k :: 0 <= k < i ==> slots[k].index != i && (id != "" ==> slots[k].id != id)
    ensures FindSlot(slots, i, id, 0) == i
  {
  }

  lemma {:induction false} CallsDelivered(s: Loop, calls: seq<Call>)
    requires |calls| <= MAX_TOOLS && s.slots == [] && Fits(s, 0)
    ensures var (status, r) := Deliver(s, AllCallChunks(calls));
            && (status == Ok <==>
                  (forall k :: 0 <= k < |calls| ==> Acceptable(calls, k)) && Fits(s, ArgumentBytes(calls)))
            && (status == Ok ==> r == Emit(s, ArgumentBytes(calls)).(slots := SlotsOf(calls)))
  {
    hide Deliver, CallChunks, SlotsOf;
    if calls == [] {
      NoCalls(s);
    } else {
      var init, last := calls[..|calls| - 1], |calls| - 1;
      CallsDelivered(s, init);
      DeliverConcat(s, AllCallChunks(init), CallChunks(calls[last], last));
      forall k | 0 <= k < last
        ensures Acceptable(init, k) <==> Acceptable(calls, k)
      {
      }
      var (status, t) := Deliver(s, AllCallChunks(init));
      if status == Ok {
        CallDelivered(t, calls, last);
        assert calls[..last + 1] == calls;
      }
    }
  }

  lemma NoCalls(s: Loop)
    requires s.slots == []
    ensures Deliver(s, AllCallChunks([])) == (Ok, s) && SlotsOf([]) == [] && Emit(s, 0) == s
  {
  }

  /** A chunk with content only. */
  lemma ContentDelivered(s: Loop, c: Chunk)
    requires (c.Thinking? || c.Text? || c.Notice?) && !s.limitExceeded
    ensures var (status, r) := Deliver(s, if ContentOf(c) == "" then [] else [c]);
            && (status == Ok <==> ContentOf(c) == "" || Fits(s, |ContentOf(c)|))
            && (status == Ok ==> r == Emit(s, |ContentOf(c)|).(
                                        text := if c.Text? then s.text + ContentOf(c) else s.text,
                                        thinking := if c.Thinking? then s.thinking + ContentOf(c) else s.thinking))
  {
    DeliverOne(s, c);
    assert ContentOf(c) == "" ==> s.text + ContentOf(c) == s.text && s.thinking + ContentOf(c) == s.thinking;
  }

  /**
   Replaying a complete response succeeds exactly if it has at most eight calls, each with a name and no
   repeated nonempty id, and keeps to the byte limit; the slots then are its calls, in order and ended, with
   empty arguments replaced by an empty object.
   */
  lemma SyncReplay(maxBytes: nat, r: Response)
    ensures var (status, s) := ConsumeSync(NewLoop(maxBytes), r);
            && (status == Ok <==>
                  |r.calls| <= MAX_TOOLS && (forall k :: 0 <= k < |r.calls| ==> Acceptable(r.calls, k))
                  && (maxBytes == 0 || Bytes(r) <= maxBytes))
            && (status == Ok ==> s.slots == SlotsOf(r.calls) && s.text == r.text && s.thinking == r.thinking && s.finished)
  {
    hide Deliver, Callback, AllCallChunks, SlotsOf, ArgumentBytes, Acceptable;
    var s0 := NewLoop(maxBytes);
    var a := if r.thinking != "" then [Thinking(r.thinking)] else [];
    var b := if r.text != "" then [Text(r.text)] else [];
    var c := AllCallChunks(r.calls);
    var d := if r.artifacts != "" then [Notice(r.artifacts)] else [];
    if |r.calls| <= MAX_TOOLS {
      DeliverConcat(s0, a + b + c + d, [Finished]);
      DeliverConcat(s0, a + b + c, d);
      DeliverConcat(s0, a + b, c);
      DeliverConcat(s0, a, b);
      ContentDelivered(s0, Thinking(r.thinking));
      var s1 := Deliver(s0, a).1;
      if Deliver(s0, a).0 == Ok {
        ContentDelivered(s1, Text(r.text));
        if Deliver(s1, b).0 == Ok {
          var s2 := Deliver(s1, b).1;
          assert "" + r.thinking == r.thinking && "" + r.text == r.text;
          AfterContent(s2, r);
        }
      }
    }
  }

  lemma AfterContent(s: Loop, r: Response)
    requires |r.calls| <= MAX_TOOLS && s.slots == [] && Fits(s, 0)
    ensures var (x, s3) := Deliver(s, AllCallChunks(r.calls));
            var (y, s4) := Deliver(s3, if r.artifacts != "" then [Notice(r.artifacts)] else []);
            var (z, s5) := Deliver(s4, [Finished]);
            && (x == Ok && y == Ok && z == Ok <==>
                  (forall k :: 0 <= k < |r.calls| ==> Acceptable(r.calls, k))
                  && Fits(s, ArgumentBytes(r.calls) + |r.artifacts|))
            && (x == Ok && y == Ok ==>
                  z == Ok && s5.slots == SlotsOf(r.calls) && s5.text == s.text && s5.thinking == s.thinking && s5.finished)
  {
    hide Deliver, AllCallChunks, SlotsOf, ArgumentBytes, Acceptable;
    CallsDelivered(s, r.calls);
    var (x, s3) := Deliver(s, AllCallChunks(r.calls));
    if x == Ok {
      ContentDelivered(s3, Notice(r.artifacts));
      var (y, s4) := Deliver(s3, if r.artifacts != "" then [Notice(r.artifacts)] else []);
      if y == Ok { DeliverOne(s4, Finished); }
    }
  }

  /** What is executed after a replay: the response's own calls. */
  lemma SyncExecutes(maxBytes: nat, r: Response, check: string -> Status, run: Call -> Status)
    requires ConsumeSync(NewLoop(maxBytes), r).0 == Ok
    ensures var (status, executed, s) := ExecutePending(ConsumeSync(NewLoop(maxBytes), r).1, check, run);
            status == Ok ==>
              |executed| == |r.calls| &&
              forall k :: 0 <= k < |r.calls| ==> executed[k] == Call(r.calls[k].id, r.calls[k].name, Normal(r.calls[k]))
  {
    hide ConsumeSync, Validate;
    SyncReplay(maxBytes, r);
    ExecutedPrefix(CallsOf(SlotsOf(r.calls)), run);
  }
}
