/** The streaming loop as it is stored: eight tool slots that fill up from the front. */
module ToolStream {
  import opened Common
  import Core = ToolStreamCore
  import opened ToolStreamCore

  ghost function Used(tools: seq<Option<Slot>>, count: nat): (r: seq<Slot>)
    requires count <= |tools| && forall i :: 0 <= i < count ==> tools[i].Some?
    ensures |r| == count
  {
    seq(count, i requires 0 <= i < count => tools[i].value)
  }

  ghost predicate Filled(tools: seq<Option<Slot>>, count: nat) {
    |tools| == MAX_TOOLS && count <= MAX_TOOLS && forall i :: 0 <= i < |tools| ==> (tools[i].Some? <==> i < count)
  }

  class StreamLoop {
    const tools: array<Option<Slot>>
    var toolCount: nat
    var text: string
    var thinking: string
    var finished: bool
    var limitExceeded: bool
    var emitted: nat
    const maxBytes: nat

    ghost predicate Valid()
      reads this, tools
    {
      Filled(tools[..], toolCount)
    }

    ghost function Abs(): Loop
      requires Valid()
      reads this, tools
    {
      Loop(Used(tools[..], toolCount), text, thinking, finished, limitExceeded, emitted, maxBytes)
    }

    constructor (maxBytes: nat)
      ensures Valid() && Abs() == NewLoop(maxBytes) && fresh(tools)
    {
      this.maxBytes := maxBytes;
      tools := new Option<Slot>[MAX_TOOLS](i => None);
      toolCount, text, thinking, finished, limitExceeded, emitted := 0, "", "", false, false, 0;
    }

    method FindSlot(index: int, id: string) returns (at: Option<nat>)
      requires Valid()
      ensures var k := Core.FindSlot(Abs().slots, index, id, 0); at == if k < |Abs().slots| then Some(k) else None
    {
      var i := 0;
      while i < MAX_TOOLS
        invariant i <= MAX_TOOLS
        invariant i <= toolCount ==> Core.FindSlot(Abs().slots, index, id, i) == Core.FindSlot(Abs().slots, index, id, 0)
        invariant i > toolCount ==> Core.FindSlot(Abs().slots, index, id, 0) == toolCount
      {
        if tools[i].Some? {
          var slot := tools[i].value;
          assert Abs().slots[i] == slot;
          if index >= 0 && slot.index == index { return Some(i); }
          if id != "" && slot.id == id { return Some(i); }
        }
        i := i + 1;
      }
      at := None;
    }

    /** Replace a used slot. */
    method SetSlot(k: nat, slot: Slot)
      requires Valid() && k < toolCount
      modifies tools
      ensures Valid() && Abs() == old(Abs()).(slots := old(Abs()).slots[k := slot])
    {
      ghost var before := tools[..];
      tools[k] := Some(slot);
      assert tools[..] == before[k := Some(slot)];
      assert Used(tools[..], toolCount) == Used(before, toolCount)[k := slot];
    }

    method StartTool(name: string, id: string, index: int) returns (status: Status)
      requires Valid()
      modifies this, tools
      ensures Valid() && (status, Abs()) == Core.StartTool(old(Abs()), name, id, index)
    {
      if name == "" { return Model; }
      var at := FindSlot(index, id);
      if at.Some? { return Model; }
      if toolCount >= MAX_TOOLS { return LimitExceeded; }
      ghost var before := tools[..];
      var i := 0;
      while i < MAX_TOOLS && tools[i].Some?
        invariant i <= toolCount && tools[..] == before
      {
        i := i + 1;
      }
      var slot := Slot(name, id, index, "", false);
      tools[i] := Some(slot);
      toolCount := toolCount + 1;
      assert tools[..] == before[i := Some(slot)];
      assert Used(tools[..], toolCount) == Used(before, toolCount - 1) + [slot];
      status := Ok;
    }

    method DeltaTool(content: string, id: string, index: int) returns (status: Status)
      requires Valid()
      modifies tools
      ensures Valid() && (status, Abs()) == Core.DeltaTool(old(Abs()), content, id, index)
    {
      var at := FindSlot(index, id);
      if at == None || tools[at.value].value.ended { return Model; }
      var slot := tools[at.value].value;
      SetSlot(at.value, slot.(arguments := slot.arguments + content));
      status := Ok;
    }

    method EndTool(id: string, index: int) returns (status: Status)
      requires Valid()
      modifies tools
      ensures Valid() && (status, Abs()) == Core.EndTool(old(Abs()), id, index)
    {
      if index < 0 && id == "" {
        var open := EndOpen();
        if open == 0 && toolCount == 0 { return Model; }
        return Ok;
      }
      var at := FindSlot(index, id);
      if at == None || tools[at.value].value.ended { return Model; }
      SetSlot(at.value, tools[at.value].value.(ended := true));
      status := Ok;
    }

    /** End every open call and count them. */
    method EndOpen() returns (open: nat)
      requires Valid()
      modifies tools
      ensures Valid() && Abs() == old(Abs()).(slots := EndAll(old(Abs()).slots))
      ensures open <= toolCount
    {
      ghost var before := tools[..];
      open := 0;
      var i := 0;
      while i < MAX_TOOLS
        invariant i <= MAX_TOOLS && open <= i && open <= toolCount
        invariant forall k :: i <= k < MAX_TOOLS ==> tools[k] == before[k]
        invariant forall k :: 0 <= k < i ==>
                    tools[k] == if before[k].Some? then Some(before[k].value.(ended := true)) else None
      {
        if tools[i].Some? && !tools[i].value.ended {
          tools[i] := Some(tools[i].value.(ended := true));
          open := open + 1;
        }
        i := i + 1;
      }
      assert Used(tools[..], toolCount) == EndAll(Used(before, toolCount));
    }

    method ForwardChunk(c: Chunk) returns (status: Status)
      requires Valid()
      modifies `limitExceeded, `finished, `emitted
      ensures Valid() && (status, Abs()) == Core.ForwardChunk(old(Abs()), c)
    {
      if limitExceeded { return LimitExceeded; }
      if maxBytes > 0 {
        var len := |ContentOf(c)|;
        if emitted + len > maxBytes {
          limitExceeded, finished := true, true;
          return LimitExceeded;
        }
        emitted := emitted + len;
      }
      status := Ok;
    }

    method Callback(c: Chunk) returns (status: Status)
      requires Valid()
      modifies this, tools
      ensures Valid() && (status, Abs()) == Core.Callback(old(Abs()), c)
    {
      hide Filled, Used;
      status := ForwardChunk(c);
      if status != Ok { return; }
      match c
      case Thinking(content) => thinking := thinking + content;
      case Text(content) => text := text + content;
      case ToolStart(name, id, index) => status := StartTool(name, id, index);
      case ToolDelta(content, id, index) => status := DeltaTool(content, id, index);
      case ToolEnd(id, index) => status := EndTool(id, index);
      case Finished => finished := true;
      case Notice(_) =>
    }

    /** Check all calls first, then execute them in slot order until one fails, then clear the slots. */
    method ExecutePending(check: string -> Status, run: Call -> Status) returns (status: Status, executed: seq<Call>)
      requires Valid()
      modifies this, tools
      ensures Valid() && (status, executed, Abs()) == Core.ExecutePending(old(Abs()), check, run)
    {
      executed := [];
      if toolCount == 0 { return InvalidArgument, []; }
      status := Validate(check);
      if status != Ok { return; }
      status, executed := ExecuteAll(run);
      Cleanup();
    }

    method Validate(check: string -> Status) returns (status: Status)
      requires Valid()
      ensures status == Core.Validate(Abs().slots, check)
    {
      ghost var slots := Abs().slots;
      var i := 0;
      assert slots[0..] == slots;
      while i < toolCount
        invariant i <= toolCount && Core.Validate(slots[i..], check) == Core.Validate(slots, check)
      {
        var slot := tools[i].value;
        assert slots[i..][0] == slot && slots[i..][1..] == slots[i + 1..];
        if !slot.ended { return Model; }
        var valid := check(Arguments(slot));
        if valid != Ok { return valid; }
        i := i + 1;
      }
      assert slots[i..] == [];
      status := Ok;
    }

    method ExecuteAll(run: Call -> Status) returns (status: Status, executed: seq<Call>)
      requires Valid()
      ensures (status, executed) == ExecuteFrom(CallsOf(Abs().slots), run)
    {
      ghost var calls := CallsOf(Abs().slots);
      executed := [];
      var i := 0;
      assert calls[0..] == calls;
      Prefixed([], ExecuteFrom(calls, run).1);
      while i < toolCount
        invariant i <= toolCount
        invariant ExecuteFrom(calls, run).0 == ExecuteFrom(calls[i..], run).0
        invariant ExecuteFrom(calls, run).1 == executed + ExecuteFrom(calls[i..], run).1
      {
        var call := CallOf(tools[i].value);
        assert calls[i..][0] == call && calls[i..][1..] == calls[i + 1..];
        Prefixed(executed + [call], ExecuteFrom(calls[i + 1..], run).1);
        Joined(executed, call, ExecuteFrom(calls[i + 1..], run).1);
        executed := executed + [call];
        var result := run(call);
        if result != Ok { return result, executed; }
        i := i + 1;
      }
      assert calls[i..] == [];
      Prefixed(executed, []);
      status := Ok;
    }

    static lemma Prefixed(a: seq<Call>, b: seq<Call>)
      ensures a == [] ==> a + b == b
      ensures b == [] ==> a + b == a
    {
    }

    static lemma Joined(a: seq<Call>, c: Call, b: seq<Call>)
      ensures a + ([c] + b) == a + [c] + b
    {
    }

    method Cleanup()
      requires Valid()
      modifies `toolCount, tools
      ensures Valid() && Abs() == old(Abs()).(slots := [])
    {
      var i := 0;
      while i < MAX_TOOLS
        invariant i <= MAX_TOOLS && forall k :: 0 <= k < i ==> tools[k] == None
      {
        tools[i] := None;
        i := i + 1;
      }
      toolCount := 0;
    }
  }
}
