/**
 The streaming loop of the agent runtime: how chunks of interleaved tool calls are put together, and which
 calls are then executed. A missing name or id in the source is the empty string here.
 */
module ToolStreamCore {
  import opened Common

  const MAX_TOOLS: nat := 8

  datatype Chunk =
    | Thinking(content: string)
    | Text(content: string)
    | ToolStart(name: string, id: string, index: int)
    | ToolDelta(content: string, id: string, index: int)
    | ToolEnd(id: string, index: int)
    | Finished
    | Notice(content: string)

  datatype Slot = Slot(name: string, id: string, index: int, arguments: string, ended: bool)

  /** The used slots, in slot order, and the rest of the loop's state. */
  datatype Loop = Loop(
    slots: seq<Slot>,
    text: string,
    thinking: string,
    finished: bool,
    limitExceeded: bool,
    emitted: nat,
    maxBytes: nat)

  datatype Call = Call(id: string, name: string, arguments: string)

  function NewLoop(maxBytes: nat): Loop {
    Loop([], "", "", false, false, 0, maxBytes)
  }

  function ContentOf(c: Chunk): string {
    match c
    case Thinking(content) => content
    case Text(content) => content
    case ToolDelta(content, _, _) => content
    case Notice(content) => content
    case _ => ""
  }

  predicate Matches(s: Slot, index: int, id: string) {
    (index >= 0 && s.index == index) || (id != "" && s.id == id)
  }

  /** The first slot with the index or with the id, or the number of slots. */
  function FindSlot(slots: seq<Slot>, index: int, id: string, i: nat): (r: nat)
    requires i <= |slots|
    ensures i <= r <= |slots|
    ensures r < |slots| ==> Matches(slots[r], index, id)
    ensures forall k :: i <= k < r ==> !Matches(slots[k], index, id)
    decreases |slots| - i
  {
    if i == |slots| || Matches(slots[i], index, id) then i else FindSlot(slots, index, id, i + 1)
  }

  function EndAll(slots: seq<Slot>): (r: seq<Slot>)
    ensures |r| == |slots|
  {
    seq(|slots|, k requires 0 <= k < |slots| => slots[k].(ended := true))
  }

  /** The byte limit, checked before a chunk is forwarded to the application. */
  function ForwardChunk(s: Loop, c: Chunk): (Status, Loop) {
    if s.limitExceeded then (LimitExceeded, s)
    else if s.maxBytes > 0 && s.emitted + |ContentOf(c)| > s.maxBytes then
      (LimitExceeded, s.(limitExceeded := true, finished := true))
    else (Ok, s.(emitted := if s.maxBytes > 0 then s.emitted + |ContentOf(c)| else s.emitted))
  }

  function StartTool(s: Loop, name: string, id: string, index: int): (Status, Loop) {
    if name == "" then (Model, s)
    else if FindSlot(s.slots, index, id, 0) < |s.slots| then (Model, s)
    else if |s.slots| >= MAX_TOOLS then (LimitExceeded, s)
    else (Ok, s.(slots := s.slots + [Slot(name, id, index, "", false)]))
  }

  function EndTool(s: Loop, id: string, index: int): (Status, Loop) {
    if index < 0 && id == "" then
      if s.slots == [] then (Model, s) else (Ok, s.(slots := EndAll(s.slots)))
    else
      var k := FindSlot(s.slots, index, id, 0);
      if k == |s.slots| || s.slots[k].ended then (Model, s)
      else (Ok, s.(slots := s.slots[k := s.slots[k].(ended := true)]))
  }

  function DeltaTool(s: Loop, content: string, id: string, index: int): (Status, Loop) {
    var k := FindSlot(s.slots, index, id, 0);
    if k == |s.slots| || s.slots[k].ended then (Model, s)
    else (Ok, s.(slots := s.slots[k := s.slots[k].(arguments := s.slots[k].arguments + content)]))
  }

  /** The provider callback, for a run that has not been cancelled. */
  function Callback(s0: Loop, c: Chunk): (Status, Loop) {
    var (status, s) := ForwardChunk(s0, c);
    if status != Ok then (status, s)
    else
      match c
      case Thinking(content) => (Ok, s.(thinking := s.thinking + content))
      case Text(content) => (Ok, s.(text := s.text + content))
      case ToolStart(name, id, index) => StartTool(s, name, id, index)
      case ToolDelta(content, id, index) => DeltaTool(s, content, id, index)
      case ToolEnd(id, index) => EndTool(s, id, index)
      case Finished => (Ok, s.(finished := true))
      case Notice(_) => (Ok, s)
  }

  /** Chunks are delivered until one is refused. */
  function Deliver(s: Loop, chunks: seq<Chunk>): (Status, Loop) {
    if chunks == [] then (Ok, s)
    else
      var (status, t) := Deliver(s, chunks[..|chunks| - 1]);
      if status != Ok then (status, t) else Callback(t, chunks[|chunks| - 1])
  }

  // ---- executing -------------------------------------------------------------------------------

  function Arguments(s: Slot): string {
    if s.arguments == "" then "{}" else s.arguments
  }

  function CallOf(s: Slot): Call {
    Call(s.id, s.name, Arguments(s))
  }

  function CallsOf(slots: seq<Slot>): (r: seq<Call>)
    ensures |r| == |slots|
  {
    seq(|slots|, k requires 0 <= k < |slots| => CallOf(slots[k]))
  }

  /** The first slot that is not ended, or whose arguments are not a JSON object, is an error. */
  function Validate(slots: seq<Slot>, check: string -> Status): Status {
    if slots == [] then Ok
    else if !slots[0].ended then Model
    else if check(Arguments(slots[0])) != Ok then check(Arguments(slots[0]))
    else Validate(slots[1..], check)
  }

  /** Execute calls in order until one fails. */
  function ExecuteFrom(calls: seq<Call>, run: Call -> Status): (Status, seq<Call>) {
    if calls == [] then (Ok, [])
    else if run(calls[0]) != Ok then (run(calls[0]), [calls[0]])
    else
      var (status, more) := ExecuteFrom(calls[1..], run);
      (status, [calls[0]] + more)
  }

  /** The result, the calls that were executed, and the loop afterwards. */
  function ExecutePending(s: Loop, check: string -> Status, run: Call -> Status): (Status, seq<Call>, Loop) {
    if s.slots == [] then (InvalidArgument, [], s)
    else if Validate(s.slots, check) != Ok then (Validate(s.slots, check), [], s)
    else
      var (status, executed) := ExecuteFrom(CallsOf(s.slots), run);
      (status, executed, s.(slots := []))
  }

  // ---- a complete response ---------------------------------------------------------------------

  datatype Response = Response(thinking: string, text: string, calls: seq<Call>, artifacts: string)

  function CallChunks(call: Call, index: nat): seq<Chunk> {
    [ToolStart(call.name, call.id, index),
     ToolDelta(if call.arguments == "" then "{}" else call.arguments, call.id, index),
     ToolEnd(call.id, index)]
  }

  function AllCallChunks(calls: seq<Call>): seq<Chunk> {
    if calls == [] then []
    else AllCallChunks(calls[..|calls| - 1]) + CallChunks(calls[|calls| - 1], |calls| - 1)
  }

  function ChunksOf(r: Response): seq<Chunk> {
    (if r.thinking != "" then [Thinking(r.thinking)] else [])
    + (if r.text != "" then [Text(r.text)] else [])
    + AllCallChunks(r.calls)
    + (if r.artifacts != "" then [Notice(r.artifacts)] else [])
    + [Finished]
  }

  function ConsumeSync(s: Loop, r: Response): (Status, Loop) {
    if |r.calls| > MAX_TOOLS then (LimitExceeded, s) else Deliver(s, ChunksOf(r))
  }
}
