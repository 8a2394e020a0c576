/**
 Server-sent events, read in two ways: by blocks between blank lines, as the HTTP provider does with its
 pending buffer, and by lines, as the stand-alone parser does. Text is free of NUL characters.
 */
module SseCore {
  import opened Common

  const MAX_PENDING: nat := 64 * 1024
  const DONE: string := "[DONE]"

  datatype Chunk = Finished | Other(text: string)

  /** A protocol turns one payload into chunks for the runtime, and may say that the stream is over. */
  type Protocol = string -> (seq<Chunk>, bool)

  // ---- text ------------------------------------------------------------------------------------

  /** The position of the first newline, or the length of the text. */
  function FirstLF(s: string): (k: nat)
    ensures k <= |s|
    ensures forall i :: 0 <= i < k ==> s[i] != '\n'
    ensures k < |s| ==> s[k] == '\n'
  {
    if s == "" || s[0] == '\n' then 0 else 1 + FirstLF(s[1..])
  }

  predicate BlankAt(s: string, i: nat) {
    i + 2 <= |s| && s[i] == '\n' && s[i + 1] == '\n'
  }

  predicate DosBlankAt(s: string, i: nat) {
    i + 4 <= |s| && s[i] == '\r' && s[i + 1] == '\n' && s[i + 2] == '\r' && s[i + 3] == '\n'
  }

  /** The first position from i on where two newlines follow each other, or the length of the text. */
  function FindBlank(s: string, i: nat): (k: nat)
    requires i <= |s|
    ensures i <= k <= |s|
    ensures k < |s| ==> BlankAt(s, k)
    ensures forall j :: i <= j < k ==> !BlankAt(s, j)
    decreases |s| - i
  {
    if i == |s| || BlankAt(s, i) then i else FindBlank(s, i + 1)
  }

  function FindDosBlank(s: string, i: nat): (k: nat)
    requires i <= |s|
    ensures i <= k <= |s|
    ensures k < |s| ==> DosBlankAt(s, k)
    ensures forall j :: i <= j < k ==> !DosBlankAt(s, j)
    decreases |s| - i
  {
    if i == |s| || DosBlankAt(s, i) then i else FindDosBlank(s, i + 1)
  }

  datatype Separator = Separator(at: nat, size: nat)

  /** The first pair of newlines or, only if there is none, the first pair of CRLFs. */
  function NextSeparator(s: string): (r: Option<Separator>)
    ensures r.Some? ==> r.value.at + r.value.size <= |s| && r.value.size >= 2
  {
    if FindBlank(s, 0) < |s| then Some(Separator(FindBlank(s, 0), 2))
    else if FindDosBlank(s, 0) < |s| then Some(Separator(FindDosBlank(s, 0), 4))
    else None
  }

  function StripOne(line: string): string {
    if line != "" && line[|line| - 1] == '\r' then line[..|line| - 1] else line
  }

  function StripAll(line: string): string {
    if line != "" && line[|line| - 1] == '\r' then StripAll(line[..|line| - 1]) else line
  }

  predicate IsData(line: string) {
    |line| >= 5 && line[..5] == "data:"
  }

  function DataValue(line: string): string
    requires IsData(line)
  {
    if |line| > 5 && line[5] == ' ' then line[6..] else line[5..]
  }

  /** A data line adds to the payload, after a newline if there is something already. */
  function AddLine(payload: string, line: string): string {
    if !IsData(line) then payload
    else (if payload != "" then payload + "\n" else payload) + DataValue(line)
  }

  // ---- by blocks -------------------------------------------------------------------------------

  /** The payload of the lines of a block, added to what earlier lines gave. */
  function Payload(block: string, payload: string): string
    decreases |block|
  {
    if block == "" then payload
    else
      var k := FirstLF(block);
      var next := AddLine(payload, StripOne(block[..k]));
      if k == |block| then next else Payload(block[k + 1..], next)
  }

  /** `payloads` is history: what was dispatched, in order. */
  datatype Stream = Stream(buffer: string, finished: bool, payloads: seq<string>, chunks: seq<Chunk>)

  const NEW_STREAM: Stream := Stream("", false, [], [])

  function EmitFinishedOnce(s: Stream): Stream {
    if s.finished then s else s.(finished := true, chunks := s.chunks + [Finished])
  }

  function Forward(s: Stream, chunks: seq<Chunk>): Stream {
    s.(chunks := s.chunks + chunks, finished := s.finished || Finished in chunks)
  }

  function Dispatch(p: Protocol, s: Stream, payload: string): Stream {
    if payload == "" then s
    else
      var s1 := s.(payloads := s.payloads + [payload]);
      if payload == DONE then EmitFinishedOnce(s1)
      else
        var (chunks, over) := p(payload);
        var s2 := Forward(s1, chunks);
        if over then EmitFinishedOnce(s2) else s2
  }

  /** Dispatch every complete block of the buffer, unless the stream finishes first. */
  function ProcessBuffer(p: Protocol, s: Stream): Stream
    decreases |s.buffer|
  {
    var sep := NextSeparator(s.buffer);
    if s.finished || sep == None then s
    else
      var block := s.buffer[..sep.value.at];
      ProcessBuffer(p, Dispatch(p, s, Payload(block, "")).(buffer := s.buffer[sep.value.at + sep.value.size..]))
  }

  /** One body callback; None is the error for a frame that outgrows the pending buffer. */
  function Body(p: Protocol, s: Stream, data: string): Option<Stream> {
    if s.finished then Some(s)
    else if data != "" && |s.buffer| + |data| + 1 > MAX_PENDING then None
    else Some(ProcessBuffer(p, s.(buffer := s.buffer + data)))
  }

  function BodyAll(p: Protocol, s: Stream, data: seq<string>): Option<Stream> {
    if data == [] then Some(s)
    else
      var before := BodyAll(p, s, data[..|data| - 1]);
      if before == None then None else Body(p, before.value, data[|data| - 1])
  }

  // ---- by lines --------------------------------------------------------------------------------

  /** `events` are the payloads that the callback has received. */
  datatype Parser = Parser(line: string, payload: string, events: seq<string>)

  const NEW_PARSER: Parser := Parser("", "", [])

  function FlushEvent(p: Parser): Parser {
    if p.payload == "" then p else Parser(p.line, "", p.events + [p.payload])
  }

  function ProcessLine(p: Parser, line: string): Parser {
    var l := StripAll(line);
    if l == "" then FlushEvent(p)
    else if l[0] == ':' then p
    else p.(payload := AddLine(p.payload, l))
  }

  function Step(p: Parser, c: char): Parser {
    if c == '\n' then ProcessLine(p, p.line).(line := "") else p.(line := p.line + [c])
  }

  function Feed(p: Parser, data: string): Parser {
    if data == "" then p else Step(Feed(p, data[..|data| - 1]), data[|data| - 1])
  }

  function Finish(p: Parser): Parser {
    FlushEvent(if p.line != "" then ProcessLine(p, p.line).(line := "") else p)
  }
}
