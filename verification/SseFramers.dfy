/** The two framers as they run: over a pending buffer, and over a line and a payload buffer. */
module SseFramers {
  import opened Common
  import Core = SseCore
  import opened SseCore

  class StreamContext {
    const protocol: Protocol
    var buffer: string
    var finished: bool
    var payloads: seq<string>
    var chunks: seq<Chunk>

    ghost function Abs(): Stream
      reads this
    {
      Stream(buffer, finished, payloads, chunks)
    }

    constructor (protocol: Protocol)
      ensures Abs() == NEW_STREAM && this.protocol == protocol
    {
      this.protocol := protocol;
      buffer, finished, payloads, chunks := "", false, [], [];
    }

    /** Append to the pending buffer, within its limit. */
    method Append(data: string) returns (ok: bool)
      modifies `buffer
      ensures ok == !(data != "" && |old(buffer)| + |data| + 1 > MAX_PENDING)
      ensures buffer == if ok then old(buffer) + data else old(buffer)
    {
      if |data| == 0 { return true; }
      var required := |buffer| + |data| + 1;
      if required > MAX_PENDING { return false; }
      buffer := buffer + data;
      ok := true;
    }

    method EmitFinishedOnce()
      modifies `finished, `chunks
      ensures Abs() == Core.EmitFinishedOnce(old(Abs()))
    {
      if finished { return; }
      finished := true;
      chunks := chunks + [Finished];
    }

    /** Forward the protocol's chunks one by one, watching for the end. */
    method ForwardChunks(more: seq<Chunk>)
      modifies `finished, `chunks
      ensures Abs() == Forward(old(Abs()), more)
    {
      var i := 0;
      while i < |more|
        invariant 0 <= i <= |more| && Abs() == Forward(old(Abs()), more[..i])
      {
        if more[i] == Finished { finished := true; }
        chunks := chunks + [more[i]];
        assert more[..i + 1] == more[..i] + [more[i]];
        i := i + 1;
      }
      assert more[..i] == more;
    }

    method Dispatch(payload: string)
      modifies `finished, `chunks, `payloads
      ensures Abs() == Core.Dispatch(protocol, old(Abs()), payload)
    {
      if payload == "" { return; }
      payloads := payloads + [payload];
      if payload == DONE {
        EmitFinishedOnce();
        return;
      }
      var result := protocol(payload);
      ForwardChunks(result.0);
      if result.1 { EmitFinishedOnce(); }
    }

    /** Collect the data lines of one block and dispatch them. */
    method ProcessEvent(block: string)
      modifies `finished, `chunks, `payloads
      ensures Abs() == Core.Dispatch(protocol, old(Abs()), Payload(block, ""))
    {
      hide FirstLF, AddLine, StripOne, Payload;
      var data := "";
      var line := 0;
      assert block[0..] == block;
      while line < |block|
        invariant 0 <= line <= |block| && Abs() == old(Abs())
        invariant Payload(block[line..], data) == Payload(block, "")
        decreases |block| - line
      {
        var k := FirstLF(block[line..]);
        PayloadFront(block, line, data);
        data := AddLine(data, StripOne(block[line..][..k]));
        line := if line + k == |block| then |block| else line + k + 1;
      }
      assert block[line..] == "";
      PayloadEnd(data);
      assert data == Payload(block, "");
      Dispatch(data);
    }

    static lemma PayloadFront(block: string, line: nat, data: string)
      requires line < |block|
      ensures var k := FirstLF(block[line..]);
              var next := if line + k == |block| then |block| else line + k + 1;
              next <= |block|
              && Payload(block[line..], data) == Payload(block[next..], AddLine(data, StripOne(block[line..][..k])))
    {
      hide AddLine, StripOne;
      var k := FirstLF(block[line..]);
      if line + k == |block| {
        assert block[|block|..] == "";
      } else {
        assert block[line..][k + 1..] == block[line + k + 1..];
      }
    }

    static lemma PayloadEnd(data: string)
      ensures Payload("", data) == data
    {
    }

    /** Dispatch complete blocks from the front of the buffer and move the tail to its beginning. */
    method ProcessBuffer()
      modifies this
      ensures Abs() == Core.ProcessBuffer(protocol, old(Abs()))
    {
      hide NextSeparator, Payload, Core.Dispatch;
      var p := 0;
      assert buffer[0..] == buffer;
      while !finished && p < |buffer|
        invariant 0 <= p <= |buffer| && buffer == old(buffer)
        invariant Core.ProcessBuffer(protocol, Abs().(buffer := buffer[p..])) == Core.ProcessBuffer(protocol, old(Abs()))
        decreases |buffer| - p
      {
        var sep := NextSeparator(buffer[p..]);
        if sep == None { break; }
        assert buffer[p..][sep.value.at + sep.value.size..] == buffer[p + sep.value.at + sep.value.size..];
        DispatchFrame(protocol, Abs().(buffer := buffer[p..]), buffer, Payload(buffer[p..][..sep.value.at], ""));
        ProcessEvent(buffer[p..][..sep.value.at]);
        p := p + sep.value.at + sep.value.size;
      }
      if p > 0 { buffer := buffer[p..]; }
    }

    /** Dispatching does not look at the buffer. */
    static lemma DispatchFrame(p: Protocol, s: Stream, buffer: string, payload: string)
      ensures Core.Dispatch(p, s, payload) == Core.Dispatch(p, s.(buffer := buffer), payload).(buffer := s.buffer)
    {
    }

    method Body(data: string) returns (ok: bool)
      modifies this
      ensures ok == Core.Body(protocol, old(Abs()), data).Some?
      ensures Abs() == if ok then Core.Body(protocol, old(Abs()), data).value else old(Abs())
    {
      if finished { return true; }
      ok := Append(data);
      if !ok { return; }
      ProcessBuffer();
    }
  }

  class SseParser {
    var line: string
    var payload: string
    var events: seq<string>

    ghost function Abs(): Parser
      reads this
    {
      Parser(line, payload, events)
    }

    constructor ()
      ensures Abs() == NEW_PARSER
    {
      line, payload, events := "", "", [];
    }

    method FlushEvent()
      modifies `payload, `events
      ensures Abs() == Core.FlushEvent(old(Abs()))
    {
      if payload == "" { return; }
      events := events + [payload];
      payload := "";
    }

    method ProcessLine(text: string)
      modifies `payload, `events
      ensures Abs() == Core.ProcessLine(old(Abs()), text)
    {
      var len := |text|;
      assert text[..len] == text;
      while len > 0 && text[len - 1] == '\r'
        invariant 0 <= len <= |text| && StripAll(text[..len]) == StripAll(text)
      {
        assert text[..len][..len - 1] == text[..len - 1];
        len := len - 1;
      }
      var stripped := text[..len];
      if len == 0 {
        FlushEvent();
        return;
      }
      if stripped[0] == ':' { return; }
      if len >= 5 && stripped[..5] == "data:" {
        var value := stripped[5..];
        if |value| > 0 && value[0] == ' ' { value := value[1..]; }
        if payload != "" { payload := payload + "\n"; }
        payload := payload + value;
      }
    }

    method Feed(data: string)
      modifies this
      ensures Abs() == Core.Feed(old(Abs()), data)
    {
      var i := 0;
      while i < |data|
        invariant 0 <= i <= |data| && Abs() == Core.Feed(old(Abs()), data[..i])
      {
        assert data[..i + 1][..i] == data[..i];
        if data[i] == '\n' {
          ProcessLine(line);
          line := "";
        } else {
          line := line + [data[i]];
        }
        i := i + 1;
      }
      assert data[..i] == data;
    }

    method Finish()
      modifies this
      ensures Abs() == Core.Finish(old(Abs()))
    {
      if line != "" {
        ProcessLine(line);
        line := "";
      }
      FlushEvent();
    }
  }
}
