/**
 The segmented session log: what append writes, and what the reverse "last n" reader makes of it.

 JSON is a parameter: an encoding of records and of their envelopes that can be decoded again and never contains
 a raw newline, as the unformatted printer guarantees. SegmentedCodec.dfy shows that there is such an encoding.
 */
module SegmentedLog {
  import opened Common

  const MAX_LINE_READ: nat := 8 * 1024 * 1024
  const DEFAULT_SEGMENT_BYTES: nat := 256 * 1024
  const LF: byte := 10
  const CR: byte := 13

  type byte = bv8
  type Bytes = seq<byte>

  datatype Message = Message(id: string, role: string, body: string)
  datatype Record = MessageRecord(m: Message) | ToolCallRecord(id: string) | ToolResultRecord(id: string)

  /** A batch envelope carries the length and checksum of its serialized records. */
  datatype Line = Batch(schema: int, length: int, checksum: bv64, records: Bytes) | Single(r: Record)

  datatype Result<+T> = Success(value: T) | Failure(error: Status)

  datatype Codec = Codec(
    encodeLine: Line -> Bytes,
    decodeLine: Bytes -> Option<Line>,
    encodeRecords: seq<Record> -> Bytes,
    decodeRecords: Bytes -> Option<seq<Record>>)

  /** A line as the reader wants it: nonempty, without newline, not ending in a carriage return. */
  predicate PlainLine(l: Bytes) {
    l != [] && LF !in l && l[|l| - 1] != CR
  }

  function Mix(hash: bv64, b: byte): bv64 {
    hash ^ (b as bv64)
  }

  function Times(hash: bv64): bv64 {
    hash * 1099511628211
  }

  function Fnv1a(data: Bytes): bv64 {
    if data == [] then 1469598103934665603 else Times(Mix(Fnv1a(data[..|data| - 1]), data[|data| - 1]))
  }

  function BatchOf(c: Codec, rs: seq<Record>): Line {
    var text := c.encodeRecords(rs);
    Batch(2, |text|, Fnv1a(text), text)
  }

  function LineOf(c: Codec, rs: seq<Record>): Bytes {
    c.encodeLine(BatchOf(c, rs))
  }

  /** Records and the envelopes made of them can be read back, and the lines of envelopes are plain. */
  ghost predicate CodecOk(c: Codec) {
    && (forall rs :: PlainLine(LineOf(c, rs)) && c.decodeLine(LineOf(c, rs)) == Some(BatchOf(c, rs)))
    && (forall rs :: c.decodeRecords(c.encodeRecords(rs)) == Some(rs))
  }

  // ---- reading lines ---------------------------------------------------------------------------

  /** The bytes of a file that holds the given lines. */
  function Join(lines: seq<Bytes>): Bytes {
    if lines == [] then [] else Join(lines[..|lines| - 1]) + lines[|lines| - 1] + [LF]
  }

  function FirstLF(b: Bytes): (k: nat)
    ensures k <= |b|
    ensures forall i :: 0 <= i < k ==> b[i] != LF
    ensures k < |b| ==> b[k] == LF
  {
    if b == [] || b[0] == LF then 0 else 1 + FirstLF(b[1..])
  }

  function Trim(l: Bytes): Bytes {
    if l != [] && l[|l| - 1] == CR then l[..|l| - 1] else l
  }

  /** The nonempty lines of a file, or an error for a line over the read limit. */
  function SplitLines(b: Bytes): Result<seq<Bytes>>
    decreases |b|
  {
    var k := FirstLF(b);
    var line := Trim(b[..k]);
    if |line| > MAX_LINE_READ then Failure(LimitExceeded)
    else
      var rest := if k < |b| then SplitLines(b[k + 1..]) else Success([]);
      if rest.Failure? then rest
      else Success((if line == [] then [] else [line]) + rest.value)
  }

  /** The reader refuses a large file without any newline before it looks for lines. */
  function ReadLines(b: Bytes): Result<seq<Bytes>> {
    if |b| > MAX_LINE_READ && LF !in b then Failure(LimitExceeded) else SplitLines(b)
  }

  /** No line is longer than eight megabytes. */
  predicate ShortLines(lines: seq<Bytes>) {
    forall i :: 0 <= i < |lines| ==> |lines[i]| <= 8 * 1024 * 1024
  }

  ghost predicate PlainLines(lines: seq<Bytes>) {
    forall i :: 0 <= i < |lines| ==> PlainLine(lines[i])
  }

  lemma FirstLFIs(l: Bytes, rest: Bytes)
    requires LF !in l
    ensures FirstLF(l + [LF] + rest) == |l|
  {
    var b := l + [LF] + rest;
    var k := FirstLF(b);
    assert b[|l|] == LF;
    forall i | 0 <= i < |l|
      ensures b[i] != LF
    {
      assert b[i] == l[i] && l[i] in l;
    }
  }

  lemma {:induction false} JoinFront(lines: seq<Bytes>)
    requires lines != []
    ensures Join(lines) == lines[0] + [LF] + Join(lines[1..])
  {
    if |lines| > 1 {
      var init := lines[..|lines| - 1];
      JoinFront(init);
      assert lines[1..][..|lines[1..]| - 1] == init[1..];
    }
  }

  /** Writing lines and splitting them again loses nothing, except that overlong lines cannot be read. */
  lemma {:induction false} SplitJoin(lines: seq<Bytes>)
    requires PlainLines(lines)
    ensures SplitLines(Join(lines)) == if ShortLines(lines) then Success(lines) else Failure(LimitExceeded)
  {
    hide Join;
    if lines == [] {
      EmptyJoin();
    } else {
      var l, rest := lines[0], Join(lines[1..]);
      JoinFront(lines);
      SplitFirst(l, rest);
      SplitJoin(lines[1..]);
      assert lines == [l] + lines[1..];
      assert ShortLines(lines) <==> |l| <= MAX_LINE_READ && ShortLines(lines[1..]);
    }
  }

  /** The same for a whole file: what was written always has a newline or is empty. */
  lemma ReadJoin(lines: seq<Bytes>)
    requires PlainLines(lines)
    ensures ReadLines(Join(lines)) == if ShortLines(lines) then Success(lines) else Failure(LimitExceeded)
  {
    hide SplitLines, PlainLines;
    SplitJoin(lines);
    if lines != [] { assert Join(lines)[|Join(lines)| - 1] == LF; }
  }

  lemma EmptyJoin()
    ensures Join([]) == [] && SplitLines([]) == Success([])
  {
    var b: Bytes := Join([]);
    assert b == [] && b[..0] == [] && FirstLF(b) == 0 && Trim(b[..0]) == [];
    var none: seq<Bytes> := [];
    assert none + none == none;
  }

  lemma SplitFirst(l: Bytes, rest: Bytes)
    requires PlainLine(l)
    ensures SplitLines(l + [LF] + rest) ==
              if |l| > MAX_LINE_READ then Failure(LimitExceeded)
              else if SplitLines(rest).Failure? then SplitLines(rest)
              else Success([l] + SplitLines(rest).value)
  {
    FirstLFIs(l, rest);
    var b := l + [LF] + rest;
    assert b[..|l|] == l && b[|l| + 1..] == rest;
    assert Trim(l) == l;
  }

  function JoinCRLF(lines: seq<Bytes>): Bytes {
    if lines == [] then [] else lines[0] + [CR, LF] + JoinCRLF(lines[1..])
  }

  /** A file with carriage returns at its line ends reads the same, though append writes none. */
  lemma {:induction false} SplitCRLF(lines: seq<Bytes>)
    requires PlainLines(lines)
    ensures SplitLines(JoinCRLF(lines)) == SplitLines(Join(lines))
  {
    hide SplitLines, Join, PlainLine;
    if lines == [] {
      EmptyJoin();
    } else {
      assert PlainLines(lines[1..]) && PlainLine(lines[0]);
      var l, rest := lines[0], JoinCRLF(lines[1..]);
      SplitCRLF(lines[1..]);
      JoinFront(lines);
      SplitFirst(l, Join(lines[1..]));
      assert l + [CR, LF] + rest == (l + [CR]) + [LF] + rest;
      SplitCRFirst(l, rest);
    }
  }

  lemma SplitCRFirst(l: Bytes, rest: Bytes)
    requires PlainLine(l)
    ensures SplitLines((l + [CR]) + [LF] + rest) ==
              if |l| > MAX_LINE_READ then Failure(LimitExceeded)
              else if SplitLines(rest).Failure? then SplitLines(rest)
              else Success([l] + SplitLines(rest).value)
  {
    var m := l + [CR];
    FirstLFIs(m, rest);
    var b := m + [LF] + rest;
    assert b[..|m|] == m && b[|m| + 1..] == rest;
    assert Trim(m) == l;
  }

  // ---- messages --------------------------------------------------------------------------------

  function MessagesOf(rs: seq<Record>): seq<Message> {
    if rs == [] then []
    else MessagesOf(rs[..|rs| - 1]) + if rs[|rs| - 1].MessageRecord? then [rs[|rs| - 1].m] else []
  }

  /** All messages of a sequence of batches, oldest first. */
  function History(batches: seq<seq<Record>>): seq<Message> {
    if batches == [] then [] else History(batches[..|batches| - 1]) + MessagesOf(batches[|batches| - 1])
  }

  /** The last n elements; a limit that is not positive means all of them. */
  function Last<T>(s: seq<T>, n: int): seq<T> {
    if n <= 0 || |s| <= n then s else s[|s| - n..]
  }

  function Reverse<T>(s: seq<T>): (r: seq<T>)
    ensures |r| == |s|
    ensures forall k :: 0 <= k < |s| ==> r[k] == s[|s| - 1 - k]
  {
    seq(|s|, k requires 0 <= k < |s| => s[|s| - 1 - k])
  }

  // ---- layout ----------------------------------------------------------------------------------

  /** The batches of each segment, oldest segment first. */
  type Layout = seq<seq<seq<Record>>>

  function Flatten(layout: Layout): seq<seq<Record>> {
    if layout == [] then [] else Flatten(layout[..|layout| - 1]) + layout[|layout| - 1]
  }

  function LinesOf(c: Codec, batches: seq<seq<Record>>): (r: seq<Bytes>)
    ensures |r| == |batches|
  {
    seq(|batches|, i requires 0 <= i < |batches| => LineOf(c, batches[i]))
  }

  /** The records of one line, read back, or the error for a damaged envelope or damaged records. */
  function RecordsOf(c: Codec, line: Bytes): Result<seq<Record>> {
    match c.decodeLine(line)
    case None => Failure(Json)
    case Some(Single(r)) => Success([r])
    case Some(Batch(schema, length, checksum, records)) =>
      if schema != 2 || length != |records| || checksum != Fnv1a(records) then Failure(Storage)
      else match c.decodeRecords(records) { case None => Failure(Json) case Some(rs) => Success(rs) }
  }

  /** Every batch that append writes passes the reader's length and checksum test. */
  lemma BatchIsSound(c: Codec, rs: seq<Record>)
    requires CodecOk(c)
    ensures RecordsOf(c, LineOf(c, rs)) == Success(rs) && PlainLine(LineOf(c, rs))
  {
    hide Fnv1a;
  }

  lemma {:induction false} HistoryFlatten(a: seq<seq<Record>>, b: seq<seq<Record>>)
    ensures History(a + b) == History(a) + History(b)
  {
    if b == [] {
      assert a + b == a;
    } else {
      assert (a + b)[..|a + b| - 1] == a + b[..|b| - 1];
      HistoryFlatten(a, b[..|b| - 1]);
    }
  }

  lemma MessagesAppend(rs: seq<Record>, r: Record)
    ensures MessagesOf(rs + [r]) == MessagesOf(rs) + if r.MessageRecord? then [r.m] else []
  {
    assert (rs + [r])[..|rs|] == rs;
  }
}
