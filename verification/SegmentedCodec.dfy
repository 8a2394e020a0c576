/** An encoding that meets what the segmented log asks of one: it can be met. */
module SegmentedCodec {
  import opened Common
  import opened SegmentedLog

  /** A number in unary, with a mark at its end. */
  function Unary(n: nat): Bytes {
    if n == 0 then [2] else [1] + Unary(n - 1)
  }

  function Numbers(ns: seq<nat>): Bytes {
    if ns == [] then [] else Unary(ns[0]) + Numbers(ns[1..])
  }

  function Text(s: string): seq<nat> {
    [|s|] + seq(|s|, i requires 0 <= i < |s| => s[i] as nat)
  }

  function RecordNumbers(r: Record): seq<nat> {
    match r
    case MessageRecord(m) => [0] + Text(m.id) + Text(m.role) + Text(m.body)
    case ToolCallRecord(id) => [1] + Text(id)
    case ToolResultRecord(id) => [2] + Text(id)
  }

  function RecordsNumbers(rs: seq<Record>): seq<nat> {
    if rs == [] then [] else RecordNumbers(rs[0]) + RecordsNumbers(rs[1..])
  }

  function Encode(rs: seq<Record>): Bytes {
    Numbers(RecordsNumbers(rs))
  }

  // ---- what has been encoded can be told apart ---------------------------------------------------

  lemma {:induction false} UnaryFirst(n: nat, k: nat, x: Bytes, y: Bytes)
    requires Unary(n) + x == Unary(k) + y
    ensures n == k && x == y
  {
    assert (Unary(n) + x)[0] == (if n == 0 then 2 else 1) && (Unary(k) + y)[0] == (if k == 0 then 2 else 1);
    if n == 0 {
      assert x == (Unary(n) + x)[1..] && y == (Unary(k) + y)[1..];
    } else {
      assert (Unary(n) + x)[1..] == Unary(n - 1) + x && (Unary(k) + y)[1..] == Unary(k - 1) + y;
      UnaryFirst(n - 1, k - 1, x, y);
    }
  }

  lemma {:induction false} NumbersInjective(a: seq<nat>, b: seq<nat>)
    requires Numbers(a) == Numbers(b)
    ensures a == b
  {
    if a != [] && b != [] {
      UnaryFirst(a[0], b[0], Numbers(a[1..]), Numbers(b[1..]));
      NumbersInjective(a[1..], b[1..]);
      assert a == [a[0]] + a[1..] && b == [b[0]] + b[1..];
    }
  }

  lemma TextFirst(s: string, t: string, x: seq<nat>, y: seq<nat>)
    requires Text(s) + x == Text(t) + y
    ensures s == t && x == y
  {
    var a, b := Text(s) + x, Text(t) + y;
    assert a[0] == |s| && b[0] == |t|;
    assert x == a[|s| + 1..] && y == b[|t| + 1..];
    forall i | 0 <= i < |s|
      ensures s[i] == t[i]
    {
      assert a[i + 1] == s[i] as nat && b[i + 1] == t[i] as nat;
    }
  }

  lemma Tail(kind: nat, a: seq<nat>, b: seq<nat>, c: seq<nat>, x: seq<nat>)
    ensures ([kind] + a + x)[1..] == a + x && ([kind] + a + x)[0] == kind
    ensures ([kind] + a + b + c + x)[1..] == a + (b + (c + x)) && ([kind] + a + b + c + x)[0] == kind
  {
  }

  lemma MessageFirst(m: Message, n: Message, x: seq<nat>, y: seq<nat>)
    requires RecordNumbers(MessageRecord(m)) + x == RecordNumbers(MessageRecord(n)) + y
    ensures m == n && x == y
  {
    hide Text;
    Tail(0, Text(m.id), Text(m.role), Text(m.body), x);
    Tail(0, Text(n.id), Text(n.role), Text(n.body), y);
    var x2, y2 := Text(m.body) + x, Text(n.body) + y;
    TextFirst(m.id, n.id, Text(m.role) + x2, Text(n.role) + y2);
    TextFirst(m.role, n.role, x2, y2);
    TextFirst(m.body, n.body, x, y);
  }

  lemma ToolFirst(kind: nat, s: string, t: string, x: seq<nat>, y: seq<nat>)
    requires [kind] + Text(s) + x == [kind] + Text(t) + y
    ensures s == t && x == y
  {
    hide Text;
    Tail(kind, Text(s), [], [], x);
    Tail(kind, Text(t), [], [], y);
    TextFirst(s, t, x, y);
  }

  lemma Kind(r: Record, x: seq<nat>)
    ensures (RecordNumbers(r) + x)[0] == if r.MessageRecord? then 0 else if r.ToolCallRecord? then 1 else 2
  {
  }

  lemma RecordFirst(r: Record, q: Record, x: seq<nat>, y: seq<nat>)
    requires RecordNumbers(r) + x == RecordNumbers(q) + y
    ensures r == q && x == y
  {
    Kind(r, x);
    Kind(q, y);
    hide Text;
    match r
    case MessageRecord(m) =>
      hide RecordNumbers;
      MessageFirst(m, q.m, x, y);
    case ToolCallRecord(id) => ToolFirst(1, id, q.id, x, y);
    case ToolResultRecord(id) => ToolFirst(2, id, q.id, x, y);
  }

  lemma {:induction false} RecordsInjective(a: seq<Record>, b: seq<Record>)
    requires RecordsNumbers(a) == RecordsNumbers(b)
    ensures a == b
  {
    hide RecordNumbers;
    if a != [] { SomeNumber(a[0]); }
    if b != [] { SomeNumber(b[0]); }
    if a != [] && b != [] {
      RecordFirst(a[0], b[0], RecordsNumbers(a[1..]), RecordsNumbers(b[1..]));
      RecordsInjective(a[1..], b[1..]);
      assert a == [a[0]] + a[1..] && b == [b[0]] + b[1..];
    }
  }

  lemma SomeNumber(r: Record)
    ensures RecordNumbers(r) != []
  {
  }

  lemma {:induction false} MarksOnly(ns: seq<nat>)
    ensures forall i :: 0 <= i < |Numbers(ns)| ==> Numbers(ns)[i] in {1, 2}
  {
    if ns != [] {
      UnaryMarks(ns[0]);
      MarksOnly(ns[1..]);
    }
  }

  lemma {:induction false} UnaryMarks(n: nat)
    ensures forall i :: 0 <= i < |Unary(n)| ==> Unary(n)[i] in {1, 2}
  {
    if n > 0 { UnaryMarks(n - 1); }
  }

  // ---- the encoding -----------------------------------------------------------------------------

  ghost function Decode(b: Bytes): Option<seq<Record>> {
    if rs :| Encode(rs) == b then Some(rs) else None
  }

  function EncodeLine(l: Line): Bytes {
    [1] + if l.Batch? then l.records else []
  }

  function DecodeLine(b: Bytes): Option<Line> {
    if b == [] then None else Some(Batch(2, |b| - 1, Fnv1a(b[1..]), b[1..]))
  }

  /** There is an encoding that meets the requirements. */
  lemma CodecExists() returns (c: Codec)
    ensures CodecOk(c)
  {
    hide Fnv1a, Encode, Decode;
    c := Codec(l => EncodeLine(l), b => DecodeLine(b), rs => Encode(rs), b => Decode(b));
    forall rs
      ensures PlainLine(LineOf(c, rs)) && c.decodeLine(LineOf(c, rs)) == Some(BatchOf(c, rs))
    {
      var b := LineOf(c, rs);
      assert b[1..] == Encode(rs);
      PlainEncoding(rs);
    }
    forall rs
      ensures c.decodeRecords(c.encodeRecords(rs)) == Some(rs)
    {
      Decoded(rs);
    }
  }

  lemma PlainEncoding(rs: seq<Record>)
    ensures PlainLine([1] + Encode(rs))
  {
    hide RecordsNumbers, Numbers;
    MarksOnly(RecordsNumbers(rs));
    var l := [1] + Encode(rs);
    assert forall i :: 0 <= i < |l| ==> l[i] in {1, 2};
  }

  lemma Decoded(rs: seq<Record>)
    ensures Decode(Encode(rs)) == Some(rs)
  {
    hide RecordsNumbers, Numbers;
    var found := Decode(Encode(rs));
    assert found.Some? && Encode(found.value) == Encode(rs);
    NumbersInjective(RecordsNumbers(found.value), RecordsNumbers(rs));
    RecordsInjective(found.value, rs);
  }
}
