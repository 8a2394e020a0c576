/**
 One session directory of the segmented store: numbered segment files, a manifest with the number of the
 current one, and the operations on them. The ghost layout remembers which batches each segment holds.
 */
module SegmentedStore {
  import opened Common
  import opened SegmentedLog

  /** Segment number s is read after the later ones gave fewer than limit messages. */
  predicate Visited(layout: Layout, s: nat, limit: int)
    requires s < |layout|
  {
    limit <= 0 || |History(Flatten(layout[s + 1..]))| < limit
  }

  /** No segment that the reader visits holds an overlong line. */
  ghost predicate Readable(c: Codec, layout: Layout, limit: int) {
    forall s :: 0 <= s < |layout| && Visited(layout, s, limit) ==> ShortLines(LinesOf(c, layout[s]))
  }

  /** File contents match the layout; only a segment with a single line may exceed the limit. */
  ghost predicate Holds(c: Codec, segmentBytes: nat, files: map<nat, Bytes>, layout: Layout) {
    && (forall s :: 0 <= s < |layout| ==> FileOf(files, s + 1) == Join(LinesOf(c, layout[s])))
    && (forall k :: k in files ==> k <= |layout|)
    && (forall s :: 0 <= s < |layout| && segmentBytes > 0 && |layout[s]| >= 2 ==>
          |FileOf(files, s + 1)| <= segmentBytes)
  }

  /** A missing segment file reads as empty. */
  function FileOf(files: map<nat, Bytes>, k: nat): Bytes {
    if k in files then files[k] else []
  }

  /** The layout without the batches of some segments. */
  function Thin(layout: Layout, removed: set<nat>): Layout {
    seq(|layout|, s requires 0 <= s < |layout| => if s + 1 in removed then [] else layout[s])
  }

  /** A manifest is written aside, moved over the old one, and its directory synchronized, which may fail last. */
  datatype Save = Saved | Replaced | Refused

  class SessionLog {
    const codec: Codec
    const segmentBytes: nat
    var files: map<nat, Bytes>
    var manifest: Option<nat>
    ghost var layout: Layout

    ghost predicate Valid()
      reads this
    {
      && CodecOk(codec)
      && Current() == |layout| >= 1
      && Holds(codec, segmentBytes, files, layout)
    }

    /** The manifest's segment number, or 1 if there is none. */
    function Current(): nat
      reads this
    {
      if manifest.Some? && manifest.value > 0 then manifest.value else 1
    }

    constructor (codec: Codec, segmentBytes: nat)
      requires CodecOk(codec)
      ensures Valid() && Flatten(layout) == []
      ensures this.segmentBytes == if segmentBytes == 0 then DEFAULT_SEGMENT_BYTES else segmentBytes
    {
      this.codec := codec;
      this.segmentBytes := if segmentBytes == 0 then DEFAULT_SEGMENT_BYTES else segmentBytes;
      files, manifest, layout := map[], None, [[]];
    }

    /** Whether a batch needs a new segment. */
    predicate Rolls(rs: seq<Record>)
      reads this
    {
      var size := |FileOf(files, Current())|;
      segmentBytes > 0 && size > 0 && size + |LineOf(codec, rs)| + 1 > segmentBytes
    }

    /** What must succeed for a batch to be in the log; the synchronization that follows is not part of it. */
    predicate Logs(rs: seq<Record>, create: Save, roll: Save, appendOk: bool)
      reads this
    {
      rs != [] && (manifest == None ==> create == Saved) && (Rolls(rs) ==> roll == Saved) && appendOk
    }

    /** Write segment number k into the manifest. */
    method SaveManifest(k: nat, save: Save) returns (status: Status)
      modifies `manifest
      ensures manifest == if save == Refused then old(manifest) else Some(k)
      ensures status == Ok <==> save == Saved
    {
      if save != Refused { manifest := Some(k); }
      status := if save == Saved then Ok else Io;
    }

    /** Create the first segment and the manifest unless they exist; either may fail. */
    method Create(appendOk: bool, save: Save) returns (status: Status)
      requires Valid()
      modifies this
      ensures Valid() && layout == old(layout)
      ensures status == Ok <==> (1 in old(files) || appendOk) && (old(manifest).Some? || save == Saved)
    {
      status := Ok;
      if 1 !in files {
        if !appendOk { return Io; }
        files := files[1 := []];
      }
      if manifest == None { status := SaveManifest(1, save); }
    }

    /**
     Append one batch as one line, on a new segment if the current one would grow too large. The batch is in
     the log exactly if the manifests it needs were saved and the file took the line; the result is Ok exactly
     if the file was synchronized as well. So an error comes with the batch in the log exactly if the line was
     appended and its synchronization failed.
     */
    method AppendRecords(rs: seq<Record>, create: Save, roll: Save, appendOk: bool, syncOk: bool)
      returns (status: Status)
      requires Valid()
      modifies this
      ensures Valid()
      ensures Flatten(layout) == Flatten(old(layout)) + if old(Logs(rs, create, roll, appendOk)) then [rs] else []
      ensures status == Ok <==> rs == [] || (old(Logs(rs, create, roll, appendOk)) && syncOk)
      ensures status != Ok && Flatten(layout) != Flatten(old(layout)) <==>
                old(Logs(rs, create, roll, appendOk)) && !syncOk
      // a new segment is begun exactly if the current one has something in it and would grow past the limit
      ensures old(Logs(rs, create, roll, appendOk)) ==>
                var last, size := |old(layout)| - 1, |old(FileOf(files, Current()))|;
                layout == if segmentBytes > 0 && size > 0 && size + |LineOf(codec, rs)| + 1 > segmentBytes
                          then old(layout) + [[rs]] else old(layout)[last := old(layout)[last] + [rs]]
    {
      hide Fnv1a, Flatten, Holds;
      if rs == [] { return Ok; }
      if manifest == None {
        status := SaveManifest(1, create);
        if status != Ok { return status; }
      }
      var line := codec.encodeLine(BatchOf(codec, rs));
      var size := |FileOf(files, Current())|;
      if segmentBytes > 0 && size > 0 && size + |line| + 1 > segmentBytes {
        status := Roll(roll);
        if status != Ok { return status; }
      }
      if !appendOk { return Io; }
      ghost var first: seq<seq<Record>> := [];
      assert first + [rs] == [rs];
      assert (old(layout) + [first])[|old(layout)| := [rs]] == old(layout) + [[rs]];
      AppendLine(rs, line);
      status := if syncOk then Ok else Io;
    }

    /** Make the next segment current. The manifest may have been replaced even if an error is reported. */
    method Roll(save: Save) returns (status: Status)
      requires Valid()
      modifies `manifest, `layout
      ensures Valid() && Flatten(layout) == Flatten(old(layout))
      ensures layout == if save == Refused then old(layout) else old(layout) + [[]]
      ensures status == Ok <==> save == Saved
      ensures if save == Refused then Current() == old(Current())
              else Current() == old(Current()) + 1 && FileOf(files, Current()) == []
    {
      hide Flatten, Holds;
      HoldsRolled(codec, segmentBytes, files, layout);
      if save != Refused { layout := layout + [[]]; }
      status := SaveManifest(Current() + 1, save);
    }

    method AppendLine(rs: seq<Record>, line: Bytes)
      requires Valid() && line == LineOf(codec, rs)
      requires segmentBytes > 0 ==>
                 FileOf(files, Current()) == [] || |FileOf(files, Current())| + |line| + 1 <= segmentBytes
      modifies `files, `layout
      ensures Valid() && Flatten(layout) == Flatten(old(layout)) + [rs]
      ensures layout == old(layout)[|old(layout)| - 1 := old(layout)[|old(layout)| - 1] + [rs]]
    {
      hide Flatten, Holds, LineOf;
      var current := Current();
      HoldsAppended(codec, segmentBytes, files, layout, rs);
      files := files[current := FileOf(files, current) + line + [LF]];
      layout := layout[..current - 1] + [layout[current - 1] + [rs]];
    }

    /**
     Remove everything and start over with an empty first segment. When the removal fails, `removed` and
     `unlisted` say which segments and whether the manifest went before; the rest of the log is still there,
     but it stays a log only if the manifest does, or no segment behind the first one is left.
     */
    method Clear(removeOk: bool, removed: set<nat>, unlisted: bool, appendOk: bool, save: Save)
      returns (status: Status)
      requires Valid()
      modifies this
      ensures status == Ok <==> removeOk && appendOk && save == Saved
      ensures removeOk ==> Valid() && Flatten(layout) == []
      ensures !removeOk ==> files == old(files) - removed && manifest == if unlisted then None else old(manifest)
      ensures !removeOk ==>
                (Valid() <==> !unlisted || forall k :: k in files ==> k <= 1)
      ensures !removeOk && !unlisted ==> layout == Thin(old(layout), removed)
    {
      hide Holds, CodecOk, Flatten;
      if !removeOk {
        Thinned(codec, segmentBytes, files, layout, removed);
        ghost var thin := Thin(layout, removed);
        files := files - removed;
        FirstOnly(codec, segmentBytes, files, thin);
        if unlisted {
          manifest := None;
          layout := [thin[0]];
        } else {
          layout := thin;
        }
        HoldsBound(codec, segmentBytes, files, layout);
        return Io;
      }
      files, manifest, layout := map[], None, [[]];
      HoldsFresh(codec, segmentBytes);
      if !appendOk { return Io; }
      files := map[1 := []];
      status := SaveManifest(1, save);
    }

    /** Split a segment file into its nonempty lines. */
    method LoadSegmentLines(k: nat) returns (lines: Result<seq<Bytes>>)
      ensures lines == ReadLines(FileOf(files, k))
    {
      hide SplitLines, FirstLF, Trim, Join;
      lines := Success([]);
      if k !in files {
        EmptyJoin();
        return;
      }
      var bytes := files[k];
      if |bytes| > MAX_LINE_READ && LF !in bytes { return Failure(LimitExceeded); }
      var out: seq<Bytes> := [];
      var start, i := 0, 0;
      var more := true;
      assert bytes[0..] == bytes;
      PrependNone(SplitLines(bytes));
      while i <= |bytes|
        invariant start <= i <= |bytes| + 1 && start <= |bytes| + 1
        invariant start == |bytes| + 1 ==> i == |bytes| + 1 && SplitLines(bytes) == Success(out)
        invariant start <= |bytes| ==>
                    i <= |bytes| && (forall j :: start <= j < i ==> bytes[j] != LF)
                    && SplitLines(bytes) == Prepend(out, SplitLines(bytes[start..]))
      {
        if i < |bytes| && bytes[i] != LF {
          i := i + 1;
          continue;
        }
        SplitAt(bytes, start, i);
        var line := Trim(bytes[start..i]);
        PrependTwice(out, if line == [] then [] else [line],
                     if i < |bytes| then SplitLines(bytes[i + 1..]) else Success([]));
        if |line| > MAX_LINE_READ { return Failure(LimitExceeded); }
        if line != [] { out := out + [line]; }
        start, i := i + 1, i + 1;
      }
      lines := Success(out);
    }

    /** Add the messages of one line, newest first, up to the limit; a damaged line is an error. */
    method ParseMessageRecords(line: Bytes, limit: int, newest: seq<Message>, ghost ms: seq<Message>)
      returns (r: Result<seq<Message>>)
      requires newest == Reverse(ms) && (limit <= 0 || |ms| < limit)
      ensures r == match RecordsOf(codec, line)
                   case Failure(error) => Failure(error)
                   case Success(rs) => Success(Reverse(Last(MessagesOf(rs) + ms, limit)))
    {
      hide Reverse, MessagesOf, Last, RecordsOf;
      var parsed := RecordsOf(codec, line);
      if parsed.Failure? { return Failure(parsed.error); }
      var rs := parsed.value;
      var i := |rs|;
      var out := newest;
      NothingTaken(rs, ms);
      while i > 0 && (limit <= 0 || |out| < limit)
        invariant 0 <= i <= |rs|
        invariant out == Reverse(MessagesOf(rs[i..]) + ms)
        invariant limit > 0 ==> |MessagesOf(rs[i..]) + ms| <= limit
      {
        i := i - 1;
        RecordTaken(rs, i, ms);
        if rs[i].MessageRecord? { out := out + [rs[i].m]; }
      }
      EnoughTaken(rs, i, ms, limit);
      r := Success(out);
    }

    /**
     Read from the current segment backwards until enough messages are found, then put them in order. The
     result is the last `limit` messages of everything appended (all of them if the limit is not positive),
     unless a segment that is read holds a line over the read limit.
     */
    method LoadMessages(limit: int) returns (r: Result<seq<Message>>)
      requires Valid()
      ensures r == if Readable(codec, layout, limit) then Success(Last(History(Flatten(layout)), limit))
                   else Failure(LimitExceeded)
    {
      hide Holds, Flatten, History, Reverse, Last, Readable, CodecOk, Visited, MessagesOf, ReadLines, LinesOf;
      var seg := Current();
      var newest: seq<Message> := [];
      NothingRead(codec, layout, limit);
      while seg >= 1 && (limit <= 0 || |newest| < limit)
        invariant 0 <= seg <= |layout|
        invariant newest == Reverse(Last(History(Flatten(layout[seg..])), limit))
        invariant |newest| == |Last(History(Flatten(layout[seg..])), limit)|
        invariant ReadableFrom(codec, layout, limit, seg)
        decreases seg
      {
        var lines := LoadSegmentLines(seg);
        SegmentLines(codec, segmentBytes, files, layout, seg - 1);
        SegmentVisited(codec, layout, limit, seg - 1);
        if lines.Failure? { return Failure(lines.error); }
        newest := ReadSegment(lines.value, limit, newest, layout[seg - 1], History(Flatten(layout[seg..])));
        SegmentRead(layout, seg - 1, limit);
        seg := seg - 1;
      }
      EnoughRead(codec, layout, limit, seg);
      var ordered := InOrder(newest);
      DoubleReverse(Last(History(Flatten(layout)), limit));
      r := Success(ordered);
    }

    /** Read the lines of one segment, newest first. */
    method ReadSegment(lines: seq<Bytes>, limit: int, before: seq<Message>, ghost batches: seq<seq<Record>>,
                       ghost ms: seq<Message>) returns (newest: seq<Message>)
      requires CodecOk(codec) && lines == LinesOf(codec, batches)
      requires before == Reverse(ms) && (limit <= 0 || |ms| < limit)
      ensures newest == Reverse(Last(History(batches) + ms, limit))
      ensures |newest| == |Last(History(batches) + ms, limit)|
    {
      hide History, Reverse, Last, CodecOk, MessagesOf, Flatten, LineOf;
      var idx := |lines|;
      newest := before;
      NoLines(batches, ms, limit);
      while idx > 0 && (limit <= 0 || |newest| < limit)
        invariant 0 <= idx <= |lines|
        invariant newest == Reverse(Last(History(batches[idx..]) + ms, limit))
        invariant |newest| == |Last(History(batches[idx..]) + ms, limit)|
        decreases idx
      {
        idx := idx - 1;
        BatchIsSound(codec, batches[idx]);
        LastShort(History(batches[idx + 1..]) + ms, limit);
        var parsed := ParseMessageRecords(lines[idx], limit, newest, History(batches[idx + 1..]) + ms);
        newest := parsed.value;
        LineRead(batches, idx, ms, limit);
      }
      EnoughLines(batches, idx, ms, limit);
    }

    /** Reverse a vector in place. */
    method InOrder(newest: seq<Message>) returns (ordered: seq<Message>)
      ensures ordered == Reverse(newest)
    {
      hide Reverse;
      var n := |newest|;
      var items := new Message[n](i requires 0 <= i < n => newest[i]);
      assert items[..] == newest;
      var i := 0;
      while i < n / 2
        invariant i <= n / 2
        invariant forall k :: 0 <= k < n ==> items[k] == newest[if i <= k < n - i then k else n - 1 - k]
      {
        items[i], items[n - 1 - i] := items[n - 1 - i], items[i];
        i := i + 1;
      }
      ordered := items[..];
      forall k | 0 <= k < n
        ensures ordered[k] == newest[n - 1 - k]
      {
        if i <= k < n - i { assert k == n - 1 - k; }
        assert ordered[k] == items[k];
      }
      IsReverse(newest, ordered);
    }
  }

  lemma IsReverse(a: seq<Message>, b: seq<Message>)
    requires |a| == |b| && forall k :: 0 <= k < |a| ==> b[k] == a[|a| - 1 - k]
    ensures b == Reverse(a)
  {
  }

  /** After a failed synchronization a retry puts the batch into the log twice. */
  method RetryDuplicates(codec: Codec, rs: seq<Record>) returns (log: SessionLog, first: Status, second: Status)
    requires CodecOk(codec) && rs != []
    ensures log.Valid() && Flatten(log.layout) == [rs, rs]
    ensures first != Ok && second == Ok
  {
    hide Holds, Flatten, LineOf, CodecOk, FileOf;
    log := new SessionLog(codec, 0);
    first := log.AppendRecords(rs, Saved, Saved, true, false);
    second := log.AppendRecords(rs, Saved, Saved, true, true);
  }

  // ---- reading ---------------------------------------------------------------------------------

  function Prepend(out: seq<Bytes>, r: Result<seq<Bytes>>): Result<seq<Bytes>> {
    if r.Failure? then r else Success(out + r.value)
  }

  lemma PrependTwice(a: seq<Bytes>, b: seq<Bytes>, r: Result<seq<Bytes>>)
    ensures Prepend(a, Prepend(b, r)) == Prepend(a + b, r)
    ensures Prepend(a + b, Success([])) == Success(a + b)
    ensures b == [] ==> a + b == a
  {
    assert a + b + [] == a + b;
    if r.Success? { assert a + (b + r.value) == a + b + r.value; }
  }

  lemma PrependNone(r: Result<seq<Bytes>>)
    ensures Prepend([], r) == r
  {
    if r.Success? { assert [] + r.value == r.value; }
  }

  /** The line that ends at i, and what follows it. */
  lemma SplitAt(bytes: Bytes, start: nat, i: nat)
    requires start <= i <= |bytes| && forall j :: start <= j < i ==> bytes[j] != LF
    requires i < |bytes| ==> bytes[i] == LF
    ensures var line := Trim(bytes[start..i]);
            SplitLines(bytes[start..]) ==
              if |line| > MAX_LINE_READ then Failure(LimitExceeded)
              else Prepend(if line == [] then [] else [line],
                           if i < |bytes| then SplitLines(bytes[i + 1..]) else Success([]))
  {
    var b := bytes[start..];
    var k := FirstLF(b);
    assert forall j :: 0 <= j < |b| ==> b[j] == bytes[start + j];
    assert k == i - start;
    assert b[..k] == bytes[start..i];
    if k < |b| { assert b[k + 1..] == bytes[i + 1..]; }
  }

  lemma ReversePrepend(m: Message, ms: seq<Message>)
    ensures Reverse([m] + ms) == Reverse(ms) + [m]
  {
  }

  lemma {:induction false} MessagesSplit(rs: seq<Record>, i: nat)
    requires i <= |rs|
    ensures MessagesOf(rs) == MessagesOf(rs[..i]) + MessagesOf(rs[i..])
  {
    if i == |rs| {
      assert rs[..i] == rs;
    } else {
      var init := rs[..|rs| - 1];
      MessagesSplit(init, i);
      assert init[..i] == rs[..i] && rs[i..][..|rs[i..]| - 1] == init[i..];
    }
  }

  lemma MessagesFront(rs: seq<Record>)
    requires rs != []
    ensures MessagesOf(rs) == (if rs[0].MessageRecord? then [rs[0].m] else []) + MessagesOf(rs[1..])
  {
    MessagesSplit(rs, 1);
    assert rs[..1][..0] == [];
  }

  lemma NothingTaken(rs: seq<Record>, ms: seq<Message>)
    ensures MessagesOf(rs[|rs|..]) + ms == ms
  {
    assert rs[|rs|..] == [];
  }

  lemma RecordTaken(rs: seq<Record>, i: nat, ms: seq<Message>)
    requires i < |rs|
    ensures var (more, less) := (MessagesOf(rs[i..]) + ms, MessagesOf(rs[i + 1..]) + ms);
            && (rs[i].MessageRecord? ==> more == [rs[i].m] + less && Reverse(more) == Reverse(less) + [rs[i].m])
            && (!rs[i].MessageRecord? ==> more == less)
  {
    MessagesFront(rs[i..]);
    assert rs[i..][1..] == rs[i + 1..];
    if rs[i].MessageRecord? {
      ReversePrepend(rs[i].m, MessagesOf(rs[i + 1..]) + ms);
      assert [rs[i].m] + (MessagesOf(rs[i + 1..]) + ms) == MessagesOf(rs[i..]) + ms;
    }
  }

  lemma EnoughTaken(rs: seq<Record>, i: nat, ms: seq<Message>, limit: int)
    requires i <= |rs| && (limit > 0 ==> |MessagesOf(rs[i..]) + ms| <= limit)
    requires i == 0 || (limit > 0 && |MessagesOf(rs[i..]) + ms| >= limit)
    ensures Last(MessagesOf(rs) + ms, limit) == MessagesOf(rs[i..]) + ms
  {
    MessagesSplit(rs, i);
    assert MessagesOf(rs) + ms == MessagesOf(rs[..i]) + (MessagesOf(rs[i..]) + ms);
    if i == 0 { assert MessagesOf(rs[..i]) == []; }
    LastOfSuffix(MessagesOf(rs[..i]), MessagesOf(rs[i..]) + ms, limit);
  }

  /** Once a suffix has n elements, what precedes it does not matter. */
  lemma LastOfSuffix<T>(a: seq<T>, b: seq<T>, n: int)
    ensures n > 0 && |b| >= n ==> Last(a + b, n) == Last(b, n)
    ensures n > 0 && |b| == n ==> Last(a + b, n) == b
    ensures a == [] ==> Last(a + b, n) == Last(b, n)
    ensures n <= 0 || |b| <= n ==> Last(b, n) == b
  {
    assert a == [] ==> a + b == b;
  }

  // ---- layout ----------------------------------------------------------------------------------

  lemma HoldsFresh(c: Codec, segmentBytes: nat)
    ensures Holds(c, segmentBytes, map[], [[]]) && Holds(c, segmentBytes, map[1 := []], [[]])
    ensures Flatten([[]]) == []
  {
    assert LinesOf(c, []) == [] && Join([]) == [];
    var layout: Layout := [[]];
    assert layout[..0] == [];
  }

  /** Without a manifest only the first segment counts. */
  lemma FirstOnly(c: Codec, segmentBytes: nat, files: map<nat, Bytes>, layout: Layout)
    requires Holds(c, segmentBytes, files, layout) && |layout| > 0
    ensures (forall k :: k in files ==> k <= 1) ==> Holds(c, segmentBytes, files, [layout[0]])
  {
    hide Join, LinesOf;
  }

  lemma HoldsBound(c: Codec, segmentBytes: nat, files: map<nat, Bytes>, layout: Layout)
    ensures Holds(c, segmentBytes, files, layout) ==> forall k :: k in files ==> k <= |layout|
  {
    hide Join, LinesOf;
  }

  /** Removing segment files empties their segments. */
  lemma Thinned(c: Codec, segmentBytes: nat, files: map<nat, Bytes>, layout: Layout, removed: set<nat>)
    requires Holds(c, segmentBytes, files, layout)
    ensures Holds(c, segmentBytes, files - removed, Thin(layout, removed))
  {
    hide Join;
    assert LinesOf(c, []) == [];
    EmptyJoin();
  }

  lemma HoldsRolled(c: Codec, segmentBytes: nat, files: map<nat, Bytes>, layout: Layout)
    requires Holds(c, segmentBytes, files, layout)
    ensures Holds(c, segmentBytes, files, layout + [[]])
    ensures Flatten(layout + [[]]) == Flatten(layout)
    ensures FileOf(files, |layout| + 1) == []
  {
    EmptySegment(c);
    hide Join, LinesOf, Flatten;
    var rolled: Layout := layout + [[]];
    FlattenLast(rolled);
    assert rolled[..|layout|] == layout && Flatten(layout) + [] == Flatten(layout);
    assert forall s :: 0 <= s < |layout| ==> rolled[s] == layout[s];
  }

  lemma EmptySegment(c: Codec)
    ensures Join(LinesOf(c, [])) == []
  {
    assert LinesOf(c, []) == [];
  }

  lemma HoldsAppended(c: Codec, segmentBytes: nat, files: map<nat, Bytes>, layout: Layout, rs: seq<Record>)
    requires Holds(c, segmentBytes, files, layout) && |layout| > 0
    requires var file := FileOf(files, |layout|);
             segmentBytes > 0 ==> file == [] || |file| + |LineOf(c, rs)| + 1 <= segmentBytes
    ensures var n := |layout|;
            var layout' := layout[..n - 1] + [layout[n - 1] + [rs]];
            Holds(c, segmentBytes, files[n := FileOf(files, n) + LineOf(c, rs) + [LF]], layout')
            && Flatten(layout') == Flatten(layout) + [rs]
  {
    hide Flatten, Join, LinesOf, LineOf;
    var n := |layout|;
    var last := layout[n - 1];
    LastAppended(c, last, rs);
    FlattenAppended(layout, rs);
  }

  lemma LastAppended(c: Codec, batches: seq<seq<Record>>, rs: seq<Record>)
    ensures Join(LinesOf(c, batches + [rs])) == Join(LinesOf(c, batches)) + LineOf(c, rs) + [LF]
    ensures batches != [] ==> Join(LinesOf(c, batches)) != []
    ensures |batches + [rs]| >= 2 ==> batches != []
  {
    hide LineOf;
    var lines := LinesOf(c, batches + [rs]);
    assert lines[..|lines| - 1] == LinesOf(c, batches);
    if batches != [] { JoinNonempty(LinesOf(c, batches)); }
  }

  lemma FlattenAppended(layout: Layout, rs: seq<Record>)
    requires |layout| > 0
    ensures Flatten(layout[..|layout| - 1] + [layout[|layout| - 1] + [rs]]) == Flatten(layout) + [rs]
  {
    var n := |layout|;
    var layout' := layout[..n - 1] + [layout[n - 1] + [rs]];
    assert layout'[..n - 1] == layout[..n - 1];
    assert Flatten(layout') == Flatten(layout[..n - 1]) + (layout[n - 1] + [rs]);
  }

  lemma JoinNonempty(lines: seq<Bytes>)
    requires lines != []
    ensures Join(lines) != []
  {
  }

  // ---- the reverse reader ----------------------------------------------------------------------

  /** No visited segment from number seg on (counted from zero) holds an overlong line. */
  ghost predicate ReadableFrom(c: Codec, layout: Layout, limit: int, seg: nat) {
    forall s :: seg <= s < |layout| && Visited(layout, s, limit) ==> ShortLines(LinesOf(c, layout[s]))
  }

  lemma NothingRead(c: Codec, layout: Layout, limit: int)
    ensures Reverse(Last(History(Flatten(layout[|layout|..])), limit)) == []
    ensures |Last(History(Flatten(layout[|layout|..])), limit)| == 0
    ensures ReadableFrom(c, layout, limit, |layout|)
  {
    assert layout[|layout|..] == [];
  }

  lemma SegmentLines(c: Codec, segmentBytes: nat, files: map<nat, Bytes>, layout: Layout, s: nat)
    requires CodecOk(c) && Holds(c, segmentBytes, files, layout) && s < |layout|
    ensures ReadLines(FileOf(files, s + 1)) ==
              if ShortLines(LinesOf(c, layout[s])) then Success(LinesOf(c, layout[s])) else Failure(LimitExceeded)
  {
    hide ReadLines, Join, RecordsOf, LineOf;
    forall i | 0 <= i < |layout[s]|
      ensures PlainLine(LinesOf(c, layout[s])[i])
    {
      BatchIsSound(c, layout[s][i]);
    }
    ReadJoin(LinesOf(c, layout[s]));
  }

  /** A segment is visited exactly if the later ones did not give enough. */
  lemma SegmentVisited(c: Codec, layout: Layout, limit: int, s: nat)
    requires s < |layout| && ReadableFrom(c, layout, limit, s + 1)
    requires limit <= 0 || |Last(History(Flatten(layout[s + 1..])), limit)| < limit
    ensures Visited(layout, s, limit)
    ensures limit <= 0 || |History(Flatten(layout[s + 1..]))| < limit
    ensures Last(History(Flatten(layout[s + 1..])), limit) == History(Flatten(layout[s + 1..]))
    ensures ReadableFrom(c, layout, limit, s) <==> ShortLines(LinesOf(c, layout[s]))
    ensures !ShortLines(LinesOf(c, layout[s])) ==> !Readable(c, layout, limit)
  {
    hide History, Flatten, LinesOf;
  }

  lemma SegmentRead(layout: Layout, s: nat, limit: int)
    requires s < |layout|
    ensures History(layout[s]) + History(Flatten(layout[s + 1..])) == History(Flatten(layout[s..]))
  {
    FlattenFront(layout[s..]);
    assert layout[s..][1..] == layout[s + 1..];
    HistoryFlatten(layout[s], Flatten(layout[s + 1..]));
  }

  lemma FlattenLast(layout: Layout)
    requires layout != []
    ensures Flatten(layout) == Flatten(layout[..|layout| - 1]) + layout[|layout| - 1]
    ensures Flatten([]) == []
  {
  }

  lemma {:induction false} FlattenFront(layout: Layout)
    requires layout != []
    ensures Flatten(layout) == layout[0] + Flatten(layout[1..])
  {
    hide Flatten;
    FlattenLast(layout);
    if |layout| > 1 {
      var init := layout[..|layout| - 1];
      FlattenFront(init);
      FlattenLast(layout[1..]);
      assert layout[1..][..|layout| - 2] == init[1..];
      assert layout[0] + (Flatten(init[1..]) + layout[|layout| - 1]) == layout[0] + Flatten(init[1..]) + layout[|layout| - 1];
    } else {
      assert layout[..0] == [] && layout[1..] == [];
    }
  }

  lemma {:induction false} FlattenSplit(layout: Layout, s: nat)
    requires s <= |layout|
    ensures Flatten(layout) == Flatten(layout[..s]) + Flatten(layout[s..])
    decreases s
  {
    if s == 0 {
      assert layout[0..] == layout && layout[..0] == [];
    } else {
      FlattenSplit(layout, s - 1);
      FlattenFront(layout[s - 1..]);
      assert layout[s - 1..][1..] == layout[s..] && layout[..s][..s - 1] == layout[..s - 1];
    }
  }

  /** When the reader stops, older segments are not visited and do not matter. */
  lemma EnoughRead(c: Codec, layout: Layout, limit: int, seg: nat)
    requires seg <= |layout| && ReadableFrom(c, layout, limit, seg)
    requires seg == 0 || (limit > 0 && |Last(History(Flatten(layout[seg..])), limit)| >= limit)
    ensures Readable(c, layout, limit)
    ensures Last(History(Flatten(layout[seg..])), limit) == Last(History(Flatten(layout)), limit)
  {
    hide Flatten, History, LinesOf;
    if seg == 0 {
      assert layout[0..] == layout;
    } else {
      FlattenSplit(layout, seg);
      HistoryFlatten(Flatten(layout[..seg]), Flatten(layout[seg..]));
      LastOfSuffix(History(Flatten(layout[..seg])), History(Flatten(layout[seg..])), limit);
      forall s | 0 <= s < seg
        ensures !Visited(layout, s, limit)
      {
        SuffixGrows(layout, s + 1, seg);
      }
    }
  }

  lemma SuffixGrows(layout: Layout, s: nat, t: nat)
    requires s <= t <= |layout|
    ensures |History(Flatten(layout[s..]))| >= |History(Flatten(layout[t..]))|
  {
    FlattenSplit(layout[s..], t - s);
    assert layout[s..][t - s..] == layout[t..];
    HistoryFlatten(Flatten(layout[s..][..t - s]), Flatten(layout[t..]));
  }

  /**
   A segment with a line over the read limit can never be read again, and with it everything older: a session
   is readable exactly if the limit is positive and the newer segments alone, themselves readable, satisfy it.
   */
  lemma OverlongLineUnreadable(c: Codec, older: Layout, batches: seq<seq<Record>>, newer: Layout, k: nat, limit: int)
    requires k < |batches| && |LineOf(c, batches[k])| > MAX_LINE_READ
    ensures var layout, recent := older + [batches] + newer, History(Flatten(newer));
            && (Readable(c, layout, limit) <==> limit > 0 && |recent| >= limit && Readable(c, newer, limit))
            && (Readable(c, layout, limit) ==> Last(History(Flatten(layout)), limit) == Last(recent, limit))
  {
    hide History, Flatten, LinesOf, Last, Readable;
    var layout, n := older + [batches] + newer, |older|;
    assert layout[n + 1..] == newer && layout[n] == batches;
    LineAt(c, batches, k);
    if limit > 0 && |History(Flatten(newer))| >= limit {
      EnoughNewer(layout, n + 1, limit);
      NewerOnly(c, layout, newer, n + 1, limit);
      FlattenSplit(layout, n + 1);
      HistoryFlatten(Flatten(layout[..n + 1]), Flatten(newer));
      LastOfSuffix(History(Flatten(layout[..n + 1])), History(Flatten(newer)), limit);
    } else {
      VisitedShort(c, layout, n, limit);
    }
  }

  lemma EnoughNewer(layout: Layout, n: nat, limit: int)
    requires n <= |layout| && limit > 0 && |History(Flatten(layout[n..]))| >= limit
    ensures forall s :: 0 <= s < n ==> !Visited(layout, s, limit)
    ensures forall s :: 0 <= s < |layout[n..]| ==> (Visited(layout, n + s, limit) <==> Visited(layout[n..], s, limit))
  {
    hide History, Flatten;
    forall s | 0 <= s < n
      ensures !Visited(layout, s, limit)
    {
      SuffixGrows(layout, s + 1, n);
    }
    forall s | 0 <= s < |layout[n..]|
      ensures Visited(layout, n + s, limit) <==> Visited(layout[n..], s, limit)
    {
      assert layout[n + s + 1..] == layout[n..][s + 1..];
    }
  }

  lemma VisitedShort(c: Codec, layout: Layout, n: nat, limit: int)
    requires n < |layout| && !ShortLines(LinesOf(c, layout[n]))
    requires limit <= 0 || |History(Flatten(layout[n + 1..]))| < limit
    ensures !Readable(c, layout, limit)
  {
    hide History, Flatten, LinesOf, ShortLines;
    assert Visited(layout, n, limit);
  }

  lemma LineAt(c: Codec, batches: seq<seq<Record>>, k: nat)
    requires k < |batches| && |LineOf(c, batches[k])| > MAX_LINE_READ
    ensures !ShortLines(LinesOf(c, batches))
  {
    assert |LinesOf(c, batches)[k]| > MAX_LINE_READ;
  }

  lemma NewerOnly(c: Codec, layout: Layout, newer: Layout, n: nat, limit: int)
    requires n <= |layout| && newer == layout[n..]
    requires forall s :: 0 <= s < n ==> !Visited(layout, s, limit)
    requires forall s :: 0 <= s < |newer| ==> (Visited(layout, n + s, limit) <==> Visited(newer, s, limit))
    ensures Readable(c, layout, limit) <==> Readable(c, newer, limit)
  {
    hide Visited, LinesOf;
    assert forall s :: 0 <= s < |newer| ==> newer[s] == layout[n + s];
    if Readable(c, newer, limit) {
      forall s | 0 <= s < |layout| && Visited(layout, s, limit)
        ensures ShortLines(LinesOf(c, layout[s]))
      {
        assert newer[s - n] == layout[s] && Visited(layout, n + (s - n), limit);
      }
    }
  }

  lemma DoubleReverse(ms: seq<Message>)
    ensures Reverse(Reverse(ms)) == ms
  {
  }

  lemma LastShort(ms: seq<Message>, limit: int)
    requires limit <= 0 || |Last(ms, limit)| < limit
    ensures Last(ms, limit) == ms
  {
  }

  lemma NoLines(batches: seq<seq<Record>>, ms: seq<Message>, limit: int)
    requires limit <= 0 || |ms| < limit
    ensures Last(History(batches[|batches|..]) + ms, limit) == ms && |Reverse(ms)| == |ms|
  {
    assert batches[|batches|..] == [] && [] + ms == ms;
  }

  lemma LineRead(batches: seq<seq<Record>>, idx: nat, ms: seq<Message>, limit: int)
    requires idx < |batches|
    ensures MessagesOf(batches[idx]) + (History(batches[idx + 1..]) + ms) == History(batches[idx..]) + ms
    ensures |Reverse(Last(History(batches[idx..]) + ms, limit))| == |Last(History(batches[idx..]) + ms, limit)|
  {
    var one := [batches[idx]];
    assert batches[idx..] == one + batches[idx + 1..];
    HistoryFlatten(one, batches[idx + 1..]);
    assert one[..0] == [];
    assert History(one) == MessagesOf(batches[idx]);
  }

  lemma EnoughLines(batches: seq<seq<Record>>, idx: nat, ms: seq<Message>, limit: int)
    requires idx <= |batches|
    requires idx == 0 || (limit > 0 && |Last(History(batches[idx..]) + ms, limit)| >= limit)
    ensures Last(History(batches[idx..]) + ms, limit) == Last(History(batches) + ms, limit)
  {
    hide History;
    assert batches == batches[..idx] + batches[idx..];
    HistoryFlatten(batches[..idx], batches[idx..]);
    var a, b := History(batches[..idx]), History(batches[idx..]) + ms;
    assert History(batches) + ms == a + b;
    if idx == 0 { assert batches[0..] == batches; } else { LastOfSuffix(a, b, limit); }
  }
}
