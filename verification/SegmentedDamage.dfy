/** What the checksum of a batch is worth: every change of a single byte of its records is noticed. */
module SegmentedDamage {
  import opened Common
  import opened SegmentedLog

  // ---- one round of the hash is reversible --------------------------------------------------------

  /** The multiplier is odd, so multiplying by it modulo 2^64 can be undone. */
  function Back(hash: bv64): bv64 {
    hash * 14886173955864302971
  }

  lemma Undo(hash: bv64)
    ensures (hash * 1099511628211) * 14886173955864302971 == hash
  {
  }

  lemma UndoTimes(hash: bv64)
    ensures Back(Times(hash)) == hash
  {
    calc {
      Back(Times(hash));
      Back(hash * 1099511628211);
      (hash * 1099511628211) * 14886173955864302971;
      { Undo(hash); }
      hash;
    }
  }

  lemma TimesReversible(g: bv64, h: bv64)
    requires Times(g) == Times(h)
    ensures g == h
  {
    hide Times, Back;
    UndoTimes(g);
    UndoTimes(h);
  }

  lemma MixTwice(hash: bv64, b: byte)
    ensures Mix(Mix(hash, b), b) == hash
  {
  }

  lemma MixedByte(hash: bv64, b: byte)
    ensures (Mix(hash, b) ^ hash) as byte == b
  {
  }

  lemma MixReversible(g: bv64, h: bv64, x: byte, y: byte)
    ensures Mix(g, x) == Mix(g, y) ==> x == y
    ensures Mix(g, x) == Mix(h, x) ==> g == h
  {
    hide Mix;
    MixedByte(g, x);
    MixedByte(g, y);
    MixTwice(g, x);
    MixTwice(h, x);
  }

  // ---- one byte -----------------------------------------------------------------------------------

  predicate DiffersAt(a: Bytes, b: Bytes, k: nat) {
    |a| == |b| && k < |a| && a[k] != b[k] && forall i :: 0 <= i < |a| && i != k ==> a[i] == b[i]
  }

  lemma {:induction false} OneByteShows(a: Bytes, b: Bytes, k: nat)
    requires DiffersAt(a, b, k)
    ensures Fnv1a(a) != Fnv1a(b)
    decreases |a|
  {
    hide Times, Mix;
    var n := |a| - 1;
    var g, h := Fnv1a(a[..n]), Fnv1a(b[..n]);
    assert k == n ==> a[..n] == b[..n];
    if Fnv1a(a) == Fnv1a(b) {
      TimesReversible(Mix(g, a[n]), Mix(h, b[n]));
      MixReversible(g, h, a[n], b[n]);
      if k < n { OneByteShows(a[..n], b[..n], k); }
    }
  }

  /** A batch whose records were changed in one byte, or in their length, is refused. */
  lemma DamageIsNoticed(c: Codec, rs: seq<Record>, line: Bytes, damaged: Bytes, k: nat)
    requires var text := c.encodeRecords(rs);
             && c.decodeLine(line) == Some(Batch(2, |text|, Fnv1a(text), damaged))
             && (|damaged| != |text| || DiffersAt(text, damaged, k))
    ensures RecordsOf(c, line) == Failure(Storage)
  {
    hide Fnv1a;
    var text := c.encodeRecords(rs);
    if |damaged| == |text| { OneByteShows(text, damaged, k); }
  }

  /** What becomes of a line that append has not written: a single record is read, anything else is an error. */
  lemma OtherLines(c: Codec, line: Bytes)
    ensures c.decodeLine(line) == None ==> RecordsOf(c, line) == Failure(Json)
    ensures forall r :: c.decodeLine(line) == Some(Single(r)) ==> RecordsOf(c, line) == Success([r])
    ensures forall schema, length, sum, text :: c.decodeLine(line) == Some(Batch(schema, length, sum, text)) && schema != 2 ==>
              RecordsOf(c, line) == Failure(Storage)
  {
    hide Fnv1a;
  }
}
