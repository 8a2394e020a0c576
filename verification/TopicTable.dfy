/**
 The topic directory of the event bus: an open-addressing hash table with tombstones that represents a
 finite map from topics to sets of subscriber slots. It is correct for every hash function.
 */
module TopicTable {
  import opened Common
  import opened EventBusCore

  datatype Entry = Unused | Occupied(hash: nat, topic: Topic, subs: set<nat>) | Tombstone

  /** Position of the d-th probe of a chain that starts at s. */
  function Probe(s: nat, d: nat): (i: nat)
    ensures i < TOPIC_CAPACITY
  {
    (s + d) % TOPIC_CAPACITY
  }

  /** The inverse of Probe for a fixed start. */
  function Distance(s: nat, i: nat): (d: nat)
    requires i < TOPIC_CAPACITY
    ensures d < TOPIC_CAPACITY && Probe(s, d) == i
  {
    (i + TOPIC_CAPACITY - s % TOPIC_CAPACITY) % TOPIC_CAPACITY
  }

  lemma DistanceUnique(s: nat, d: nat)
    requires d < TOPIC_CAPACITY
    ensures Distance(s, Probe(s, d)) == d
  {
  }

  predicate HasTopic(e: Entry, t: Topic) {
    e.Occupied? && e.topic == t
  }

  /** No topic is stored twice. */
  predicate Unique(es: seq<Entry>) {
    forall i, j :: 0 <= i < j < |es| && es[i].Occupied? && es[j].Occupied? ==> es[i].topic != es[j].topic
  }

  /** The probe chain of every stored topic reaches it without meeting a never-used entry. */
  predicate Chained(es: seq<Entry>, hash: Topic -> nat)
    requires |es| == TOPIC_CAPACITY
  {
    && (forall i :: 0 <= i < |es| && es[i].Occupied? ==> es[i].hash == hash(es[i].topic))
    && (forall i, d: nat :: 0 <= i < |es| && es[i].Occupied? && d < Distance(hash(es[i].topic), i) ==>
          es[Probe(hash(es[i].topic), d)] != Unused)
  }

  /** The map that the entries represent. */
  function Contents(es: seq<Entry>): map<Topic, set<nat>> {
    if es == [] then map[]
    else
      var last := es[|es| - 1];
      var rest := Contents(es[..|es| - 1]);
      if last.Occupied? then rest[last.topic := last.subs] else rest
  }

  lemma {:induction false} ContentsKeys(es: seq<Entry>)
    ensures forall t :: t in Contents(es) <==> exists i :: 0 <= i < |es| && HasTopic(es[i], t)
  {
    if es != [] {
      var init := es[..|es| - 1];
      ContentsKeys(init);
      forall t
        ensures t in Contents(es) <==> exists i :: 0 <= i < |es| && HasTopic(es[i], t)
      {
        if t in Contents(es) {
          if t in Contents(init) {
            var i :| 0 <= i < |init| && HasTopic(init[i], t);
            assert HasTopic(es[i], t);
          } else {
            assert HasTopic(es[|es| - 1], t);
          }
        }
        if i :| 0 <= i < |es| && HasTopic(es[i], t) {
          if i < |init| { assert HasTopic(init[i], t); }
        }
      }
    }
  }

  lemma {:induction false} ContentsValue(es: seq<Entry>, i: nat)
    requires Unique(es) && i < |es| && es[i].Occupied?
    ensures es[i].topic in Contents(es) && Contents(es)[es[i].topic] == es[i].subs
  {
    var init := es[..|es| - 1];
    if i < |init| { ContentsValue(init, i); }
  }

  /** Storing a set in the entry of its topic, or in a free one, updates the map at that topic. */
  lemma ContentsUpdate(es: seq<Entry>, i: nat, hash: nat, t: Topic, subs: set<nat>)
    requires Unique(es) && i < |es| && (es[i].Occupied? ==> es[i].topic == t)
    requires forall j :: 0 <= j < |es| && j != i ==> !HasTopic(es[j], t)
    ensures Unique(es[i := Occupied(hash, t, subs)])
    ensures Contents(es[i := Occupied(hash, t, subs)]) == Contents(es)[t := subs]
  {
    var upd := es[i := Occupied(hash, t, subs)];
    ContentsKeys(es);
    ContentsKeys(upd);
    forall u
      ensures u in Contents(upd) <==> u in Contents(es)[t := subs]
      ensures u in Contents(upd) ==> Contents(upd)[u] == Contents(es)[t := subs][u]
    {
      if u in Contents(upd) {
        var j :| 0 <= j < |upd| && HasTopic(upd[j], u);
        ContentsValue(upd, j);
        if j != i {
          assert HasTopic(es[j], u);
          ContentsValue(es, j);
        }
      }
      if u in Contents(es)[t := subs] {
        if u == t {
          assert HasTopic(upd[i], t);
        } else {
          var j :| 0 <= j < |es| && HasTopic(es[j], u);
          assert HasTopic(upd[j], u);
        }
      }
    }
  }

  /** If no topic is found along its whole chain up to a never-used entry, it is not in the table. */
  lemma AbsentAfter(es: seq<Entry>, hash: Topic -> nat, t: Topic, p: nat)
    requires |es| == TOPIC_CAPACITY && Chained(es, hash) && p <= TOPIC_CAPACITY
    requires forall d :: 0 <= d < p ==> !HasTopic(es[Probe(hash(t), d)], t)
    requires p < TOPIC_CAPACITY ==> es[Probe(hash(t), p)] == Unused
    ensures t !in Contents(es) && forall i :: 0 <= i < |es| ==> !HasTopic(es[i], t)
  {
    forall i | 0 <= i < |es|
      ensures !HasTopic(es[i], t)
    {
      var d := Distance(hash(t), i);
      assert Probe(hash(t), d) == i;
    }
    ContentsKeys(es);
  }

  /** A table without free entries represents a map of full size. */
  lemma {:induction false} FullSize(es: seq<Entry>)
    requires Unique(es) && forall i :: 0 <= i < |es| ==> es[i].Occupied?
    ensures |Contents(es)| == |es|
  {
    if es != [] {
      var init := es[..|es| - 1];
      var t := es[|es| - 1].topic;
      FullSize(init);
      ContentsKeys(init);
      assert t !in Contents(init);
      assert Contents(es).Keys == Contents(init).Keys + {t};
    }
  }

  class TopicTable {
    const entries: array<Entry>
    const hash: Topic -> nat

    ghost predicate Valid()
      reads this, entries
    {
      entries.Length == TOPIC_CAPACITY && Unique(entries[..]) && Chained(entries[..], hash)
    }

    ghost function Map(): map<Topic, set<nat>>
      reads this, entries
    {
      Contents(entries[..])
    }

    constructor (hash: Topic -> nat)
      ensures Valid() && Map() == map[] && fresh(entries) && this.hash == hash
    {
      this.hash := hash;
      this.entries := new Entry[TOPIC_CAPACITY](i => Unused);
      new;
      ContentsKeys(entries[..]);
      assert Map() == map[];
    }

    /**
     Find the entry of a topic. If it is missing and `create` is set, it is stored, with no subscribers, in
     the first tombstone of its probe chain or else in the never-used entry that ends the chain; this fails
     only when every entry is occupied.
     */
    method Lookup(topic: Topic, create: bool) returns (at: Option<nat>)
      requires Valid()
      modifies entries
      ensures Valid()
      ensures at.Some? ==> at.value < entries.Length && HasTopic(entries[at.value], topic)
      ensures at.Some? ==> topic in Map() && entries[at.value].subs == Map()[topic]
      ensures topic in old(Map()) ==> at.Some? && entries[..] == old(entries[..])
      ensures topic !in old(Map()) && !create ==> at.None? && entries[..] == old(entries[..])
      ensures topic !in old(Map()) && create ==>
                (at.None? <==> |old(Map())| >= TOPIC_CAPACITY)
                && Map() == if at.Some? then old(Map())[topic := {}] else old(Map())
    {
      ghost var es := entries[..];
      var h := hash(topic);
      var tombstone: Option<nat> := None;
      ghost var tombstoneAt := 0;
      var probe := 0;
      while probe < TOPIC_CAPACITY
        invariant probe <= TOPIC_CAPACITY && entries[..] == es
        invariant forall d :: 0 <= d < probe ==> es[Probe(h, d)] != Unused && !HasTopic(es[Probe(h, d)], topic)
        invariant tombstone.None? ==> forall d :: 0 <= d < probe ==> es[Probe(h, d)].Occupied?
        invariant tombstone.Some? ==> tombstoneAt < probe && tombstone.value == Probe(h, tombstoneAt)
                                      && es[tombstone.value] == Tombstone
      {
        var i := (h % TOPIC_CAPACITY + probe) % TOPIC_CAPACITY;
        assert i == Probe(h, probe);
        var entry := entries[i];
        assert entry == es[i];
        match entry {
          case Unused =>
            AbsentAfter(es, hash, topic, probe);
            if !create { return None; }
            var destination := if tombstone.Some? then tombstone.value else i;
            Store(destination, topic, if tombstone.Some? then tombstoneAt else probe);
            SomeFree(es, i);
            return Some(destination);
          case Tombstone =>
            if tombstone.None? { tombstone, tombstoneAt := Some(i), probe; }
          case Occupied(eh, et, _) =>
            if eh == h && et == topic {
              ContentsValue(es, i);
              return Some(i);
            }
        }
        probe := probe + 1;
      }
      AbsentAfter(es, hash, topic, probe);
      if create && tombstone.Some? {
        Store(tombstone.value, topic, tombstoneAt);
        SomeFree(es, tombstone.value);
        return Some(tombstone.value);
      }
      if tombstone.None? {
        forall i | 0 <= i < |es| ensures es[i].Occupied? { assert Probe(h, Distance(h, i)) == i; }
        FullSize(es);
      } else {
        SomeFree(es, tombstone.value);
      }
      at := None;
    }

    /** Overwrite a free entry of the topic's probe chain. */
    method Store(i: nat, topic: Topic, ghost d: nat)
      requires Valid() && i < entries.Length && !entries[i].Occupied?
      requires d < TOPIC_CAPACITY && i == Probe(hash(topic), d)
      requires forall k :: 0 <= k < d ==> entries[Probe(hash(topic), k)] != Unused
      requires forall j :: 0 <= j < entries.Length ==> !HasTopic(entries[j], topic)
      modifies entries
      ensures Valid() && entries[i] == Occupied(hash(topic), topic, {})
      ensures Map() == old(Map())[topic := {}]
    {
      ghost var es := entries[..];
      ContentsUpdate(es, i, hash(topic), topic, {});
      entries[i] := Occupied(hash(topic), topic, {});
      assert entries[..] == es[i := Occupied(hash(topic), topic, {})];
      DistanceUnique(hash(topic), d);
    }

    /** Set the bit of a slot in an occupied entry. */
    method AddBit(i: nat, slot: nat)
      requires Valid() && i < entries.Length && entries[i].Occupied?
      modifies entries
      ensures Valid()
      ensures Map() == old(Map())[old(entries[i]).topic := old(entries[i]).subs + {slot}]
    {
      ghost var es := entries[..];
      var entry := entries[i];
      ContentsUpdate(es, i, entry.hash, entry.topic, entry.subs + {slot});
      entries[i] := Occupied(entry.hash, entry.topic, entry.subs + {slot});
      assert entries[..] == es[i := Occupied(entry.hash, entry.topic, entry.subs + {slot})];
    }

    /** Clear the bit of a slot everywhere; topics left without subscribers become tombstones. */
    method RemoveSlot(slot: nat)
      requires Valid()
      modifies entries
      ensures Valid()
      ensures Map() == DirRemove(old(Map()), slot)
    {
      ghost var es := entries[..];
      var i := 0;
      while i < entries.Length
        invariant i <= entries.Length
        invariant forall k :: i <= k < entries.Length ==> entries[k] == es[k]
        invariant forall k :: 0 <= k < i ==> entries[k] == Cleared(es[k], slot)
      {
        if entries[i].Occupied? {
          var entry := entries[i];
          var subs := entry.subs - {slot};
          entries[i] := if subs == {} then Tombstone else Occupied(entry.hash, entry.topic, subs);
        }
        i := i + 1;
      }
      ClearedContents(es, entries[..], slot);
      ClearedChained(es, entries[..], hash, slot);
    }
  }

  function Cleared(e: Entry, slot: nat): Entry {
    if !e.Occupied? then e
    else if e.subs - {slot} == {} then Tombstone
    else Occupied(e.hash, e.topic, e.subs - {slot})
  }

  lemma ClearedContents(es: seq<Entry>, upd: seq<Entry>, slot: nat)
    requires Unique(es) && |upd| == |es| && forall k :: 0 <= k < |es| ==> upd[k] == Cleared(es[k], slot)
    ensures Unique(upd) && Contents(upd) == DirRemove(Contents(es), slot)
  {
    ContentsKeys(es);
    ContentsKeys(upd);
    var want := DirRemove(Contents(es), slot);
    forall t
      ensures t in Contents(upd) <==> t in want
      ensures t in Contents(upd) ==> Contents(upd)[t] == want[t]
    {
      if t in Contents(upd) {
        var i :| 0 <= i < |upd| && HasTopic(upd[i], t);
        assert HasTopic(es[i], t);
        ContentsValue(upd, i);
        ContentsValue(es, i);
      }
      if t in want {
        var i :| 0 <= i < |es| && HasTopic(es[i], t);
        ContentsValue(es, i);
        assert HasTopic(upd[i], t);
      }
    }
  }

  lemma ClearedChained(es: seq<Entry>, upd: seq<Entry>, hash: Topic -> nat, slot: nat)
    requires |es| == |upd| == TOPIC_CAPACITY && Chained(es, hash)
    requires forall k :: 0 <= k < |es| ==> upd[k] == Cleared(es[k], slot)
    ensures Chained(upd, hash)
  {
  }

  /** A table with a free entry represents a map of less than full size. */
  lemma SomeFree(es: seq<Entry>, i: nat)
    requires i < |es| && !es[i].Occupied?
    ensures |Contents(es)| < |es|
  {
    ContentsSize(es[..i]);
    ContentsTail(es, i);
  }

  lemma {:induction false} ContentsSize(es: seq<Entry>)
    ensures |Contents(es)| <= |es|
  {
    if es != [] {
      ContentsSize(es[..|es| - 1]);
      if es[|es| - 1].Occupied? { InsertSize(Contents(es[..|es| - 1]), es[|es| - 1]); }
    }
  }

  lemma InsertSize(m: map<Topic, set<nat>>, e: Entry)
    requires e.Occupied?
    ensures |m[e.topic := e.subs]| <= |m| + 1
  {
    assert m[e.topic := e.subs].Keys == m.Keys + {e.topic};
  }

  lemma {:induction false} ContentsTail(es: seq<Entry>, i: nat)
    requires i < |es| && !es[i].Occupied? && |Contents(es[..i])| <= i
    ensures |Contents(es)| < |es|
    decreases |es|
  {
    var init := es[..|es| - 1];
    if i < |init| {
      assert init[..i] == es[..i];
      ContentsTail(init, i);
      if es[|es| - 1].Occupied? { InsertSize(Contents(init), es[|es| - 1]); }
    } else {
      assert init == es[..i];
    }
  }
}
