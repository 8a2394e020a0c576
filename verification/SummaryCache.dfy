/**
 The summary cache of the context builder: four slots with logical timestamps, proved to be the list of the
 four most recently used keys with the values last stored for them.
 */
module SummaryCache {
  import opened Common

  const SLOTS: nat := 4

  /** A summary belongs to a session, the fingerprint of its history, and the number of messages it covers. */
  datatype Key = Key(session: string, fingerprint: nat, count: nat)
  datatype Entry = Entry(key: Key, summary: string, lastUsed: nat)
  datatype Pair = Pair(key: Key, summary: string)

  // ---- the list that the slots represent: most recently used first -----------------------------

  /** The position of a key, or the length of the list. */
  function Find(list: seq<Pair>, key: Key): (i: nat)
    ensures i <= |list|
    ensures i < |list| ==> list[i].key == key
    ensures forall k :: 0 <= k < i ==> list[k].key != key
  {
    if list == [] || list[0].key == key then 0 else 1 + Find(list[1..], key)
  }

  function Drop(list: seq<Pair>, i: nat): seq<Pair>
    requires i < |list|
  {
    list[..i] + list[i + 1..]
  }

  /** A hit moves the key to the front. */
  function Touch(list: seq<Pair>, key: Key): seq<Pair> {
    var i := Find(list, key);
    if i == |list| then list else [list[i]] + Drop(list, i)
  }

  /** A new value goes to the front; the least recently used key gives way if the cache is full. */
  function Put(list: seq<Pair>, key: Key, summary: string): seq<Pair> {
    var i := Find(list, key);
    if i < |list| then [Pair(key, summary)] + Drop(list, i)
    else [Pair(key, summary)] + if |list| >= SLOTS then list[..SLOTS - 1] else list
  }

  // ---- the slots -------------------------------------------------------------------------------

  /** Slots fill up from the front; `order` lists the used ones, most recently used first. */
  ghost predicate Ordered(slots: seq<Option<Entry>>, order: seq<nat>, clock: nat) {
    && |slots| == SLOTS && |order| <= SLOTS
    && (forall s: nat :: s < |slots| ==> (slots[s].Some? <==> s < |order|))
    && (forall i :: 0 <= i < |order| ==> order[i] < |order|)
    && Distinct(order)
    && (forall i :: 0 <= i < |order| ==> slots[order[i]].Some? && slots[order[i]].value.lastUsed <= clock)
    && (forall i, j :: 0 <= i < j < |order| ==>
          slots[order[i]].value.lastUsed > slots[order[j]].value.lastUsed)
    && (forall i, j :: 0 <= i < j < |order| ==> slots[order[i]].value.key != slots[order[j]].value.key)
  }

  ghost function Listed(slots: seq<Option<Entry>>, order: seq<nat>): (r: seq<Pair>)
    requires forall i :: 0 <= i < |order| ==> order[i] < |slots| && slots[order[i]].Some?
    ensures |r| == |order|
  {
    seq(|order|, i requires 0 <= i < |order| => Pair(slots[order[i]].value.key, slots[order[i]].value.summary))
  }

  class SummaryCache {
    const slots: array<Option<Entry>>
    var clock: nat
    ghost var order: seq<nat>

    ghost predicate Valid()
      reads this, slots
    {
      slots.Length == SLOTS && Ordered(slots[..], order, clock)
    }

    ghost function List(): seq<Pair>
      requires Valid()
      reads this, slots
    {
      Listed(slots[..], order)
    }

    constructor ()
      ensures Valid() && List() == [] && fresh(slots)
    {
      slots := new Option<Entry>[SLOTS](i => None);
      clock, order := 0, [];
    }

    /** The summary stored for a key; a hit makes it the most recently used one. */
    method Lookup(key: Key) returns (r: Option<string>)
      requires Valid()
      modifies this, slots
      ensures Valid() && List() == Touch(old(List()), key)
      ensures var i := Find(old(List()), key);
              r == if i < |old(List())| then Some(old(List())[i].summary) else None
    {
      hide Ordered, Listed, Find, Touch, Front;
      var s := 0;
      while s < SLOTS
        invariant s <= SLOTS && forall k :: 0 <= k < s ==> slots[k].Some? ==> slots[k].value.key != key
      {
        if slots[s].Some? && slots[s].value.key == key {
          r := Some(slots[s].value.summary);
          clock := clock + 1;
          ghost var before := slots[..];
          ghost var i := PositionOf(before, order, clock - 1, s);
          Refreshed(before, order, clock - 1, i, slots[s].value.(lastUsed := clock));
          slots[s] := Some(slots[s].value.(lastUsed := clock));
          assert slots[..] == before[s := slots[s]];
          order := Front(order, i);
          return;
        }
        s := s + 1;
      }
      Absent(slots[..], order, clock, key);
      r := None;
    }

    /** Store a summary: over the old one of its key, in an unused slot, or over the least recently used one. */
    method Store(key: Key, summary: string)
      requires Valid()
      modifies this, slots
      ensures Valid() && List() == Put(old(List()), key, summary)
    {
      hide Ordered, Listed, Find, Put, Front;
      OrderedLength(slots[..], order, clock);
      var victim := PickVictim(key);
      clock := clock + 1;
      ghost var before := slots[..];
      var entry := Entry(key, summary, clock);
      if slots[victim] == None {
        Inserted(before, order, clock - 1, entry);
        order := [victim] + order;
      } else {
        ghost var i := PositionOf(before, order, clock - 1, victim);
        if slots[victim].value.key == key {
          Refreshed(before, order, clock - 1, i, entry);
        } else {
          Replaced(before, order, clock - 1, i, entry);
        }
        order := Front(order, i);
      }
      slots[victim] := Some(entry);
      assert slots[..] == before[victim := Some(entry)];
    }

    /** The slot of the key, else the first unused slot, else the slot with the oldest timestamp. */
    method PickVictim(key: Key) returns (victim: nat)
      requires Valid()
      ensures victim < SLOTS
      ensures slots[victim] == None ==>
                victim == |order| && forall k :: 0 <= k < |order| ==> slots[order[k]].value.key != key
      ensures slots[victim].Some? && slots[victim].value.key != key ==>
                |order| == SLOTS && victim == order[SLOTS - 1]
                && forall k :: 0 <= k < |order| ==> slots[order[k]].value.key != key
    {
      victim := 0;
      var oldest: Option<nat> := None;
      var s := 0;
      while s < SLOTS
        invariant s <= SLOTS && victim < SLOTS
        invariant forall k :: 0 <= k < s ==> slots[k].Some? && slots[k].value.key != key
        invariant s == 0 ==> oldest == None
        invariant s > 0 ==> oldest.Some? && victim < s && slots[victim].value.lastUsed == oldest.value
        invariant forall k :: 0 <= k < s ==> oldest.Some? && slots[k].value.lastUsed >= oldest.value
      {
        if slots[s] == None {
          FirstUnused(slots[..], order, clock, s);
          return s;
        }
        if slots[s].value.key == key { return s; }
        if oldest == None || slots[s].value.lastUsed < oldest.value {
          oldest, victim := Some(slots[s].value.lastUsed), s;
        }
        s := s + 1;
      }
      OldestIsLast(slots[..], order, clock, victim);
    }
  }

  /** The i-th element comes first. */
  function Front(order: seq<nat>, i: nat): seq<nat>
    requires i < |order|
  {
    [order[i]] + order[..i] + order[i + 1..]
  }

  lemma OrderedLength(slots: seq<Option<Entry>>, order: seq<nat>, clock: nat)
    requires Ordered(slots, order, clock)
    ensures |order| <= SLOTS == |slots| && forall k :: 0 <= k < |order| ==> order[k] < SLOTS && slots[order[k]].Some?
  {
  }

  lemma PositionOf(slots: seq<Option<Entry>>, order: seq<nat>, clock: nat, s: nat) returns (i: nat)
    requires Ordered(slots, order, clock) && s < SLOTS && slots[s].Some?
    ensures i < |order| && order[i] == s && forall k :: 0 <= k < |order| ==> order[k] < |slots| && slots[order[k]].Some?
  {
    if s !in order {
      var more := order + [s];
      DistinctBounded(more, |order|);
    }
    i :| 0 <= i < |order| && order[i] == s;
  }

  lemma FirstUnused(slots: seq<Option<Entry>>, order: seq<nat>, clock: nat, s: nat)
    requires Ordered(slots, order, clock) && s < SLOTS && slots[s] == None
    requires forall k: nat :: k < s ==> slots[k].Some?
    ensures s == |order|
  {
    if |order| < SLOTS { assert slots[|order|] == None; }
  }

  lemma OldestIsLast(slots: seq<Option<Entry>>, order: seq<nat>, clock: nat, victim: nat)
    requires Ordered(slots, order, clock) && victim < SLOTS && forall k: nat :: k < SLOTS ==> slots[k].Some?
    requires forall k: nat :: k < SLOTS ==> slots[k].value.lastUsed >= slots[victim].value.lastUsed
    ensures |order| == SLOTS && victim == order[SLOTS - 1]
  {
    assert slots[SLOTS - 1].Some?;
    var i := PositionOf(slots, order, clock, victim);
    assert slots[order[SLOTS - 1]].Some?;
  }

  lemma Absent(slots: seq<Option<Entry>>, order: seq<nat>, clock: nat, key: Key)
    requires Ordered(slots, order, clock)
    requires forall k :: 0 <= k < |slots| ==> slots[k].Some? ==> slots[k].value.key != key
    ensures Find(Listed(slots, order), key) == |order|
    ensures Touch(Listed(slots, order), key) == Listed(slots, order)
  {
  }

  lemma FindIs(list: seq<Pair>, i: nat)
    requires i < |list| && forall k :: 0 <= k < i ==> list[k].key != list[i].key
    ensures Find(list, list[i].key) == i
  {
  }

  /** The entry at position i is used again. */
  lemma Refreshed(slots: seq<Option<Entry>>, order: seq<nat>, clock: nat, i: nat, e: Entry)
    requires Ordered(slots, order, clock) && i < |order| && e.lastUsed == clock + 1
    requires e.key == slots[order[i]].value.key
    ensures var slots', order' := slots[order[i] := Some(e)], Front(order, i);
            && Ordered(slots', order', clock + 1)
            && Listed(slots', order') == Put(Listed(slots, order), e.key, e.summary)
            && (e.summary == slots[order[i]].value.summary ==>
                  Listed(slots', order') == Touch(Listed(slots, order), e.key))
    ensures Find(Listed(slots, order), e.key) == i
    ensures Listed(slots, order)[i] == Pair(slots[order[i]].value.key, slots[order[i]].value.summary)
  {
    hide Front, Drop;
    MovedFront(slots, order, clock, i, e);
    FindIs(Listed(slots, order), i);
  }

  /** The entry at position i is overwritten by one that was not listed, or by a newer one of its key. */
  lemma MovedFront(slots: seq<Option<Entry>>, order: seq<nat>, clock: nat, i: nat, e: Entry)
    requires Ordered(slots, order, clock) && i < |order| && e.lastUsed == clock + 1
    requires forall k :: 0 <= k < |order| && k != i ==> slots[order[k]].value.key != e.key
    ensures var slots', order' := slots[order[i] := Some(e)], Front(order, i);
            && Ordered(slots', order', clock + 1)
            && Listed(slots', order') == [Pair(e.key, e.summary)] + Drop(Listed(slots, order), i)
  {
    var slots', order' := slots[order[i] := Some(e)], Front(order, i);
    hide Distinct, Front;
    FrontDistinct(order, i);
    FrontFirst(order, i);
    forall k | 0 < k < |order'|
      ensures order'[k] != order[i] && slots'[order'[k]] == slots[order'[k]]
    {
    }
    assert Ordered(slots', order', clock + 1);
    ListedMoved(slots, order, i, e, slots', order');
  }

  lemma FrontDistinct(order: seq<nat>, i: nat)
    requires Distinct(order) && i < |order|
    ensures Distinct(Front(order, i))
    ensures forall k :: 0 < k < |order| ==> Front(order, i)[k] == order[if k <= i then k - 1 else k]
    ensures forall k :: 0 <= k < |order| && k != i ==> order[k] != order[i]
  {
    DistinctDelete(order, i);
    var rest := order[..i] + order[i + 1..];
    assert Front(order, i) == [order[i]] + rest;
    assert order[i] !in rest;
  }

  lemma FrontFirst(order: seq<nat>, i: nat)
    requires i < |order|
    ensures |Front(order, i)| == |order| && Front(order, i)[0] == order[i]
  {
  }

  lemma ListedMoved(slots: seq<Option<Entry>>, order: seq<nat>, i: nat, e: Entry,
                    slots': seq<Option<Entry>>, order': seq<nat>)
    requires i < |order| == |order'| && order'[0] == order[i]
    requires forall k :: 0 <= k < |order| ==> order[k] < |slots| && slots[order[k]].Some?
    requires forall k :: 0 <= k < |order'| ==> order'[k] < |slots'| && slots'[order'[k]].Some?
    requires slots'[order'[0]] == Some(e)
    requires forall k :: 0 < k < |order'| ==>
               order'[k] == order[if k <= i then k - 1 else k] && slots'[order'[k]] == slots[order'[k]]
    ensures Listed(slots', order') == [Pair(e.key, e.summary)] + Drop(Listed(slots, order), i)
  {
  }

  lemma Inserted(slots: seq<Option<Entry>>, order: seq<nat>, clock: nat, e: Entry)
    requires Ordered(slots, order, clock) && |order| < SLOTS && e.lastUsed == clock + 1
    requires forall k :: 0 <= k < |order| ==> slots[order[k]].value.key != e.key
    ensures var slots', order' := slots[|order| := Some(e)], [|order|] + order;
            && Ordered(slots', order', clock + 1)
            && Listed(slots', order') == Put(Listed(slots, order), e.key, e.summary)
  {
    var slots', order' := slots[|order| := Some(e)], [|order|] + order;
    forall k | 0 < k < |order'|
      ensures order'[k] == order[k - 1] && slots'[order'[k]] == slots[order[k - 1]]
    {
    }
    hide Distinct;
    assert Distinct(order') by { InsertDistinct(order); }
    assert Ordered(slots', order', clock + 1);
    assert Find(Listed(slots, order), e.key) == |order|;
    assert Listed(slots', order') == [Pair(e.key, e.summary)] + Listed(slots, order);
  }

  lemma InsertDistinct(order: seq<nat>)
    requires Distinct(order) && forall k :: 0 <= k < |order| ==> order[k] < |order|
    ensures Distinct([|order|] + order)
  {
  }

  lemma Replaced(slots: seq<Option<Entry>>, order: seq<nat>, clock: nat, i: nat, e: Entry)
    requires Ordered(slots, order, clock) && |order| == SLOTS && i < |order| && order[i] == order[SLOTS - 1]
    requires e.lastUsed == clock + 1 && forall k :: 0 <= k < |order| ==> slots[order[k]].value.key != e.key
    ensures var slots', order' := slots[order[i] := Some(e)], Front(order, i);
            && Ordered(slots', order', clock + 1)
            && Listed(slots', order') == Put(Listed(slots, order), e.key, e.summary)
  {
    hide Front;
    assert i == SLOTS - 1;
    MovedFront(slots, order, clock, i, e);
    assert Find(Listed(slots, order), e.key) == |order|;
  }
}
