/** Which keys the summary cache holds, in which order, and with which values, after any operations. */
module SummaryCacheTheorems {
  import opened Common
  import opened SummaryCache

  datatype Op = Lookup(key: Key) | Store(key: Key, summary: string)

  function Run(ops: seq<Op>): seq<Pair> {
    if ops == [] then []
    else
      var before := Run(ops[..|ops| - 1]);
      match ops[|ops| - 1]
      case Lookup(key) => Touch(before, key)
      case Store(key, summary) => Put(before, key, summary)
  }

  function Keys(list: seq<Pair>): (r: seq<Key>)
    ensures |r| == |list|
    ensures forall k :: 0 <= k < |list| ==> r[k] == list[k].key
  {
    seq(|list|, k requires 0 <= k < |list| => list[k].key)
  }

  /** The keys that were used: stored, or looked up with a hit. */
  function Uses(ops: seq<Op>): seq<Key> {
    if ops == [] then []
    else
      var init, op := ops[..|ops| - 1], ops[|ops| - 1];
      Uses(init) + if op.Store? || op.key in Keys(Run(init)) then [op.key] else []
  }

  function Without(keys: seq<Key>, key: Key): seq<Key> {
    if keys == [] then []
    else if keys[0] == key then Without(keys[1..], key)
    else [keys[0]] + Without(keys[1..], key)
  }

  /** The distinct keys of a history of uses, the most recently used first. */
  function Recent(uses: seq<Key>): seq<Key> {
    if uses == [] then []
    else
      var last := uses[|uses| - 1];
      [last] + Without(Recent(uses[..|uses| - 1]), last)
  }

  function Take(keys: seq<Key>): seq<Key> {
    if |keys| <= SLOTS then keys else keys[..SLOTS]
  }

  function LastStored(ops: seq<Op>, key: Key): Option<string> {
    if ops == [] then None
    else
      var op := ops[|ops| - 1];
      if op.Store? && op.key == key then Some(op.summary) else LastStored(ops[..|ops| - 1], key)
  }

  // ---- proofs ----------------------------------------------------------------------------------

  lemma {:induction false} WithoutNone(keys: seq<Key>, key: Key)
    requires key !in keys
    ensures Without(keys, key) == keys
  {
    if keys != [] {
      assert keys[0] in keys && forall x :: x in keys[1..] ==> x in keys;
      WithoutNone(keys[1..], key);
    }
  }

  lemma {:induction false} WithoutAt(keys: seq<Key>, i: nat)
    requires Distinct(keys) && i < |keys|
    ensures Without(keys, keys[i]) == keys[..i] + keys[i + 1..]
  {
    if i == 0 {
      assert keys[0] !in keys[1..];
      WithoutNone(keys[1..], keys[0]);
    } else {
      WithoutAt(keys[1..], i - 1);
      assert keys[..i] == [keys[0]] + keys[1..][..i - 1];
    }
  }

  lemma {:induction false} WithoutDistinct(keys: seq<Key>, key: Key)
    requires Distinct(keys)
    ensures Distinct([key] + Without(keys, key))
    ensures forall x :: x in Without(keys, key) <==> x in keys && x != key
  {
    if key in keys {
      var i :| 0 <= i < |keys| && keys[i] == key;
      WithoutAt(keys, i);
      DistinctDelete(keys, i);
      assert key !in keys[..i] + keys[i + 1..];
    } else {
      WithoutNone(keys, key);
    }
  }

  lemma {:induction false} RecentDistinct(uses: seq<Key>)
    ensures Distinct(Recent(uses))
  {
    if uses != [] {
      RecentDistinct(uses[..|uses| - 1]);
      WithoutDistinct(Recent(uses[..|uses| - 1]), uses[|uses| - 1]);
    }
  }

  /** Using a key and keeping four commute. */
  lemma TakeUse(keys: seq<Key>, key: Key)
    requires Distinct(keys)
    ensures key in Take(keys) ==> Take([key] + Without(keys, key)) == [key] + Without(Take(keys), key)
    ensures key !in Take(keys) ==>
              Take([key] + Without(keys, key)) == [key] + if |keys| >= SLOTS then keys[..SLOTS - 1] else keys
    ensures Distinct(Take(keys))
  {
    hide Without;
    var t := Take(keys);
    if key in t {
      var i :| 0 <= i < |t| && t[i] == key;
      TakeHit(keys, i);
    } else if key in keys {
      var i :| 0 <= i < |keys| && keys[i] == key;
      NotTaken(keys, i);
      TakeMiss(keys, i);
    } else {
      WithoutNone(keys, key);
    }
  }

  lemma NotTaken(keys: seq<Key>, i: nat)
    requires i < |keys| && keys[i] !in Take(keys)
    ensures i >= SLOTS
  {
    assert forall j :: 0 <= j < |Take(keys)| ==> Take(keys)[j] == keys[j];
  }

  lemma TakeHit(keys: seq<Key>, i: nat)
    requires Distinct(keys) && i < |keys| && i < SLOTS
    ensures Take([keys[i]] + Without(keys, keys[i])) == [keys[i]] + Without(Take(keys), keys[i])
  {
    hide Without, Distinct;
    var t, key := Take(keys), keys[i];
    assert Distinct(t) by { TakeDistinct(keys); }
    WithoutAt(keys, i);
    WithoutAt(t, i);
    var rest := keys[..i] + keys[i + 1..];
    if |keys| > SLOTS { assert ([key] + rest)[..SLOTS] == [key] + (t[..i] + t[i + 1..]); }
  }

  lemma TakeDistinct(keys: seq<Key>)
    requires Distinct(keys)
    ensures Distinct(Take(keys))
  {
  }

  lemma TakeMiss(keys: seq<Key>, i: nat)
    requires Distinct(keys) && SLOTS <= i < |keys|
    ensures Take([keys[i]] + Without(keys, keys[i])) == [keys[i]] + keys[..SLOTS - 1]
  {
    hide Without, Distinct;
    WithoutAt(keys, i);
    var rest := keys[..i] + keys[i + 1..];
    assert |rest| >= SLOTS - 1 && ([keys[i]] + rest)[..SLOTS] == [keys[i]] + rest[..SLOTS - 1];
    assert rest[..SLOTS - 1] == keys[..SLOTS - 1];
  }

  lemma FindKey(list: seq<Pair>, key: Key)
    ensures key in Keys(list) <==> Find(list, key) < |list|
    ensures Find(list, key) < |list| ==> Keys(list)[Find(list, key)] == key
  {
  }

  /** One step on the list of keys. */
  lemma StepKeys(list: seq<Pair>, key: Key, summary: string)
    requires Distinct(Keys(list)) && |list| <= SLOTS
    ensures key in Keys(list) ==> Keys(Put(list, key, summary)) == [key] + Without(Keys(list), key)
    ensures key in Keys(list) ==> Keys(Touch(list, key)) == [key] + Without(Keys(list), key)
    ensures key !in Keys(list) ==> Touch(list, key) == list
    ensures key !in Keys(list) ==>
              Keys(Put(list, key, summary)) == [key] + if |list| >= SLOTS then Keys(list)[..SLOTS - 1] else Keys(list)
  {
    hide Without, Distinct, Find, Keys;
    FindKey(list, key);
    var i := Find(list, key);
    if i < |list| {
      WithoutAt(Keys(list), i);
      KeysOfDrop(list, i, Pair(key, summary));
      KeysOfDrop(list, i, list[i]);
    } else {
      KeysOfFront(list, Pair(key, summary));
    }
  }

  lemma KeysOfDrop(list: seq<Pair>, i: nat, p: Pair)
    requires i < |list|
    ensures Keys([p] + Drop(list, i)) == [p.key] + (Keys(list)[..i] + Keys(list)[i + 1..])
  {
  }

  lemma KeysOfFront(list: seq<Pair>, p: Pair)
    ensures Keys([p] + list) == [p.key] + Keys(list)
    ensures |list| >= SLOTS ==> Keys([p] + list[..SLOTS - 1]) == [p.key] + Keys(list)[..SLOTS - 1]
  {
  }

  /** The cache holds exactly the four most recently used keys (or all, if fewer), in order of their last use. */
  lemma {:induction false} HoldsMostRecent(ops: seq<Op>)
    ensures Keys(Run(ops)) == Take(Recent(Uses(ops)))
    ensures Distinct(Keys(Run(ops))) && |Run(ops)| <= SLOTS
  {
    hide Without, Touch, Put, Take, Keys, Distinct;
    if ops == [] {
      EmptyRun();
    } else {
      var init, op := ops[..|ops| - 1], ops[|ops| - 1];
      HoldsMostRecent(init);
      var keys := Recent(Uses(init));
      RecentDistinct(Uses(init));
      TakeUse(keys, op.key);
      TakeSize(keys);
      var uses := Uses(init) + [op.key];
      assert uses[..|uses| - 1] == Uses(init);
      assert Recent(uses) == [op.key] + Without(keys, op.key);
      StepKeys(Run(init), op.key, if op.Store? then op.summary else "");
      RecentDistinct(uses);
      TakeUse(Recent(uses), op.key);
      TakeSize(Recent(uses));
      if op.Lookup? && op.key !in Keys(Run(init)) { assert Uses(init) + [] == Uses(init); }
      assert |Keys(Run(ops))| == |Run(ops)|;
    }
  }

  lemma EmptyRun()
    ensures Keys(Run([])) == Take(Recent(Uses([]))) && Distinct(Keys(Run([])))
  {
  }

  lemma TakeSize(keys: seq<Key>)
    ensures |Take(keys)| == (if |keys| < SLOTS then |keys| else SLOTS)
    ensures |keys| >= SLOTS ==> Take(keys)[..SLOTS - 1] == keys[..SLOTS - 1]
    ensures |keys| < SLOTS ==> Take(keys) == keys
  {
  }

  /** A listed key has the value last stored for it. */
  lemma {:induction false} HoldsLastStored(ops: seq<Op>, i: nat)
    requires i < |Run(ops)|
    ensures LastStored(ops, Run(ops)[i].key) == Some(Run(ops)[i].summary)
  {
    hide Find, Keys, Touch, Put, Distinct, Run;
    RunNonempty(ops);
    var init, op := ops[..|ops| - 1], ops[|ops| - 1];
    var before, after := Run(init), Run(ops);
    RunStep(ops);
    HoldsMostRecent(init);
    var k := Find(before, op.key);
    var listed := k < |before|;
    if op.Store? && i == 0 {
      PutAt(before, op.key, op.summary, i);
    } else if op.Lookup? && !listed {
      TouchAt(before, op.key, i);
      HoldsLastStored(init, i);
    } else {
      var j := if !listed then i - 1 else if i == 0 then k else if i - 1 < k then i - 1 else i;
      if op.Store? {
        PutAt(before, op.key, op.summary, i);
        DifferentKeys(before, j, op.key);
      } else {
        TouchAt(before, op.key, i);
      }
      HoldsLastStored(init, j);
    }
  }

  lemma RunNonempty(ops: seq<Op>)
    requires |Run(ops)| > 0
    ensures ops != []
  {
  }

  lemma RunStep(ops: seq<Op>)
    requires ops != []
    ensures var before, op := Run(ops[..|ops| - 1]), ops[|ops| - 1];
            Run(ops) == if op.Lookup? then Touch(before, op.key) else Put(before, op.key, op.summary)
  {
    hide Touch, Put;
  }

  /** Where the entries of the new list come from. */
  lemma PutAt(list: seq<Pair>, key: Key, summary: string, i: nat)
    requires i < |Put(list, key, summary)|
    ensures var k := Find(list, key);
            Put(list, key, summary)[i] ==
              if i == 0 then Pair(key, summary)
              else if k == |list| || i - 1 < k then list[i - 1] else list[i]
    ensures i > 0 ==> if Find(list, key) == |list| || i - 1 < Find(list, key) then i - 1 < |list| else i < |list|
  {
    hide Find;
  }

  lemma TouchAt(list: seq<Pair>, key: Key, i: nat)
    requires i < |Touch(list, key)|
    ensures |Touch(list, key)| == |list|
    ensures var k := Find(list, key);
            Touch(list, key)[i] ==
              if k == |list| then list[i] else if i == 0 then list[k] else if i - 1 < k then list[i - 1] else list[i]
  {
    hide Find;
  }

  lemma DifferentKeys(list: seq<Pair>, j: nat, key: Key)
    requires Distinct(Keys(list)) && j < |list| && j != Find(list, key)
    ensures list[j].key != key
  {
    FindKey(list, key);
    assert Keys(list)[j] == list[j].key;
  }
}
