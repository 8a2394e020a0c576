/**
 The generation bookkeeping as it is stored: generation objects with reference counts, and a singly linked
 list of the retired ones. Each method is one locked region, proved against GenerationCore.
 */
module RuntimeBuilder {
  import opened Common
  import Core = GenerationCore
  import opened GenerationCore

  class Generation {
    const id: nat
    var refs: nat
    var retired: bool
    var next: Generation?

    constructor (id: nat)
      ensures this.id == id && refs == 0 && !retired && next == null
    {
      this.id, refs, retired, next := id, 0, false, null;
    }
  }

  /** The objects carry the listed values. */
  ghost predicate Represents(all: seq<Generation>, gens: seq<Gen>)
    reads all`refs, all`retired
  {
    && |all| == |gens|
    && (forall i, j :: 0 <= i < j < |all| ==> all[i] != all[j])
    && (forall i :: 0 <= i < |all| ==>
          gens[i].id == all[i].id && gens[i].refs == all[i].refs && gens[i].retired == all[i].retired)
  }

  /** The nodes of a singly linked list are those with the numbers of the chain. */
  ghost predicate Chained(all: seq<Generation>, head: Generation?, chain: seq<nat>)
    reads all`next
  {
    && (forall k :: 0 <= k < |chain| ==> chain[k] < |all|)
    && Distinct(chain)
    && head == (if chain == [] then null else all[chain[0]])
    && (forall k :: 0 <= k < |chain| - 1 ==> all[chain[k]].next == all[chain[k + 1]])
    && (chain != [] ==> all[chain[|chain| - 1]].next == null)
  }

  class RuntimeBuilder {
    var current: Generation?
    var retired: Generation?
    var shuttingDown: bool
    var reloading: bool
    var reclaims: nat
    var reloadGeneration: nat
    ghost var all: seq<Generation>
    ghost var gens: seq<Gen>
    ghost var chain: seq<nat>
    ghost var cur: Option<nat>

    ghost predicate Valid()
      reads this, all
    {
      && Represents(all, gens)
      && Chained(all, retired, chain)
      && (match cur
          case None => current == null
          case Some(c) => c < |all| && current == all[c])
    }

    /** The state of GenerationCore that the fields represent. */
    ghost function Abs(): Builder
      reads this
    {
      Builder(gens, cur, chain, shuttingDown, reloading, reclaims, reloadGeneration)
    }

    constructor ()
      ensures Valid() && Abs() == Init()
    {
      var first := new Generation(INITIAL_ID);
      current, retired, shuttingDown, reloading := first, null, false, false;
      reclaims, reloadGeneration := 0, INITIAL_ID;
      all, gens, chain, cur := [first], [Gen(INITIAL_ID, 0, false)], [], Some(0);
    }

    /** Change the count of the g-th generation. */
    method SetRefs(generation: Generation, ghost g: nat, refs: nat)
      requires Valid() && g < |all| && all[g] == generation
      modifies generation`refs, `gens
      ensures Valid() && Abs() == old(Abs()).(gens := old(gens)[g := old(gens)[g].(refs := refs)])
      ensures |gens| == |old(gens)| == |all| && generation.refs == refs && generation.retired == old(generation.retired)
      ensures generation.retired == gens[g].retired && old(generation.refs) == old(gens)[g].refs
    {
      generation.refs := refs;
      gens := gens[g := gens[g].(refs := refs)];
    }

    method Acquire() returns (generation: Generation?)
      requires Valid()
      modifies `gens, all
      ensures Valid() && Abs() == Core.Acquire(old(Abs())).1
      ensures match Core.Acquire(old(Abs())).0
              case None => generation == null
              case Some(g) => g < |all| && generation == all[g]
    {
      generation := current;
      if shuttingDown || generation == null { return null; }
      SetRefs(generation, cur.value, generation.refs + 1);
    }

    /** Give a lease back; the caller destroys the generation if it was the last lease on a retired one. */
    method Release(generation: Generation, ghost g: nat) returns (destroy: bool)
      requires Valid() && g < |all| && all[g] == generation && g < |gens|
      modifies this, all
      ensures Valid() && (destroy, Abs()) == Core.Release(old(Abs()), g)
    {
      hide Represents, Chained, RemoveFirst;
      SetRefs(generation, g, if generation.refs > 0 then generation.refs - 1 else 0);
      destroy := generation.refs == 0 && generation.retired;
      if destroy {
        Unlink(generation, g);
        reclaims := reclaims + 1;
      }
    }

    /** Walk the list to the generation and take it out. */
    method Unlink(generation: Generation, ghost g: nat)
      requires Valid() && g < |all| && all[g] == generation
      modifies `retired, `chain, all
      ensures Valid() && Abs() == old(Abs()).(retired := RemoveFirst(old(chain), g))
    {
      hide RemoveFirst, Distinct, Represents;
      var prev: Generation?, link := null, retired;
      ghost var k := 0;
      while link != null && link != generation
        invariant k <= |chain| && link == if k == |chain| then null else all[chain[k]]
        invariant prev == if k == 0 then null else all[chain[k - 1]]
        invariant forall l :: 0 <= l < k ==> chain[l] != g
        decreases |chain| - k
      {
        prev, link, k := link, link.next, k + 1;
      }
      RemoveAt(chain, g, k);
      if link == generation {
        SameNode(k, g);
        DetachAt(generation, prev, k, g);
      }
      assert forall l :: 0 <= l < |chain| ==> chain[l] != g by { NotInChain(old(chain), g, k, chain); }
      ClearNext(generation, g);
    }

    lemma SameNode(k: nat, g: nat)
      requires Valid() && k < |chain| && g < |all| && all[chain[k]] == all[g]
      ensures chain[k] == g
    {
    }

    /** The link fields skip the generation at position k of the chain. */
    method DetachAt(generation: Generation, prev: Generation?, ghost k: nat, ghost g: nat)
      requires Valid() && k < |chain| && chain[k] == g && g < |all| && generation == all[g]
      requires prev == if k == 0 then null else all[chain[k - 1]]
      modifies `retired, `chain, prev
      ensures Valid() && chain == old(chain)[..k] + old(chain)[k + 1..]
    {
      hide Distinct;
      ghost var before := chain;
      DistinctDelete(before, k);
      NextAt(all, retired, chain, k);
      var next := generation.next;
      if prev == null { retired := next; } else { prev.next := next; }
      chain := before[..k] + before[k + 1..];
      if k > 0 { Unlinked(all, before, k); }
      assert forall l :: 0 <= l < |chain| ==> chain[l] == before[if l < k then l else l + 1];
      forall l | 0 <= l < |chain| - 1
        ensures all[chain[l]].next == all[chain[l + 1]]
      {
        assert chain[l] == before[if l < k then l else l + 1];
      }
    }

    /** A generation that is not on the list gets no successor. */
    method ClearNext(generation: Generation, ghost g: nat)
      requires Valid() && g < |all| && all[g] == generation && forall l :: 0 <= l < |chain| ==> chain[l] != g
      modifies generation`next
      ensures Valid()
    {
      hide Distinct;
      generation.next := null;
    }

    method ReclaimDone()
      requires Valid()
      modifies `reclaims
      ensures Valid() && Abs() == Core.ReclaimDone(old(Abs()))
    {
      if reclaims > 0 { reclaims := reclaims - 1; }
    }

    /** Claim the reload and lease the generation to build on. */
    method BeginReload() returns (base: Generation?)
      requires Valid()
      modifies `gens, `reloading, all
      ensures Valid() && Abs() == Core.BeginReload(old(Abs())).1
      ensures match Core.BeginReload(old(Abs())).0
              case None => base == null
              case Some(g) => g < |all| && base == all[g]
    {
      if shuttingDown || reloading || current == null { return null; }
      base := current;
      reloading := true;
      SetRefs(base, cur.value, base.refs + 1);
    }

    /** The new generation object, private to the reloader. */
    method Allocate(id: nat) returns (generation: Generation)
      requires Valid()
      modifies `all, `gens
      ensures Valid() && all == old(all) + [generation]
      ensures Abs() == old(Abs()).(gens := old(gens) + [Gen(id, 0, false)])
    {
      generation := new Generation(id);
      all, gens := all + [generation], gens + [Gen(id, 0, false)];
    }

    /** Publish the new generation and retire the old one, unless something changed meanwhile. */
    method Commit(base: Generation, ghost b: nat, built: Generation, ghost n: nat) returns (ok: bool)
      requires Valid() && b < |all| && all[b] == base && n < |all| && all[n] == built
      requires b !in chain
      modifies this, all
      ensures Valid() && b < |old(gens)| && n < |old(gens)|
      ensures ok == CanCommit(old(Abs()), b) && (ok ==> old(gens)[n].id == built.id)
      ensures Abs() == if ok then Core.Commit(old(Abs()), b, n) else old(Abs())
    {
      hide Represents, Chained;
      IdOf(n);
      CurrentIs(b);
      if shuttingDown || current != base { return false; }
      current, cur := built, Some(n);
      reloadGeneration := built.id;
      MarkRetired(base, b);
      Push(base, b);
      reloading := false;
      ok := true;
    }

    method MarkRetired(generation: Generation, ghost g: nat)
      requires Valid() && g < |all| && all[g] == generation
      modifies generation`retired, `gens
      ensures Valid() && g < |old(gens)|
      ensures Abs() == old(Abs()).(gens := old(gens)[g := old(gens)[g].(retired := true)])
    {
      generation.retired := true;
      gens := gens[g := gens[g].(retired := true)];
    }

    method Push(generation: Generation, ghost g: nat)
      requires Valid() && g < |all| && all[g] == generation && g !in chain
      modifies generation`next, `retired, `chain
      ensures Valid() && Abs() == old(Abs()).(retired := [g] + old(chain))
    {
      hide Distinct;
      DistinctCons(chain, g);
      generation.next := retired;
      retired := generation;
      ghost var before := chain;
      chain := [g] + before;
      assert forall k :: 1 <= k < |chain| ==> chain[k] == before[k - 1];
    }

    lemma IdOf(n: nat)
      requires Valid() && n < |all|
      ensures |gens| == |all| && gens[n].id == all[n].id
    {
    }

    lemma CurrentIs(b: nat)
      requires Valid() && b < |all|
      ensures current == all[b] <==> cur == Some(b)
    {
    }

    method EndReload()
      requires Valid()
      modifies `reloading
      ensures Valid() && Abs() == Core.EndReload(old(Abs()))
    {
      reloading := false;
    }

    method RequestShutdown()
      requires Valid()
      modifies `shuttingDown
      ensures Valid() && Abs() == old(Abs()).(shuttingDown := true)
    {
      shuttingDown := true;
    }

    /** Destroy's condition: a recount over the current generation and the retired list. */
    method IsDrained() returns (drained: bool)
      requires Valid()
      ensures drained == Drained(Abs())
    {
      hide Distinct;
      var refs := if current != null then current.refs else 0;
      var it := retired;
      ghost var k := 0;
      ghost var first := if cur.Some? then [cur.value] else [];
      assert (first + chain)[|first|..] == chain;
      assert RefsOf(gens, first + chain) == refs + RefsOf(gens, chain);
      while it != null
        invariant k <= |chain| && it == if k == |chain| then null else all[chain[k]]
        invariant refs + RefsOf(gens, chain[k..]) == RefsOf(gens, first + chain)
        decreases |chain| - k
      {
        assert chain[k..][0] == chain[k] && chain[k..][1..] == chain[k + 1..];
        refs, it, k := refs + it.refs, it.next, k + 1;
      }
      drained := refs == 0 && !reloading && reclaims == 0;
    }

    method DetachAll() returns (first: Generation?, rest: Generation?)
      requires Valid()
      modifies `current, `retired, `chain, `cur
      ensures Valid() && Abs() == Detach(old(Abs())).1
      ensures first == old(current) && rest == old(retired)
    {
      first, rest := current, retired;
      current, retired, chain, cur := null, null, [], None;
    }
  }

  lemma DistinctCons(chain: seq<nat>, g: nat)
    requires Distinct(chain) && g !in chain
    ensures Distinct([g] + chain)
  {
  }

  lemma NextAt(all: seq<Generation>, head: Generation?, chain: seq<nat>, k: nat)
    requires Chained(all, head, chain) && k < |chain|
    ensures all[chain[k]].next == if k + 1 < |chain| then all[chain[k + 1]] else null
  {
  }

  /** The predecessor of position k is a different node from all others. */
  lemma Unlinked(all: seq<Generation>, chain: seq<nat>, k: nat)
    requires 0 < k < |chain| && Distinct(chain)
    requires forall i, j :: 0 <= i < j < |all| ==> all[i] != all[j]
    requires forall l :: 0 <= l < |chain| ==> chain[l] < |all|
    ensures forall l :: 0 <= l < |chain| && l != k - 1 ==> all[chain[l]] != all[chain[k - 1]]
  {
  }

  lemma NotInChain(chain: seq<nat>, g: nat, k: nat, rest: seq<nat>)
    requires Distinct(chain) && k <= |chain| && forall l :: 0 <= l < k ==> chain[l] != g
    requires if k < |chain| then chain[k] == g && rest == chain[..k] + chain[k + 1..] else rest == chain
    ensures forall l :: 0 <= l < |rest| ==> rest[l] != g
  {
  }

  lemma {:induction false} RemoveAt(list: seq<nat>, g: nat, k: nat)
    requires k <= |list| && forall l :: 0 <= l < k ==> list[l] != g
    ensures k < |list| && list[k] == g ==> RemoveFirst(list, g) == list[..k] + list[k + 1..]
    ensures k == |list| ==> RemoveFirst(list, g) == list
  {
    if 0 < k {
      RemoveAt(list[1..], g, k - 1);
      if k < |list| && list[k] == g {
        assert list[..k] + list[k + 1..] == [list[0]] + (list[1..][..k - 1] + list[1..][k..]);
      }
    }
  }
}
