/** What holds of the generations in every reachable state, for every interleaving. */
module GenerationTheorems {
  import opened Common
  import Core = GenerationCore
  import opened GenerationCore
  import Threads = GenerationWorld
  import opened GenerationWorld

  // ---- counting over threads -------------------------------------------------------------------

  function Sum(ts: seq<Thread>, f: Thread -> nat): nat {
    if ts == [] then 0 else Sum(ts[..|ts| - 1], f) + f(ts[|ts| - 1])
  }

  predicate Leases(t: Thread) {
    t.Holding? || t.Submitting? || t.Active? || t.Finished? || t.Preparing? || t.Failing? || t.Committed?
  }

  function LeaseOn(g: nat): Thread -> nat {
    (t: Thread) => if Leases(t) && t.g == g then 1 else 0
  }

  /** Threads that are responsible for freeing a generation. */
  function Frees(g: nat): Thread -> nat {
    (t: Thread) => if (t.Preparing? && t.built == g) || (t.Reclaiming? && t.dead == g) then 1 else 0
  }

  function Reclaims(): Thread -> nat {
    (t: Thread) => if t.Reclaiming? || t.Reclaimed? then 1 else 0
  }

  predicate Reloads(t: Thread) {
    t.Preparing? || t.Failing? || t.Ending? || ((t.Reclaiming? || t.Reclaimed?) && t.after == EndsReload)
  }

  function ReloadCount(): Thread -> nat {
    (t: Thread) => if Reloads(t) then 1 else 0
  }

  function ActiveCount(): Thread -> nat {
    (t: Thread) => if t.Active? then 1 else 0
  }

  lemma {:induction false} SumUpdate(ts: seq<Thread>, f: Thread -> nat, k: nat, t: Thread)
    requires k < |ts|
    ensures Sum(ts[k := t], f) + f(ts[k]) == Sum(ts, f) + f(t)
  {
    var init, upd := ts[..|ts| - 1], ts[k := t];
    if k < |init| {
      assert upd[..|upd| - 1] == init[k := t];
      SumUpdate(init, f, k, t);
    } else {
      assert upd[..|upd| - 1] == init;
    }
  }

  lemma SumsUpdate(ts: seq<Thread>, k: nat, t: Thread)
    requires k < |ts|
    ensures forall f :: Sum(ts[k := t], f) + f(ts[k]) == Sum(ts, f) + f(t)
  {
    forall f
      ensures Sum(ts[k := t], f) + f(ts[k]) == Sum(ts, f) + f(t)
    {
      SumUpdate(ts, f, k, t);
    }
  }

  lemma SumsAppend(ts: seq<Thread>, t: Thread)
    ensures forall f :: Sum(ts + [t], f) == Sum(ts, f) + f(t)
  {
    assert (ts + [t])[..|ts|] == ts;
  }

  lemma {:induction false} SumAt(ts: seq<Thread>, f: Thread -> nat, k: nat)
    requires k < |ts|
    ensures Sum(ts, f) >= f(ts[k])
  {
    if k < |ts| - 1 { SumAt(ts[..|ts| - 1], f, k); }
  }

  lemma {:induction false} SumTwo(ts: seq<Thread>, f: Thread -> nat, k: nat, l: nat)
    requires k < l < |ts|
    ensures Sum(ts, f) >= f(ts[k]) + f(ts[l])
  {
    if l < |ts| - 1 { SumTwo(ts[..|ts| - 1], f, k, l); } else { SumAt(ts[..|ts| - 1], f, k); }
  }

  lemma {:induction false} SumPositive(ts: seq<Thread>, f: Thread -> nat) returns (k: nat)
    requires Sum(ts, f) > 0
    ensures k < |ts| && f(ts[k]) > 0
  {
    if f(ts[|ts| - 1]) > 0 { k := |ts| - 1; } else { k := SumPositive(ts[..|ts| - 1], f); }
  }

  // ---- the invariant ---------------------------------------------------------------------------

  function Occurs(list: seq<nat>, g: nat): nat {
    multiset(list)[g]
  }

  function Todo(d: Destroyer): seq<nat> {
    if d.Tearing? then d.todo else []
  }

  /** How many parties are to free a generation: the builder, a thread, or the destroyer. */
  function Owners(w: World, g: nat): nat {
    (if w.b.current == Some(g) then 1 else 0) + Occurs(w.b.retired, g) + Sum(w.threads, Frees(g))
    + Occurs(Todo(w.destroyer), g)
  }

  ghost predicate RefsOk(gens: seq<Gen>, threads: seq<Thread>) {
    forall g: nat :: g < |gens| ==> gens[g].refs == Sum(threads, LeaseOn(g))
  }

  ghost predicate OwnedOnce(w: World) {
    && |w.destroyed| == |w.b.gens|
    && forall g: nat :: g < |w.b.gens| ==> Owners(w, g) + w.destroyed[g] == 1
  }

  /** The retired list holds exactly the retired generations that are still leased. */
  ghost predicate ListsOk(b: Builder) {
    && (b.current.Some? ==> b.current.value < |b.gens| && !b.gens[b.current.value].retired
                            && b.gens[b.current.value].id == b.reloadGeneration)
    && (forall g :: g in b.retired ==> g < |b.gens|)
    && (forall g: nat :: g < |b.gens| ==> (g in b.retired <==> b.gens[g].retired && b.gens[g].refs > 0))
    && (forall g: nat :: g < |b.gens| && b.gens[g].refs > 0 ==> b.current == Some(g) || g in b.retired)
  }

  ghost predicate ThreadOk(b: Builder, t: Thread) {
    && (Leases(t) ==> t.g < |b.gens|)
    && (t.Preparing? ==> b.current == Some(t.g) && t.g < |b.gens| && t.built < |b.gens| && t.built != t.g
                         && b.gens[t.built] == Gen(b.gens[t.g].id + 1, 0, false))
    && (t.Failing? ==> b.current == Some(t.g))
    && (t.Committed? ==> t.g < |b.gens| && b.gens[t.g].retired)
    && (t.Reclaiming? ==> t.dead < |b.gens|)
  }

  ghost predicate ThreadsOk(b: Builder, threads: seq<Thread>) {
    forall k :: 0 <= k < |threads| ==> ThreadOk(b, threads[k])
  }

  ghost predicate CountsOk(b: Builder, threads: seq<Thread>) {
    && b.reclaims == Sum(threads, Reclaims())
    && Sum(threads, ReloadCount()) == if b.reloading then 1 else 0
  }

  ghost predicate DestroyerOk(b: Builder, d: Destroyer) {
    && (!d.Waiting? ==> b.shuttingDown && !b.reloading && b.reclaims == 0 && b.retired == []
                        && forall g: nat :: g < |b.gens| ==> b.gens[g].refs == 0)
    && (d.Waiting? || d.Passed? <==> b.current.Some?)
    && (forall g :: g in Todo(d) ==> g < |b.gens|)
  }

  ghost predicate ControllerOk(c: Controller, gens: seq<Gen>, threads: seq<Thread>) {
    && Sum(threads, ActiveCount()) == (if c.run != 0 then 1 else 0)
    && (forall k :: 0 <= k < |threads| && threads[k].Active? ==>
          c.run == threads[k].run && c.cancel == Some(c.run)
          && threads[k].g < |gens| && c.generation == gens[threads[k].g].id)
    && (c.run == 0 ==> c.cancel == None)
    && (c.lifecycle == Stopped ==> c.run == 0)
  }

  ghost predicate WorldInv(w: World) {
    && RefsOk(w.b.gens, w.threads)
    && OwnedOnce(w)
    && ListsOk(w.b)
    && ThreadsOk(w.b, w.threads)
    && CountsOk(w.b, w.threads)
    && DestroyerOk(w.b, w.destroyer)
    && ControllerOk(w.controller, w.b.gens, w.threads)
  }

  lemma InitInv()
    ensures WorldInv(Threads.Init())
  {
  }

  // ---- leases ----------------------------------------------------------------------------------

  lemma AcquireInv(w: World, t: Thread)
    requires WorldInv(w) && Core.Acquire(w.b).0.Some?
    requires t == Holding(w.b.current.value) || t == Submitting(w.b.current.value)
    ensures WorldInv(w.(b := Core.Acquire(w.b).1, threads := w.threads + [t]))
  {
    hide Sum;
    SumsAppend(w.threads, t);
    var w' := w.(b := Core.Acquire(w.b).1, threads := w.threads + [t]);
    assert forall g: nat :: g < |w.b.gens| ==> Owners(w', g) == Owners(w, g);
  }

  // ---- release ---------------------------------------------------------------------------------

  lemma {:induction false} RemoveFirstCounts(list: seq<nat>, g: nat)
    requires g in list
    ensures multiset(RemoveFirst(list, g)) == multiset(list) - multiset{g}
    ensures forall x: nat :: x != g ==> (x in RemoveFirst(list, g) <==> x in list)
  {
    assert list == [list[0]] + list[1..];
    if list[0] != g { RemoveFirstCounts(list[1..], g); }
  }

  lemma ReleaseInv(w: World, k: nat)
    requires WorldInv(w)
    ensures WorldInv(ReleaseStep(w, k))
  {
    hide Sum, RemoveFirst, Occurs;
    if k < |w.threads| && CanRelease(w.threads[k]) {
      var t := w.threads[k];
      var w' := ReleaseStep(w, k);
      SumsUpdate(w.threads, k, w'.threads[k]);
      SumAt(w.threads, LeaseOn(t.g), k);
      ReleaseOwners(w, k);
      ReleaseLists(w, k);
      ReleaseThreads(w, k);
    }
  }

  lemma ReleaseFacts(w: World, k: nat)
    requires WorldInv(w) && k < |w.threads| && CanRelease(w.threads[k])
    ensures w.threads[k].g < |w.b.gens| && w.b.gens[w.threads[k].g].refs > 0
    ensures w.destroyer.Waiting?
  {
    hide Sum;
    SumAt(w.threads, LeaseOn(w.threads[k].g), k);
  }

  lemma ReleaseOwners(w: World, k: nat)
    requires WorldInv(w) && k < |w.threads| && CanRelease(w.threads[k])
    ensures OwnedOnce(ReleaseStep(w, k))
  {
    hide Sum, RemoveFirst;
    var t, w' := w.threads[k], ReleaseStep(w, k);
    ReleaseFacts(w, k);
    SumsUpdate(w.threads, k, w'.threads[k]);
    if Core.Release(w.b, t.g).0 { RemoveFirstCounts(w.b.retired, t.g); }
    forall g: nat | g < |w.b.gens|
      ensures Owners(w', g) == Owners(w, g)
    {
      assert Sum(w'.threads, Frees(g)) + Frees(g)(t) == Sum(w.threads, Frees(g)) + Frees(g)(w'.threads[k]);
    }
  }

  lemma ReleaseLists(w: World, k: nat)
    requires WorldInv(w) && k < |w.threads| && CanRelease(w.threads[k])
    ensures ListsOk(ReleaseStep(w, k).b)
  {
    hide Sum, RemoveFirst, RefsOk, ThreadsOk, CountsOk, DestroyerOk, ControllerOk;
    var t := w.threads[k];
    ReleaseFacts(w, k);
    if Core.Release(w.b, t.g).0 {
      RemoveFirstCounts(w.b.retired, t.g);
      RetiredOnce(w, t.g);
    }
  }

  lemma ReleaseThreads(w: World, k: nat)
    requires WorldInv(w) && k < |w.threads| && CanRelease(w.threads[k])
    ensures ThreadsOk(ReleaseStep(w, k).b, ReleaseStep(w, k).threads)
  {
    hide Sum, RemoveFirst, RefsOk, OwnedOnce, ListsOk, CountsOk, DestroyerOk, ControllerOk;
    ReleaseFacts(w, k);
  }

  lemma RetiredOnce(w: World, g: nat)
    requires OwnedOnce(w) && g < |w.b.gens| && g in w.b.retired
    ensures multiset(w.b.retired)[g] == 1
    ensures w.b.current != Some(g)
  {
    hide Sum;
    assert Owners(w, g) + w.destroyed[g] == 1;
  }

  lemma ReclaimInv(w: World, k: nat)
    requires WorldInv(w) && k < |w.threads| && w.threads[k].Reclaiming?
    ensures WorldInv(Next(w, Reclaim(k)))
  {
    hide Sum, Occurs;
    var t, w' := w.threads[k], Next(w, Reclaim(k));
    SumsUpdate(w.threads, k, w'.threads[k]);
    forall g: nat | g < |w.b.gens|
      ensures Owners(w', g) + w'.destroyed[g] == 1
    {
      assert Owners(w, g) + w.destroyed[g] == 1;
      assert Sum(w'.threads, Frees(g)) + Frees(g)(t) == Sum(w.threads, Frees(g)) + Frees(g)(w'.threads[k]);
    }
  }

  lemma EndReclaimInv(w: World, k: nat)
    requires WorldInv(w) && k < |w.threads| && w.threads[k].Reclaimed?
    ensures WorldInv(Next(w, EndReclaim(k)))
  {
    hide Sum, Occurs;
    var t, w' := w.threads[k], Next(w, EndReclaim(k));
    SumsUpdate(w.threads, k, w'.threads[k]);
    SumAt(w.threads, Reclaims(), k);
    forall g: nat | g < |w.b.gens|
      ensures Owners(w', g) == Owners(w, g)
    {
      assert Sum(w'.threads, Frees(g)) + Frees(g)(t) == Sum(w.threads, Frees(g)) + Frees(g)(w'.threads[k]);
    }
  }

  // ---- reload ----------------------------------------------------------------------------------

  lemma {:induction false} NoneFrees(w: World, ts: seq<Thread>, g: nat)
    requires ThreadsOk(w.b, ts) && g >= |w.b.gens|
    ensures Sum(ts, Frees(g)) == 0 && Sum(ts, LeaseOn(g)) == 0
  {
    if ts != [] {
      assert ThreadsOk(w.b, ts[..|ts| - 1]);
      NoneFrees(w, ts[..|ts| - 1], g);
    }
  }

  lemma BeginReloadInv(w: World)
    requires WorldInv(w)
    ensures WorldInv(BeginReloadStep(w))
  {
    hide Sum, Occurs;
    var w' := BeginReloadStep(w);
    if w' != w {
      var n := |w.b.gens|;
      SumsAppend(w.threads, w'.threads[|w.threads|]);
      NoneFrees(w, w.threads, n);
      forall g: nat | g <= n
        ensures Owners(w', g) + w'.destroyed[g] == 1
      {
        NotListed(w, n);
        if g < n { assert Owners(w, g) + w.destroyed[g] == 1; }
      }
    }
  }

  lemma NotIn(list: seq<nat>, g: nat)
    requires forall x :: x in list ==> x < g
    ensures multiset(list)[g] == 0
  {
    assert g !in list;
  }

  lemma NotListed(w: World, g: nat)
    requires ListsOk(w.b) && g >= |w.b.gens| && DestroyerOk(w.b, w.destroyer)
    ensures Occurs(w.b.retired, g) == 0 && Occurs(Todo(w.destroyer), g) == 0
  {
    NotIn(w.b.retired, g);
    NotIn(Todo(w.destroyer), g);
  }

  lemma BuildInv(w: World, k: nat, ok: bool)
    requires WorldInv(w)
    ensures WorldInv(BuildStep(w, k, ok))
  {
    if k < |w.threads| && w.threads[k].Preparing? {
      if ok && CanCommit(w.b, w.threads[k].g) { CommitInv(w, k); } else { BuildFailsInv(w, k, ok); }
    }
  }

  lemma BuildFailsInv(w: World, k: nat, ok: bool)
    requires WorldInv(w) && k < |w.threads| && w.threads[k].Preparing?
    requires !(ok && CanCommit(w.b, w.threads[k].g))
    ensures WorldInv(BuildStep(w, k, ok))
  {
    hide Sum, Occurs;
    var t, w' := w.threads[k], BuildStep(w, k, ok);
    SumsUpdate(w.threads, k, w'.threads[k]);
    forall g: nat | g < |w.b.gens|
      ensures Owners(w', g) + w'.destroyed[g] == 1
    {
      assert Owners(w, g) + w.destroyed[g] == 1;
      assert Sum(w'.threads, Frees(g)) + Frees(g)(t) == Sum(w.threads, Frees(g)) + Frees(g)(w'.threads[k]);
    }
  }

  lemma CommitInv(w: World, k: nat)
    requires WorldInv(w) && k < |w.threads| && w.threads[k].Preparing? && CanCommit(w.b, w.threads[k].g)
    ensures WorldInv(BuildStep(w, k, true))
  {
    hide Sum, Occurs;
    var t, w' := w.threads[k], BuildStep(w, k, true);
    SumsUpdate(w.threads, k, w'.threads[k]);
    SumAt(w.threads, LeaseOn(t.g), k);
    CommitOwners(w, k);
    CommitThreads(w, k);
  }

  lemma CommitOwners(w: World, k: nat)
    requires WorldInv(w) && k < |w.threads| && w.threads[k].Preparing? && CanCommit(w.b, w.threads[k].g)
    ensures OwnedOnce(BuildStep(w, k, true))
  {
    hide Sum;
    var t, w' := w.threads[k], BuildStep(w, k, true);
    SumsUpdate(w.threads, k, w'.threads[k]);
    forall g: nat | g < |w.b.gens|
      ensures Owners(w', g) == Owners(w, g)
    {
      assert Sum(w'.threads, Frees(g)) + Frees(g)(t) == Sum(w.threads, Frees(g)) + Frees(g)(w'.threads[k]);
    }
  }

  /** At most one thread reloads, so no other thread depends on the generation that was current. */
  lemma CommitThreads(w: World, k: nat)
    requires WorldInv(w) && k < |w.threads| && w.threads[k].Preparing? && CanCommit(w.b, w.threads[k].g)
    ensures ThreadsOk(BuildStep(w, k, true).b, BuildStep(w, k, true).threads)
  {
    hide Sum;
    var w' := BuildStep(w, k, true);
    forall l | 0 <= l < |w.threads|
      ensures ThreadOk(w'.b, w'.threads[l])
    {
      if l < k { SumTwo(w.threads, ReloadCount(), l, k); }
      if l > k { SumTwo(w.threads, ReloadCount(), k, l); }
    }
  }

  lemma EndReloadInv(w: World, k: nat)
    requires WorldInv(w) && k < |w.threads| && w.threads[k].Ending?
    ensures WorldInv(Next(w, EndReload(k)))
  {
    hide Sum, Occurs;
    var t, w' := w.threads[k], Next(w, EndReload(k));
    SumsUpdate(w.threads, k, w'.threads[k]);
    SumAt(w.threads, ReloadCount(), k);
    forall g: nat | g < |w.b.gens|
      ensures Owners(w', g) == Owners(w, g)
    {
      assert Sum(w'.threads, Frees(g)) + Frees(g)(t) == Sum(w.threads, Frees(g)) + Frees(g)(w'.threads[k]);
    }
  }

  lemma LogInv(w: World, k: nat)
    requires WorldInv(w) && k < |w.threads| && w.threads[k].Logging?
    ensures WorldInv(Next(w, Log(k)))
  {
    hide Sum, Occurs;
    var t, w' := w.threads[k], Next(w, Log(k));
    SumsUpdate(w.threads, k, w'.threads[k]);
    forall g: nat | g < |w.b.gens|
      ensures Owners(w', g) == Owners(w, g)
    {
      assert Sum(w'.threads, Frees(g)) + Frees(g)(t) == Sum(w.threads, Frees(g)) + Frees(g)(w'.threads[k]);
    }
  }

  // ---- destroy ---------------------------------------------------------------------------------

  lemma {:induction false} RefsOfZero(gens: seq<Gen>, list: seq<nat>)
    requires RefsOf(gens, list) == 0
    ensures forall g :: g in list && g < |gens| ==> gens[g].refs == 0
  {
    if list != [] {
      RefsOfZero(gens, list[1..]);
      assert list == [list[0]] + list[1..];
    }
  }

  lemma RefsOfEmpty(gens: seq<Gen>, list: seq<nat>)
    requires forall g :: g in list ==> g < |gens| && gens[g].refs > 0
    ensures list != [] ==> RefsOf(gens, list) > 0
  {
    if list != [] { assert list[0] in list; }
  }

  lemma DrainInv(w: World)
    requires WorldInv(w)
    ensures WorldInv(Next(w, Drain))
  {
    hide Sum, Occurs;
    var w' := Next(w, Drain);
    if w' != w {
      RefsOfZero(w.b.gens, (if w.b.current.Some? then [w.b.current.value] else []) + w.b.retired);
      RefsOfEmpty(w.b.gens, w.b.retired);
      var all := (if w.b.current.Some? then [w.b.current.value] else []) + w.b.retired;
      assert w.b.current.Some? ==> all[1..] == w.b.retired;
      assert forall g: nat :: g < |w.b.gens| ==> Owners(w', g) == Owners(w, g);
    }
  }

  lemma DetachInv(w: World, busOk: bool)
    requires WorldInv(w)
    ensures WorldInv(Next(w, DetachAll(busOk)))
  {
    hide Sum;
    var w' := Next(w, DetachAll(busOk));
    if w' != w {
      assert forall g: nat :: g < |w.b.gens| ==> Owners(w', g) == Owners(w, g);
      NoReloads(w);
    }
  }

  /** No thread is preparing or failing a reload while the flag is clear. */
  lemma NoReloads(w: World)
    requires CountsOk(w.b, w.threads) && !w.b.reloading
    ensures forall k :: 0 <= k < |w.threads| ==> !Reloads(w.threads[k])
  {
    hide Sum;
    forall k | 0 <= k < |w.threads|
      ensures !Reloads(w.threads[k])
    {
      SumAt(w.threads, ReloadCount(), k);
    }
  }

  lemma TearOneInv(w: World)
    requires WorldInv(w)
    ensures WorldInv(Next(w, TearOne))
  {
    hide Sum, RefsOk, ListsOk, ThreadsOk, CountsOk, ControllerOk;
    var w' := Next(w, TearOne);
    if w.destroyer.Tearing? && w.destroyer.todo != [] {
      var todo := w.destroyer.todo;
      assert todo == [todo[0]] + todo[1..];
      forall g: nat | g < |w.b.gens|
        ensures Owners(w', g) + w'.destroyed[g] == 1
      {
        assert Owners(w, g) + w.destroyed[g] == 1;
        assert multiset(todo)[g] == multiset([todo[0]])[g] + multiset(todo[1..])[g];
      }
      assert todo[0] in todo;
      forall x | x in todo[1..]
        ensures x < |w.b.gens|
      {
        assert x in Todo(w.destroyer);
      }
    } else {
      assert forall g: nat :: g < |w.b.gens| ==> Owners(w', g) == Owners(w, g);
    }
  }

  // ---- controller ------------------------------------------------------------------------------

  lemma {:induction false} NoneActive(ts: seq<Thread>)
    requires Sum(ts, ActiveCount()) == 0
    ensures forall k :: 0 <= k < |ts| ==> !ts[k].Active?
  {
    forall k | 0 <= k < |ts|
      ensures !ts[k].Active?
    {
      SumAt(ts, ActiveCount(), k);
    }
  }

  /** A step that changes neither leases nor owners. */
  lemma SameOwners(w: World, w': World, k: nat)
    requires WorldInv(w) && k < |w.threads| == |w'.threads| && w'.threads == w.threads[k := w'.threads[k]]
    requires w'.b == w.b && w'.destroyer == w.destroyer && w'.destroyed == w.destroyed
    requires Leases(w.threads[k]) && Leases(w'.threads[k]) && w'.threads[k].g == w.threads[k].g
    requires !Reloads(w.threads[k]) && !Reloads(w'.threads[k])
    requires !w'.threads[k].Committed?
    ensures RefsOk(w'.b.gens, w'.threads) && OwnedOnce(w') && ThreadsOk(w'.b, w'.threads) && CountsOk(w'.b, w'.threads)
  {
    hide Sum, Occurs;
    var t := w.threads[k];
    SumsUpdate(w.threads, k, w'.threads[k]);
    forall g: nat | g < |w.b.gens|
      ensures Owners(w', g) == Owners(w, g)
    {
      assert Sum(w'.threads, Frees(g)) + Frees(g)(t) == Sum(w.threads, Frees(g)) + Frees(g)(w'.threads[k]);
    }
  }

  lemma AdmitInv(w: World, k: nat, run: nat)
    requires WorldInv(w)
    ensures WorldInv(AdmitStep(w, k, run))
  {
    hide Sum, Occurs, OwnedOnce;
    var w' := AdmitStep(w, k, run);
    if w' != w {
      SameOwners(w, w', k);
      SumsUpdate(w.threads, k, w'.threads[k]);
      if w.controller.run == 0 { NoneActive(w.threads); }
    }
  }

  lemma CompleteInv(w: World, k: nat)
    requires WorldInv(w)
    ensures WorldInv(CompleteStep(w, k))
  {
    hide Sum, Occurs, OwnedOnce;
    var w' := CompleteStep(w, k);
    if w' != w {
      SameOwners(w, w', k);
      SumsUpdate(w.threads, k, w'.threads[k]);
      SumAt(w.threads, ActiveCount(), k);
      NoneActive(w'.threads);
    }
  }

  lemma NextInv(w: World, op: Op)
    requires WorldInv(w)
    ensures WorldInv(Next(w, op))
  {
    hide RefsOk, OwnedOnce, ListsOk, ThreadsOk, CountsOk, DestroyerOk, ControllerOk;
    match op
    case Acquire => if Core.Acquire(w.b).0.Some? { AcquireInv(w, Holding(w.b.current.value)); }
    case Submit => if Core.Acquire(w.b).0.Some? { AcquireInv(w, Submitting(w.b.current.value)); }
    case Release(k) => ReleaseInv(w, k);
    case Reclaim(k) => if k < |w.threads| && w.threads[k].Reclaiming? { ReclaimInv(w, k); }
    case EndReclaim(k) => if k < |w.threads| && w.threads[k].Reclaimed? { EndReclaimInv(w, k); }
    case BeginReload => BeginReloadInv(w);
    case Build(k, ok) => BuildInv(w, k, ok);
    case EndReload(k) => if k < |w.threads| && w.threads[k].Ending? { EndReloadInv(w, k); }
    case Log(k) => if k < |w.threads| && w.threads[k].Logging? { LogInv(w, k); }
    case Drain => DrainInv(w);
    case DetachAll(busOk) => DetachInv(w, busOk);
    case TearOne => TearOneInv(w);
    case Admit(k, run) => AdmitInv(w, k, run);
    case Complete(k) => CompleteInv(w, k);
    case _ => FlagsInv(w, op);
  }

  lemma FlagsInv(w: World, op: Op)
    requires WorldInv(w) && (op.RequestShutdown? || op.StopController? || op.StoppedController?)
    ensures WorldInv(Next(w, op))
  {
    hide Sum, Occurs;
    assert forall g: nat :: g < |w.b.gens| ==> Owners(Next(w, op), g) == Owners(w, g);
  }

  // ---- runs ------------------------------------------------------------------------------------

  ghost function Run(ops: seq<Op>): World {
    if ops == [] then Threads.Init() else Next(Run(ops[..|ops| - 1]), ops[|ops| - 1])
  }

  ghost predicate Reachable(w: World) {
    exists ops :: w == Run(ops)
  }

  lemma {:induction false} RunInv(ops: seq<Op>)
    ensures WorldInv(Run(ops))
  {
    if ops == [] {
      InitInv();
    } else {
      RunInv(ops[..|ops| - 1]);
      NextInv(Run(ops[..|ops| - 1]), ops[|ops| - 1]);
    }
  }

  lemma ReachableInv(w: World)
    requires Reachable(w)
    ensures WorldInv(w)
  {
    var ops :| w == Run(ops);
    RunInv(ops);
  }

  // ---- theorems --------------------------------------------------------------------------------

  /** The reference count of every generation is the number of outstanding leases on it. */
  lemma RefsAreLeases(w: World, g: nat)
    requires Reachable(w) && g < |w.b.gens|
    ensures w.b.gens[g].refs == Sum(w.threads, LeaseOn(g))
    ensures g in w.b.retired <==> w.b.gens[g].retired && Sum(w.threads, LeaseOn(g)) > 0
    ensures multiset(w.b.retired)[g] <= 1
  {
    hide Sum, OwnedOnce;
    ReachableInv(w);
    if g in w.b.retired { RetiredOnce(w, g); }
  }

  /** A generation is destroyed at most once, and never while any thread leases it or it is current. */
  lemma DestroyedAtMostOnce(w: World, g: nat)
    requires Reachable(w) && g < |w.b.gens|
    ensures |w.destroyed| == |w.b.gens| && w.destroyed[g] <= 1
    ensures Sum(w.threads, LeaseOn(g)) > 0 || w.b.current == Some(g) ==> w.destroyed[g] == 0
  {
    hide Sum;
    ReachableInv(w);
    assert Owners(w, g) + w.destroyed[g] == 1;
  }

  /** Once destroy has finished, every generation ever built has been destroyed exactly once, and no thread
      leases one or still has one to destroy. */
  lemma DestroyLeavesNothing(w: World, g: nat, k: nat)
    requires Reachable(w) && w.destroyer.Done? && g < |w.b.gens|
    ensures |w.destroyed| == |w.b.gens| && w.destroyed[g] == 1
    ensures k < |w.threads| ==> !Leases(w.threads[k]) && !w.threads[k].Reclaiming?
  {
    hide Sum;
    ReachableInv(w);
    NoReloads(w);
    if k < |w.threads| {
      if Leases(w.threads[k]) { SumAt(w.threads, LeaseOn(w.threads[k].g), k); }
      SumAt(w.threads, Reclaims(), k);
    }
    if Sum(w.threads, Frees(g)) > 0 {
      var l := SumPositive(w.threads, Frees(g));
      SumAt(w.threads, Reclaims(), l);
    }
    assert Owners(w, g) + w.destroyed[g] == 1;
  }

  /** Destroy passes its check exactly when no lease is out, no reload is running, and no reclaim is under way. */
  lemma DrainedMeansIdle(w: World)
    requires Reachable(w)
    ensures Drained(w.b) <==>
              forall k :: 0 <= k < |w.threads| ==>
                !Leases(w.threads[k]) && !Reloads(w.threads[k]) && !w.threads[k].Reclaiming? && !w.threads[k].Reclaimed?
  {
    hide Sum;
    ReachableInv(w);
    var list := (if w.b.current.Some? then [w.b.current.value] else []) + w.b.retired;
    if Drained(w.b) {
      RefsOfZero(w.b.gens, list);
      NoReloads(w);
      forall k | 0 <= k < |w.threads|
        ensures !Leases(w.threads[k]) && !w.threads[k].Reclaiming? && !w.threads[k].Reclaimed?
      {
        if Leases(w.threads[k]) { SumAt(w.threads, LeaseOn(w.threads[k].g), k); }
        SumAt(w.threads, Reclaims(), k);
      }
    } else if forall k :: 0 <= k < |w.threads| ==>
                !Leases(w.threads[k]) && !Reloads(w.threads[k]) && !w.threads[k].Reclaiming? && !w.threads[k].Reclaimed? {
      if Sum(w.threads, Reclaims()) > 0 { var k := SumPositive(w.threads, Reclaims()); }
      if Sum(w.threads, ReloadCount()) > 0 { var k := SumPositive(w.threads, ReloadCount()); }
      if RefsOf(w.b.gens, list) > 0 {
        var g := RefsOfPositive(w.b.gens, list);
        var k := SumPositive(w.threads, LeaseOn(g));
      }
    }
  }

  lemma {:induction false} RefsOfPositive(gens: seq<Gen>, list: seq<nat>) returns (g: nat)
    requires RefsOf(gens, list) > 0
    ensures g < |gens| && gens[g].refs > 0
  {
    if list[0] < |gens| && gens[list[0]].refs > 0 { g := list[0]; } else { g := RefsOfPositive(gens, list[1..]); }
  }

  /** A reload that fails leaves the current generation alone; one that commits raises its id by one. */
  lemma ReloadOutcome(w: World, k: nat, ok: bool)
    requires Reachable(w) && k < |w.threads| && w.threads[k].Preparing?
    ensures var t, b, b' := w.threads[k], w.b, Next(w, Build(k, ok)).b;
            && t.g < |b.gens| && t.built < |b.gens| && b.current == Some(t.g)
            && (ok && !b.shuttingDown ==>
                  b'.current == Some(t.built) && b'.reloadGeneration == b.reloadGeneration + 1
                  && t.built < |b'.gens| && b'.gens[t.built].id == b.gens[t.g].id + 1
                  && t.g in b'.retired)
            && (!ok || b.shuttingDown ==>
                  b' == b && t.built < |Next(w, Build(k, ok)).destroyed|
                  && Next(w, Build(k, ok)).destroyed[t.built] == 1)
  {
    hide Sum;
    ReachableInv(w);
    assert ThreadOk(w.b, w.threads[k]);
    SumAt(w.threads, Frees(w.threads[k].built), k);
    assert Owners(w, w.threads[k].built) + w.destroyed[w.threads[k].built] == 1;
  }

  /** Every lease and every reload of b was already there in a, and b publishes no other generation. */
  ghost predicate Winds(a: World, b: World) {
    && b.b.shuttingDown && |b.b.gens| == |a.b.gens| && |b.threads| == |a.threads|
    && (b.b.current == a.b.current || b.b.current == None)
    && forall k :: 0 <= k < |a.threads| ==>
         && (Leases(b.threads[k]) ==> Leases(a.threads[k]) && b.threads[k].g == a.threads[k].g)
         && (Reloads(b.threads[k]) ==> Reloads(a.threads[k]))
  }

  lemma WindsStep(w: World, op: Op)
    requires w.b.shuttingDown
    ensures Winds(w, Next(w, op))
  {
    hide RemoveFirst, Drained;
  }

  lemma WindsTrans(a: World, b: World, c: World)
    requires Winds(a, b) && Winds(b, c)
    ensures Winds(a, c)
  {
  }

  /**
   Once shutdown has been requested it stays requested: in no later state of the run is there a lease or a
   reload that was not there at the request, and no new generation is built or published.
   */
  lemma {:induction false} NoLeaseAfterShutdown(ops: seq<Op>, n: nat)
    requires n <= |ops| && Run(ops[..n]).b.shuttingDown
    ensures var w, w' := Run(ops[..n]), Run(ops);
            && w'.b.shuttingDown && |w'.b.gens| == |w.b.gens| && |w'.threads| == |w.threads|
            && (w'.b.current == w.b.current || w'.b.current == None)
            && forall k :: 0 <= k < |w.threads| ==>
                 && (Leases(w'.threads[k]) ==> Leases(w.threads[k]) && w'.threads[k].g == w.threads[k].g)
                 && (Reloads(w'.threads[k]) ==> Reloads(w.threads[k]))
    decreases |ops|
  {
    hide Next;
    if n == |ops| {
      assert ops[..n] == ops;
    } else {
      var init := ops[..|ops| - 1];
      assert init[..n] == ops[..n];
      NoLeaseAfterShutdown(init, n);
      WindsStep(Run(init), ops[|ops| - 1]);
      WindsTrans(Run(ops[..n]), Run(init), Run(ops));
    }
  }

  /** The controller has at most one run, which leases the generation whose id its stream events must match. */
  lemma OneControllerRun(w: World, k: nat, l: nat)
    requires Reachable(w) && k < |w.threads| && w.threads[k].Active?
    ensures w.controller.run == w.threads[k].run && w.controller.cancel == Some(w.threads[k].run)
    ensures w.threads[k].g < |w.b.gens| && w.controller.generation == w.b.gens[w.threads[k].g].id
    ensures w.b.gens[w.threads[k].g].refs > 0 && |w.destroyed| == |w.b.gens| && w.destroyed[w.threads[k].g] == 0
    ensures l < |w.threads| && w.threads[l].Active? ==> l == k
    ensures w.controller.lifecycle != Stopped
  {
    hide Sum;
    ReachableInv(w);
    SumAt(w.threads, ActiveCount(), k);
    if l < |w.threads| && w.threads[l].Active? {
      if l < k { SumTwo(w.threads, ActiveCount(), l, k); }
      if k < l { SumTwo(w.threads, ActiveCount(), k, l); }
    }
    SumAt(w.threads, LeaseOn(w.threads[k].g), k);
    DestroyedAtMostOnce(w, w.threads[k].g);
  }

  /** The controller admits nothing: each of its runs in b was already active in a. */
  ghost predicate Refuses(a: World, b: World) {
    && b.controller.lifecycle != Running && |b.threads| >= |a.threads|
    && (a.controller.lifecycle == Stopped ==> b.controller.lifecycle == Stopped)
    && forall k :: 0 <= k < |b.threads| && b.threads[k].Active? ==> k < |a.threads| && b.threads[k] == a.threads[k]
  }

  lemma RefusesStep(w: World, op: Op)
    requires w.controller.lifecycle != Running
    ensures Refuses(w, Next(w, op))
  {
    hide RemoveFirst, Drained;
  }

  lemma RefusesTrans(a: World, b: World, c: World)
    requires Refuses(a, b) && Refuses(b, c)
    ensures Refuses(a, c)
  {
  }

  /** Once the controller has been told to stop, no run of it starts any more, and once stopped it stays stopped. */
  lemma {:induction false} NoRunAfterStop(ops: seq<Op>, n: nat)
    requires n <= |ops| && Run(ops[..n]).controller.lifecycle != Running
    ensures Refuses(Run(ops[..n]), Run(ops))
    decreases |ops|
  {
    hide Next;
    if n == |ops| {
      assert ops[..n] == ops;
    } else {
      var init := ops[..|ops| - 1];
      assert init[..n] == ops[..n];
      NoRunAfterStop(init, n);
      RefusesStep(Run(init), ops[|ops| - 1]);
      RefusesTrans(Run(ops[..n]), Run(init), Run(ops));
    }
  }

  // ---- who uses the builder after destroy ---------------------------------------------------------

  /** No thread has anything left to do with the builder. */
  predicate AllGone(w: World) {
    forall k :: 0 <= k < |w.threads| ==> w.threads[k].Gone?
  }

  predicate SomeLogging(w: World) {
    exists k :: 0 <= k < |w.threads| && w.threads[k].Logging?
  }

  /** From its check on, destroy only competes with reloads that have committed and still write to the log. */
  lemma GoneOrLogging(w: World, k: nat)
    requires Reachable(w) && !w.destroyer.Waiting? && k < |w.threads|
    ensures w.threads[k].Gone? || w.threads[k].Logging?
  {
    hide Sum;
    ReachableInv(w);
    NoReloads(w);
    if Leases(w.threads[k]) { SumAt(w.threads, LeaseOn(w.threads[k].g), k); }
    SumAt(w.threads, Reclaims(), k);
  }

  lemma GoneStep(w: World, op: Op)
    requires w.b.shuttingDown && AllGone(w)
    ensures Next(w, op).b.shuttingDown && AllGone(Next(w, op))
  {
    hide RemoveFirst, Drained;
  }

  lemma {:induction false} GoneForever(ops: seq<Op>, more: seq<Op>)
    requires Run(ops).b.shuttingDown && AllGone(Run(ops))
    ensures Run(ops + more).b.shuttingDown && AllGone(Run(ops + more))
  {
    hide Next, AllGone;
    if more == [] {
      assert ops + more == ops;
    } else {
      var init := more[..|more| - 1];
      GoneForever(ops, init);
      assert ops + more == ops + init + [more[|more| - 1]];
      RunOne(ops + init, more[|more| - 1]);
      GoneStep(Run(ops + init), more[|more| - 1]);
    }
  }

  lemma RunOne(ops: seq<Op>, op: Op)
    ensures Run(ops + [op]) == Next(Run(ops), op)
  {
    assert (ops + [op])[..|ops|] == ops;
  }

  /** Nothing waits for a thread that writes to the log. */
  lemma TornDown(ops: seq<Op>)
    requires Run(ops).destroyer.Passed?
    ensures var w := Run(ops + [DetachAll(true)] + [TearOne] + [TearOne]);
            w.destroyer.Done? && w.threads == Run(ops).threads
  {
    hide Run, Sum, OwnedOnce, RefsOk, ThreadsOk, CountsOk, ControllerOk;
    RunInv(ops);
    RunOne(ops, DetachAll(true));
    RunOne(ops + [DetachAll(true)], TearOne);
    RunOne(ops + [DetachAll(true)] + [TearOne], TearOne);
    var w := Run(ops);
    assert Detach(w.b).0 == [w.b.current.value];
  }

  /**
   When destroy has passed its check: in every continuation of the run, no thread uses the builder any more once
   destroy has finished, exactly if no reload that has committed is still about to write to the log.
   */
  lemma DestroyIsLastIff(ops: seq<Op>)
    requires Run(ops).destroyer.Passed?
    ensures (forall more :: Run(ops + more).destroyer.Done? ==> AllGone(Run(ops + more))) <==> !SomeLogging(Run(ops))
  {
    hide Run, AllGone, SomeLogging;
    var w := Run(ops);
    if SomeLogging(w) {
      var more := [DetachAll(true)] + [TearOne] + [TearOne];
      assert ops + more == ops + [DetachAll(true)] + [TearOne] + [TearOne];
      TornDown(ops);
      StillLogging(w, Run(ops + more));
    } else {
      NobodyLeft(ops);
      forall more
        ensures AllGone(Run(ops + more))
      {
        GoneForever(ops, more);
      }
    }
  }

  lemma StillLogging(w: World, w': World)
    requires SomeLogging(w) && w'.threads == w.threads
    ensures !AllGone(w')
  {
  }

  lemma NobodyLeft(ops: seq<Op>)
    requires Run(ops).destroyer.Passed? && !SomeLogging(Run(ops))
    ensures AllGone(Run(ops)) && Run(ops).b.shuttingDown
  {
    hide Run, Sum;
    var w := Run(ops);
    RunInv(ops);
    forall k | 0 <= k < |w.threads|
      ensures w.threads[k].Gone?
    {
      GoneOrLogging(w, k);
    }
  }

  /** And that happens: a reload commits and gives up its lease, and destroy overtakes it. */
  lemma ReloaderOvertaken()
    ensures exists ops :: Run(ops).destroyer.Passed? && SomeLogging(Run(ops))
  {
    hide Run, Next;
    var o1 := [BeginReload];
    var o2 := o1 + [Build(0, true)];
    var o3 := o2 + [Op.Release(0)];
    var o4 := o3 + [Reclaim(0)];
    var o5 := o4 + [EndReclaim(0)];
    var o6 := o5 + [RequestShutdown];
    FirstState();
    assert [] + [BeginReload] == o1;
    RunOne([], BeginReload);
    RunOne(o1, Build(0, true));
    RunOne(o2, Op.Release(0));
    RunOne(o3, Reclaim(0));
    RunOne(o4, EndReclaim(0));
    RunOne(o5, RequestShutdown);
    RunOne(o6, Drain);
    ReloadCommits();
    LeaseGivenUp();
    CheckPasses();
    assert Run(o6 + [Drain]).threads[0].Logging?;
  }

  lemma FirstState()
    ensures Run([]) == Threads.Init()
  {
  }

  function Scene(gens: seq<Gen>, current: nat, retired: seq<nat>, reloading: bool, reclaims: nat, id: nat, t: Thread,
                 destroyed: seq<nat>): World
  {
    World(Builder(gens, Some(current), retired, false, reloading, reclaims, id), [t], Waiting,
          Controller(Running, 0, INITIAL_ID, None), destroyed)
  }

  const LEASED: seq<Gen> := [Gen(1, 1, false), Gen(2, 0, false)]
  const RETIRED: seq<Gen> := [Gen(1, 1, true), Gen(2, 0, false)]
  const FREED: seq<Gen> := [Gen(1, 0, true), Gen(2, 0, false)]

  lemma ReloadCommits()
    ensures Next(Threads.Init(), BeginReload) == Scene(LEASED, 0, [], true, 0, 1, Preparing(0, 1), [0, 0])
    ensures Next(Scene(LEASED, 0, [], true, 0, 1, Preparing(0, 1), [0, 0]), Build(0, true)) ==
              Scene(RETIRED, 1, [0], false, 0, 2, Committed(0), [0, 0])
  {
    var w := Next(Threads.Init(), BeginReload);
    assert w.b.gens == LEASED && w.threads == [Preparing(0, 1)] && w.destroyed == [0, 0];
    var v := Next(Scene(LEASED, 0, [], true, 0, 1, Preparing(0, 1), [0, 0]), Build(0, true));
    assert v.b.gens == RETIRED && v.threads == [Committed(0)] && v.b.retired == [0];
  }

  lemma LeaseGivenUp()
    ensures Next(Scene(RETIRED, 1, [0], false, 0, 2, Committed(0), [0, 0]), Op.Release(0)) ==
              Scene(FREED, 1, [], false, 1, 2, Reclaiming(0, Logs), [0, 0])
    ensures Next(Scene(FREED, 1, [], false, 1, 2, Reclaiming(0, Logs), [0, 0]), Reclaim(0)) ==
              Scene(FREED, 1, [], false, 1, 2, Reclaimed(Logs), [1, 0])
    ensures Next(Scene(FREED, 1, [], false, 1, 2, Reclaimed(Logs), [1, 0]), EndReclaim(0)) ==
              Scene(FREED, 1, [], false, 0, 2, Logging, [1, 0])
  {
    var w := Next(Scene(RETIRED, 1, [0], false, 0, 2, Committed(0), [0, 0]), Op.Release(0));
    assert w.b.gens == FREED && w.threads == [Reclaiming(0, Logs)] && w.b.retired == [];
    var v := Next(Scene(FREED, 1, [], false, 1, 2, Reclaiming(0, Logs), [0, 0]), Reclaim(0));
    assert v.threads == [Reclaimed(Logs)] && v.destroyed == [1, 0];
  }

  lemma CheckPasses()
    ensures var w := Next(Next(Scene(FREED, 1, [], false, 0, 2, Logging, [1, 0]), RequestShutdown), Drain);
            w.destroyer.Passed? && w.threads == [Logging]
  {
    assert RefsOf(FREED, []) == 0 && RefsOf(FREED, [1]) == 0 && [1] + [] == [1];
  }
}
