/**
 The generation bookkeeping of the runtime builder: which runtime generation is current, which ones are
 retired but still leased, and what the builder's mutex protects. One function per locked region.

 A generation is identified by its position in `gens`, which lists every generation ever allocated.
 */
module GenerationCore {
  import opened Common

  datatype Gen = Gen(id: nat, refs: nat, retired: bool)

  /** `retired` is the linked list of retired generations, head first. */
  datatype Builder = Builder(
    gens: seq<Gen>,
    current: Option<nat>,
    retired: seq<nat>,
    shuttingDown: bool,
    reloading: bool,
    reclaims: nat,
    reloadGeneration: nat)

  const INITIAL_ID: nat := 1

  function Init(): Builder {
    Builder([Gen(INITIAL_ID, 0, false)], Some(0), [], false, false, 0, INITIAL_ID)
  }

  function Retain(b: Builder, g: nat): Builder
    requires g < |b.gens|
  {
    b.(gens := b.gens[g := b.gens[g].(refs := b.gens[g].refs + 1)])
  }

  function Acquire(b: Builder): (r: (Option<nat>, Builder))
  {
    if b.shuttingDown || b.current.None? || b.current.value >= |b.gens| then (None, b)
    else (b.current, Retain(b, b.current.value))
  }

  function RemoveFirst(list: seq<nat>, g: nat): seq<nat> {
    if list == [] then []
    else if list[0] == g then list[1..]
    else [list[0]] + RemoveFirst(list[1..], g)
  }

  /** Whether the caller has to destroy the generation, and the new state. */
  function Release(b: Builder, g: nat): (bool, Builder)
    requires g < |b.gens|
  {
    var refs := if b.gens[g].refs > 0 then b.gens[g].refs - 1 else 0;
    var b1 := b.(gens := b.gens[g := b.gens[g].(refs := refs)]);
    if refs == 0 && b.gens[g].retired then
      (true, b1.(retired := RemoveFirst(b.retired, g), reclaims := b.reclaims + 1))
    else (false, b1)
  }

  function ReclaimDone(b: Builder): Builder {
    b.(reclaims := if b.reclaims > 0 then b.reclaims - 1 else 0)
  }

  /** The base generation to build on, leased to the reloader, or an error. */
  function BeginReload(b: Builder): (Option<nat>, Builder) {
    if b.shuttingDown || b.reloading || b.current.None? || b.current.value >= |b.gens| then (None, b)
    else (b.current, Retain(b, b.current.value).(reloading := true))
  }

  predicate CanCommit(b: Builder, base: nat) {
    !b.shuttingDown && b.current == Some(base)
  }

  /** The new generation becomes current, the base one is retired. */
  function Commit(b: Builder, base: nat, next: nat): Builder
    requires base < |b.gens| && next < |b.gens|
  {
    b.(current := Some(next),
       reloadGeneration := b.gens[next].id,
       gens := b.gens[base := b.gens[base].(retired := true)],
       retired := [base] + b.retired,
       reloading := false)
  }

  function EndReload(b: Builder): Builder {
    b.(reloading := false)
  }

  function RefsOf(gens: seq<Gen>, list: seq<nat>): nat {
    if list == [] then 0
    else (if list[0] < |gens| then gens[list[0]].refs else 0) + RefsOf(gens, list[1..])
  }

  /** Destroy goes ahead only if nothing is leased, no reload runs, and no reclaim is under way. */
  predicate Drained(b: Builder) {
    && RefsOf(b.gens, (if b.current.Some? then [b.current.value] else []) + b.retired) == 0
    && !b.reloading
    && b.reclaims == 0
  }

  /** The generations that destroy has to free, and the state without them. */
  function Detach(b: Builder): (seq<nat>, Builder) {
    ((if b.current.Some? then [b.current.value] else []) + b.retired, b.(current := None, retired := []))
  }
}
