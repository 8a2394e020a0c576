/**
 All threads that use the generations of one builder: lease clients, among them the runs of a runtime
 controller, reloads, and a destroyer. A step is one locked region, or one destruction outside the lock.
 */
module GenerationWorld {
  import opened Common
  import Core = GenerationCore
  import opened GenerationCore

  /** What a thread still has to do when it has given up its lease; a reload that has committed writes to the log. */
  datatype After = Leave | EndsReload | Logs

  datatype Thread =
    | Holding(g: nat)
    | Submitting(g: nat)
    | Active(g: nat, run: nat)
    | Finished(g: nat)
    | Preparing(g: nat, built: nat)
    | Failing(g: nat)
    | Committed(g: nat)
    | Reclaiming(dead: nat, after: After)
    | Reclaimed(after: After)
    | Ending
    | Logging
    | Gone

  /** Tearing lists the generations that destroy has detached and not yet freed. */
  datatype Destroyer = Waiting | Passed | Tearing(todo: seq<nat>) | Done

  datatype Lifecycle = Running | Draining | Stopped

  /** run is 0 when no run is active; generation is the id that late stream events are compared with. */
  datatype Controller = Controller(lifecycle: Lifecycle, run: nat, generation: nat, cancel: Option<nat>)

  /** History: destroyed[g] counts how often a generation was destroyed. */
  datatype World = World(
    b: Builder,
    threads: seq<Thread>,
    destroyer: Destroyer,
    controller: Controller,
    destroyed: seq<nat>)

  datatype Op =
    | Acquire
    | Release(thread: nat)
    | Reclaim(thread: nat)
    | EndReclaim(thread: nat)
    | BeginReload
    | Build(thread: nat, ok: bool)
    | EndReload(thread: nat)
    | Log(thread: nat)
    | RequestShutdown
    | Drain
    | DetachAll(busOk: bool)
    | TearOne
    | Submit
    | Admit(thread: nat, run: nat)
    | Complete(thread: nat)
    | StopController
    | StoppedController

  function Init(): World {
    World(Core.Init(), [], Waiting, Controller(Running, 0, INITIAL_ID, None), [0])
  }

  function Set(w: World, k: nat, t: Thread): World
    requires k < |w.threads|
  {
    w.(threads := w.threads[k := t])
  }

  predicate CanRelease(t: Thread) {
    t.Holding? || t.Finished? || t.Failing? || t.Committed?
  }

  function AfterRelease(t: Thread): After {
    if t.Failing? then EndsReload else if t.Committed? then Logs else Leave
  }

  function GoOn(after: After): Thread {
    match after
    case Leave => Gone
    case EndsReload => Ending
    case Logs => Logging
  }

  function ReleaseStep(w: World, k: nat): World {
    if k >= |w.threads| || !CanRelease(w.threads[k]) || w.threads[k].g >= |w.b.gens| then w
    else
      var t := w.threads[k];
      var (destroy, b) := Core.Release(w.b, t.g);
      Set(w, k, if destroy then Reclaiming(t.g, AfterRelease(t)) else GoOn(AfterRelease(t))).(b := b)
  }

  function Destroy(w: World, g: nat): World {
    if g >= |w.destroyed| then w else w.(destroyed := w.destroyed[g := w.destroyed[g] + 1])
  }

  /** The reloader's build fails, or it commits, or it finds that it must not commit. */
  function BuildStep(w: World, k: nat, ok: bool): World {
    if k >= |w.threads| || !w.threads[k].Preparing? then w
    else
      var t := w.threads[k];
      if t.g >= |w.b.gens| || t.built >= |w.b.gens| then w
      else if ok && CanCommit(w.b, t.g) then
        Set(w, k, Committed(t.g)).(b := Commit(w.b, t.g, t.built))
      else Destroy(Set(w, k, Failing(t.g)), t.built)
  }

  function BeginReloadStep(w: World): World {
    var (base, b) := Core.BeginReload(w.b);
    if base.None? || base.value >= |w.b.gens| then w
    else
      w.(b := b.(gens := b.gens + [Gen(w.b.gens[base.value].id + 1, 0, false)]),
         threads := w.threads + [Preparing(base.value, |w.b.gens|)],
         destroyed := w.destroyed + [0])
  }

  /** The controller's locked region at the start of a run. */
  function AdmitStep(w: World, k: nat, run: nat): World {
    if k >= |w.threads| || !w.threads[k].Submitting? || w.threads[k].g >= |w.b.gens| || run == 0 then w
    else
      var g := w.threads[k].g;
      if w.controller.lifecycle != Running || w.controller.run != 0 then Set(w, k, Holding(g))
      else Set(w, k, Active(g, run)).(controller :=
             w.controller.(run := run, generation := w.b.gens[g].id, cancel := Some(run)))
  }

  /** The controller's locked region at the end of a run. */
  function CompleteStep(w: World, k: nat): World {
    if k >= |w.threads| || !w.threads[k].Active? then w
    else
      var t := w.threads[k];
      var c := if w.controller.run == t.run then w.controller.(run := 0, cancel := None) else w.controller;
      Set(w, k, Finished(t.g)).(controller := c)
  }

  function Next(w: World, op: Op): World {
    match op
    case Acquire =>
      var (g, b) := Core.Acquire(w.b);
      if g.None? then w else w.(b := b, threads := w.threads + [Holding(g.value)])
    case Submit =>
      var (g, b) := Core.Acquire(w.b);
      if g.None? then w else w.(b := b, threads := w.threads + [Submitting(g.value)])
    case Release(k) => ReleaseStep(w, k)
    case Reclaim(k) =>
      if k >= |w.threads| || !w.threads[k].Reclaiming? then w
      else Destroy(Set(w, k, Reclaimed(w.threads[k].after)), w.threads[k].dead)
    case EndReclaim(k) =>
      if k >= |w.threads| || !w.threads[k].Reclaimed? then w
      else Set(w, k, GoOn(w.threads[k].after)).(b := ReclaimDone(w.b))
    case BeginReload => BeginReloadStep(w)
    case Build(k, ok) => BuildStep(w, k, ok)
    case EndReload(k) =>
      if k >= |w.threads| || !w.threads[k].Ending? then w else Set(w, k, Gone).(b := Core.EndReload(w.b))
    case Log(k) => if k >= |w.threads| || !w.threads[k].Logging? then w else Set(w, k, Gone)
    case RequestShutdown => w.(b := w.b.(shuttingDown := true))
    case Drain =>
      if w.destroyer.Waiting? && w.b.shuttingDown && Drained(w.b) then w.(destroyer := Passed) else w
    case DetachAll(busOk) =>
      if !w.destroyer.Passed? then w
      else if !busOk then w.(destroyer := Waiting)
      else
        var (todo, b) := Detach(w.b);
        w.(b := b, destroyer := Tearing(todo))
    case TearOne =>
      if !w.destroyer.Tearing? then w
      else if w.destroyer.todo == [] then w.(destroyer := Done)
      else Destroy(w.(destroyer := Tearing(w.destroyer.todo[1..])), w.destroyer.todo[0])
    case Admit(k, run) => AdmitStep(w, k, run)
    case Complete(k) => CompleteStep(w, k)
    case StopController =>
      if w.controller.lifecycle == Stopped then w
      else w.(controller := w.controller.(lifecycle := Draining))
    case StoppedController =>
      if w.controller.lifecycle == Draining && w.controller.run == 0 then
        w.(controller := w.controller.(lifecycle := Stopped))
      else w
  }
}
