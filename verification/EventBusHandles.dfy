/**
 What becomes of the handle of a slot over a run: its generation counts how often the slot has been closed, and
 nothing else changes it.
 */
module EventBusHandles {
  import opened Common
  import opened EventBusCore
  import opened EventBusInvariant
  import opened EventBusSections
  import opened EventBusWorld
  import opened EventBusTheorems

  predicate Matches(c: Core, h: Handle) {
    h.slot < |c.slots| && c.slots[h.slot].generation == h.generation
  }

  /** The step hands slot i back: an unsubscribe finds nothing in flight, at once or when it wakes up. */
  predicate Closes(w: World, step: Step, i: nat)
    requires |w.core.slots| == SLOTS && i < SLOTS
  {
    && w.core.slots[i].inflight == 0
    && match step
       case Unsubscribe(h, _) => h.slot == i && Matches(w.core, h) && i !in w.leaving
       case UnsubscribeWake(slot, _) => slot == i && i in w.leaving
       case _ => false
  }

  ghost predicate SameGenerations(c: Core, c': Core) {
    |c'.slots| == |c.slots| && forall i :: 0 <= i < |c.slots| ==> c'.slots[i].generation == c.slots[i].generation
  }

  lemma SameFromSubscriptions(c: Core, c': Core)
    requires SameSubscriptions(c, c')
    ensures SameGenerations(c, c')
  {
    assert forall i :: 0 <= i < |c.slots| ==> SameIdentity(c.slots[i], c'.slots[i]);
  }

  lemma RetiredSlots(c: Core, i: nat)
    requires i < |c.slots|
    ensures var r := Retire(c, i).slots;
            && |r| == |c.slots| && r[i].generation == NextGeneration(c.slots[i].generation)
            && forall j :: 0 <= j < |c.slots| && j != i ==> r[j] == c.slots[j]
  {
    hide NextGeneration;
  }

  lemma UnsubscribeGeneration(w: World, h: Handle, patient: bool, i: nat)
    requires WorldInv(w) && i < SLOTS == |w.core.slots|
    ensures var c' := UnsubscribeStep(w, h, patient).core;
            && |c'.slots| == SLOTS
            && c'.slots[i].generation == if Closes(w, Step.Unsubscribe(h, patient), i)
                                         then NextGeneration(w.core.slots[i].generation) else w.core.slots[i].generation
  {
    hide CoreInv, ThreadsOk, LeavingOk, ClosedOk, FlyingOk, TotalLoad, Deactivate, Retire, NextGeneration;
    if Matches(w.core, h) && h.slot !in w.leaving {
      DeactivateInv(w.core, TotalLoad(w.threads), h.slot);
      RetiredSlots(Deactivate(w.core, h.slot), h.slot);
    }
  }

  lemma WakeGeneration(w: World, slot: nat, timedOut: bool, i: nat)
    requires i < SLOTS == |w.core.slots|
    ensures var c' := UnsubscribeWakeStep(w, slot, timedOut).core;
            && |c'.slots| == SLOTS
            && c'.slots[i].generation == if Closes(w, UnsubscribeWake(slot, timedOut), i)
                                         then NextGeneration(w.core.slots[i].generation) else w.core.slots[i].generation
  {
    hide Retire, NextGeneration;
    if slot in w.leaving && slot < SLOTS { RetiredSlots(w.core, slot); }
  }

  lemma SubscribeGeneration(c: Core, load: Load, topic: Option<Topic>, handler: nat, policy: Option<Policy>, capacity: nat)
    requires CoreInv(c, load)
    ensures SameGenerations(c, EventBusCore.Subscribe(c, topic, handler, policy, capacity).2)
  {
    hide CoreInv, DirAdd, EventBusCore.Subscribe;
    SubscribeInv(c, load, topic, handler, policy, capacity);
  }

  lemma PublishGeneration(w: World, ev: Event)
    requires WorldInv(w)
    ensures SameGenerations(w.core, PublishStep(w, ev).core)
  {
    hide CoreInv, ThreadsOk, LeavingOk, ClosedOk, FlyingOk, TotalLoad, PublishFrom, Matching, SameSubscriptions, Announce;
    if !w.core.shuttingDown {
      AnnounceSlots(w.core, ev);
      if w.core.mode == Async {
        var c1, e, subs, load := Announce(w.core, ev), |w.core.log|, Matching(w.core, ev.topic), TotalLoad(w.threads);
        AnnounceStep(w, ev);
        PublishInv(c1, load.(held := load.held + multiset{e}), e, subs, 0, Ok);
        SameFromSubscriptions(c1, PublishFrom(c1, e, subs, 0, Ok).0);
      }
    }
  }

  lemma ResumeGeneration(w: World, k: nat, timedOut: bool)
    requires WorldInv(w)
    ensures SameGenerations(w.core, PublishWakeStep(w, k, timedOut).core)
  {
    hide CoreInv, ThreadsOk, LeavingOk, ClosedOk, FlyingOk, TotalLoad, Resume, SameSubscriptions;
    if k < |w.threads| && w.threads[k].Waiting? {
      var t, load := w.threads[k], TotalLoad(w.threads);
      ThreadAt(w.core, w.threads, k);
      LoadSplit(w.threads, k, t);
      WakeLoads(Others(w.threads, k), load, t, t.subs, t.at, w.core.mode) by { assert FlyingOk(w.core.mode, load); }
      ResumeInv(w.core, load, t.env, t.subs, t.at, timedOut);
      SameFromSubscriptions(w.core, Resume(w.core, t.env, t.subs, t.at, timedOut).0);
    }
  }

  lemma ServiceGeneration(w: World, step: Step)
    requires |w.core.slots| == SLOTS
    requires step.Poll? || step.Finish? || step.TakeSnapshot? || step.Delivered? || step.Shutdown?
    ensures SameGenerations(w.core, Next(w, step).core)
  {
    hide ReadyPop, ReadyPush, ReleaseRef, Snapshot, Matching;
  }

  /** A step that closes a slot moves its generation on by one; no other step changes it. */
  lemma GenerationStep(w: World, step: Step, i: nat)
    requires WorldInv(w) && i < SLOTS == |w.core.slots|
    ensures |Next(w, step).core.slots| == SLOTS
    ensures Next(w, step).core.slots[i].generation ==
              if Closes(w, step, i) then NextGeneration(w.core.slots[i].generation) else w.core.slots[i].generation
  {
    hide UnsubscribeStep, UnsubscribeWakeStep, PublishStep, PublishWakeStep, PollStep, FinishStep, SnapshotStep,
      DeliveredStep, EventBusCore.Subscribe, NextGeneration;
    hide CoreInv, ThreadsOk, LeavingOk, ClosedOk, FlyingOk, TotalLoad;
    match step
    case Subscribe(topic, handler, policy, capacity) =>
      SubscribeGeneration(w.core, TotalLoad(w.threads), topic, handler, policy, capacity);
    case Unsubscribe(h, patient) => UnsubscribeGeneration(w, h, patient, i);
    case UnsubscribeWake(slot, timedOut) => WakeGeneration(w, slot, timedOut, i);
    case Publish(ev) => PublishGeneration(w, ev);
    case PublishWake(k, timedOut) => ResumeGeneration(w, k, timedOut);
    case _ => ServiceGeneration(w, step);
  }

  predicate ClosesAt(mode: Mode, workers: nat, capacity: nat, steps: seq<Step>, n: nat, i: nat)
    requires n < |steps|
  {
    var w := Run(mode, workers, capacity, steps[..n]);
    |w.core.slots| == SLOTS && i < SLOTS && Closes(w, steps[n], i)
  }

  /** How often the run closes slot i from step n on. */
  function Closings(mode: Mode, workers: nat, capacity: nat, steps: seq<Step>, n: nat, i: nat): nat
    requires n <= |steps|
    decreases |steps|
  {
    if n == |steps| then 0
    else
      var last := |steps| - 1;
      Closings(mode, workers, capacity, steps[..last], n, i) + if ClosesAt(mode, workers, capacity, steps, last, i) then 1 else 0
  }

  lemma {:induction false} GenerationOverRun(mode: Mode, workers: nat, capacity: nat, steps: seq<Step>, n: nat, i: nat)
    requires n <= |steps| && i < SLOTS
    ensures var w, w' := Run(mode, workers, capacity, steps[..n]), Run(mode, workers, capacity, steps);
            && |w.core.slots| == SLOTS == |w'.core.slots|
            && w'.core.slots[i].generation ==
                 Generations(w.core.slots[i].generation, Closings(mode, workers, capacity, steps, n, i))
    decreases |steps|
  {
    hide WorldInv, Next, Init, Closes, NextGeneration;
    RunInv(mode, workers, capacity, steps[..n]);
    InvSlots(Run(mode, workers, capacity, steps[..n]));
    if n == |steps| {
      assert steps[..n] == steps;
    } else {
      var shorter := steps[..|steps| - 1];
      assert shorter[..n] == steps[..n];
      GenerationOverRun(mode, workers, capacity, shorter, n, i);
      RunInv(mode, workers, capacity, shorter);
      GenerationStep(Run(mode, workers, capacity, shorter), steps[|steps| - 1], i);
    }
  }

  lemma GenerationRange(w: World, i: nat)
    requires WorldInv(w) && i < SLOTS == |w.core.slots|
    ensures 1 <= w.core.slots[i].generation <= 0xFFFF
  {
    hide CoreInv, TotalLoad, Deactivate;
    DeactivatedSlot(w.core, TotalLoad(w.threads), i);
  }

  /**
   A handle that was good at some point of a run is good at its end exactly if its slot has been closed a
   multiple of 65535 times since; otherwise an unsubscribe with it changes nothing.
   */
  lemma HandleAfterRun(mode: Mode, workers: nat, capacity: nat, steps: seq<Step>, n: nat, h: Handle, patient: bool)
    requires n <= |steps| && Matches(Run(mode, workers, capacity, steps[..n]).core, h)
    ensures var w := Run(mode, workers, capacity, steps);
            && |w.core.slots| == SLOTS
            && (Matches(w.core, h) <==> Closings(mode, workers, capacity, steps, n, h.slot) % 0xFFFF == 0)
            && (!Matches(w.core, h) ==> UnsubscribeStep(w, h, patient) == w)
  {
    hide Run, WorldInv, Closings, Generations;
    var w := Run(mode, workers, capacity, steps[..n]);
    RunInv(mode, workers, capacity, steps[..n]);
    InvSlots(w);
    GenerationOverRun(mode, workers, capacity, steps, n, h.slot);
    GenerationRange(w, h.slot);
    StaleHandle(h.generation, Closings(mode, workers, capacity, steps, n, h.slot));
  }
}
