/**
 All threads of one event bus. A step is one critical section of one thread; between steps any other
 thread may run. Handlers run between the step that takes an event and the step that reports it back.
 A publisher that has to wait on a full mailbox is a thread of its own, so its sleep can be interleaved
 with every other step.
 */
module EventBusWorld {
  import opened Common
  import opened EventBusCore
  import opened EventBusInvariant
  import opened EventBusSections

  datatype Thread =
    | Idle
    | Serving(task: Task)
    | Exited
    | Waiting(env: EnvId, subs: set<nat>, at: PublishResult)
    | Announced(env: EnvId)
    | Delivering(env: EnvId, todo: seq<Task>)
    | Gone

  /**
   `leaving` are the slots on which an unsubscriber is waiting. History: `closed` are the serial numbers
   of the subscriptions whose unsubscribe has returned OK, `slept` says whether a publisher ever waited.
   */
  datatype World = World(core: Core, threads: seq<Thread>, leaving: set<nat>, closed: set<nat>, slept: bool)

  datatype Step =
    | Subscribe(topic: Option<Topic>, handler: nat, policy: Option<Policy>, capacity: nat)
    | Unsubscribe(handle: Handle, patient: bool)
    | UnsubscribeWake(slot: nat, timedOut: bool)
    | Publish(ev: Event)
    | PublishWake(thread: nat, timedOut: bool)
    | Poll(thread: nat)
    | Finish(thread: nat)
    | TakeSnapshot(thread: nat)
    | Delivered(thread: nat)
    | Shutdown

  function Init(mode: Mode, workers: nat, capacity: nat): World {
    World(InitCore(mode, capacity), if mode == Async then seq(workers, i => Idle) else [], {}, {}, false)
  }

  function Close(w: World, i: nat): World
    requires i < |w.core.slots|
  {
    w.(core := Retire(w.core, i),
       leaving := w.leaving - {i},
       closed := if w.core.slots[i].handler.Some? then w.closed + {w.core.slots[i].sub} else w.closed)
  }

  function UnsubscribeStep(w: World, h: Handle, patient: bool): World
    requires |w.core.slots| == SLOTS
  {
    if h.slot >= SLOTS || w.core.slots[h.slot].generation != h.generation || h.slot in w.leaving then w
    else
      var w1 := w.(core := Deactivate(w.core, h.slot));
      if |w1.core.slots| != SLOTS then w
      else if w1.core.slots[h.slot].inflight == 0 then Close(w1, h.slot)
      else if patient then w1.(leaving := w1.leaving + {h.slot})
      else w1
  }

  function UnsubscribeWakeStep(w: World, i: nat, timedOut: bool): World
    requires |w.core.slots| == SLOTS
  {
    if i !in w.leaving || i >= SLOTS then w
    else if w.core.slots[i].inflight == 0 then Close(w, i)
    else if timedOut then w.(leaving := w.leaving - {i})
    else w
  }

  function PublishStep(w: World, ev: Event): World
    requires |w.core.slots| == SLOTS
  {
    var e := |w.core.log|;
    if w.core.shuttingDown then w
    else if w.core.mode == Sync then
      w.(core := Announce(w.core, ev), threads := w.threads + [Announced(e)])
    else
      var subs := Matching(w.core, ev.topic);
      var (c, r) := PublishFrom(Announce(w.core, ev), e, subs, 0, Ok);
      if r.Done? then w.(core := c)
      else w.(core := c, threads := w.threads + [Waiting(e, subs, r)], slept := true)
  }

  function PublishWakeStep(w: World, k: nat, timedOut: bool): World
    requires |w.core.slots| == SLOTS
  {
    if k >= |w.threads| || !w.threads[k].Waiting? then w
    else
      var t := w.threads[k];
      if !t.at.Blocked? || t.at.slot >= SLOTS then w
      else
        var (c, r) := Resume(w.core, t.env, t.subs, t.at, timedOut);
        w.(core := c, threads := w.threads[k := if r.Done? then Gone else Waiting(t.env, t.subs, r)])
  }

  function PollStep(w: World, k: nat): World {
    if k >= |w.threads| || !w.threads[k].Idle? then w
    else
      var (t, c) := Take(w.core);
      if t.Some? then w.(core := c, threads := w.threads[k := Serving(t.value)])
      else if c.shuttingDown && c.ring == [] then w.(core := c, threads := w.threads[k := Exited])
      else w.(core := c)
  }

  function FinishStep(w: World, k: nat): World {
    if k >= |w.threads| || !w.threads[k].Serving? || w.threads[k].task.slot >= |w.core.slots| then w
    else w.(core := EventBusCore.Finish(w.core, w.threads[k].task), threads := w.threads[k := Idle])
  }

  function SnapshotStep(w: World, k: nat): World
    requires |w.core.slots| == SLOTS
  {
    if k >= |w.threads| || !w.threads[k].Announced? then w
    else
      var e := w.threads[k].env;
      if w.core.shuttingDown || e >= |w.core.log| then
        w.(core := Release(w.core, e), threads := w.threads[k := Gone])
      else
        var (ts, c) := EventBusCore.TakeSnapshot(w.core, e, Matching(w.core, w.core.log[e].topic));
        if ts == [] then w.(core := Release(c, e), threads := w.threads[k := Gone])
        else w.(core := c, threads := w.threads[k := Delivering(e, ts)])
  }

  function DeliveredStep(w: World, k: nat): World {
    if k >= |w.threads| || !w.threads[k].Delivering? || w.threads[k].todo == [] then w
    else
      var t := w.threads[k];
      if t.todo[0].slot >= |w.core.slots| then w
      else
        var c := SyncDelivered(w.core, t.todo[0]);
        if |t.todo| == 1 then w.(core := Release(c, t.env), threads := w.threads[k := Gone])
        else w.(core := c, threads := w.threads[k := Delivering(t.env, t.todo[1..])])
  }

  /** One step of one thread. The bus always has its 64 slots. */
  function Next(w: World, step: Step): World {
    if |w.core.slots| != SLOTS then w else match step
    case Subscribe(topic, handler, policy, capacity) =>
      w.(core := EventBusCore.Subscribe(w.core, topic, handler, policy, capacity).2)
    case Unsubscribe(h, patient) => UnsubscribeStep(w, h, patient)
    case UnsubscribeWake(i, timedOut) => UnsubscribeWakeStep(w, i, timedOut)
    case Publish(ev) => PublishStep(w, ev)
    case PublishWake(k, timedOut) => PublishWakeStep(w, k, timedOut)
    case Poll(k) => PollStep(w, k)
    case Finish(k) => FinishStep(w, k)
    case TakeSnapshot(k) => SnapshotStep(w, k)
    case Delivered(k) => DeliveredStep(w, k)
    case Shutdown => w.(core := w.core.(shuttingDown := true))
  }

  // ---- what the threads hold ----------------------------------------------------------------------

  const NO_LOAD: Load := Load(multiset{}, multiset{}, {}, 0)

  function Plus(a: Load, b: Load): Load {
    Load(a.held + b.held, a.flying + b.flying, a.busy + b.busy, a.open + b.open)
  }

  function LoadOf(t: Thread): Load {
    match t
    case Serving(task) => Load(multiset{task.env}, multiset{task.slot}, {task.slot}, 1)
    case Waiting(e, _, _) => Load(multiset{e}, multiset{}, {}, 1)
    case Announced(e) => Load(multiset{e}, multiset{}, {}, 0)
    case Delivering(e, todo) => Load(multiset{e}, TaskSlots(todo), {}, |todo|)
    case _ => NO_LOAD
  }

  function TotalLoad(ts: seq<Thread>): Load {
    if ts == [] then NO_LOAD else Plus(LoadOf(ts[0]), TotalLoad(ts[1..]))
  }

  /** The load of all threads but the k-th, which is what a step of thread k leaves alone. */
  function Others(ts: seq<Thread>, k: nat): Load
    requires k < |ts|
  {
    if k == 0 then TotalLoad(ts[1..]) else Plus(LoadOf(ts[0]), Others(ts[1..], k - 1))
  }

  lemma {:induction false} LoadSplit(ts: seq<Thread>, k: nat, t: Thread)
    requires k < |ts|
    ensures TotalLoad(ts) == Plus(Others(ts, k), LoadOf(ts[k]))
    ensures TotalLoad(ts[k := t]) == Plus(Others(ts, k), LoadOf(t))
  {
    hide Plus, LoadOf;
    var upd := ts[k := t];
    if k == 0 {
      assert upd[1..] == ts[1..];
      PlusComm(LoadOf(ts[0]), TotalLoad(ts[1..]));
      PlusComm(LoadOf(t), TotalLoad(ts[1..]));
    } else {
      assert upd[1..] == ts[1..][k - 1 := t];
      LoadSplit(ts[1..], k - 1, t);
      PlusAssoc(LoadOf(ts[0]), Others(ts[1..], k - 1), LoadOf(ts[k]));
      PlusAssoc(LoadOf(ts[0]), Others(ts[1..], k - 1), LoadOf(t));
    }
  }

  lemma {:induction false} LoadAppend(ts: seq<Thread>, t: Thread)
    ensures TotalLoad(ts + [t]) == Plus(TotalLoad(ts), LoadOf(t))
  {
    hide Plus, LoadOf;
    if ts == [] {
      assert ts + [t] == [t];
      PlusComm(LoadOf(t), NO_LOAD);
    } else {
      assert (ts + [t])[1..] == ts[1..] + [t];
      LoadAppend(ts[1..], t);
      PlusAssoc(LoadOf(ts[0]), TotalLoad(ts[1..]), LoadOf(t));
    }
  }

  lemma PlusComm(a: Load, b: Load)
    ensures Plus(a, b) == Plus(b, a)
  {
  }

  lemma PlusAssoc(a: Load, b: Load, c: Load)
    ensures Plus(a, Plus(b, c)) == Plus(Plus(a, b), c)
  {
  }

  // ---- the invariant of the whole system ----------------------------------------------------------

  predicate TaskOk(c: Core, t: Task) {
    && t.slot < |c.slots|
    && c.slots[t.slot].generation == t.generation
    && c.slots[t.slot].sub == t.sub
    && c.slots[t.slot].handler == t.handler
    && t.handler.Some?
  }

  ghost predicate ThreadOk(c: Core, t: Thread) {
    match t
    case Serving(task) => c.mode == Async && TaskOk(c, task)
    case Waiting(_, _, at) => c.mode == Async && at.Blocked? && at.slot < SLOTS
    case Idle => c.mode == Async
    case Exited => c.mode == Async
    case Announced(_) => c.mode == Sync
    case Delivering(e, todo) =>
      c.mode == Sync && todo != [] && forall k :: 0 <= k < |todo| ==> TaskOk(c, todo[k]) && todo[k].env == e
    case Gone => true
  }

  ghost predicate ThreadsOk(c: Core, ts: seq<Thread>) {
    forall k :: 0 <= k < |ts| ==> ThreadOk(c, ts[k])
  }

  /** A worker serves a slot alone; synchronous publishers never make a slot busy. */
  ghost predicate FlyingOk(mode: Mode, load: Load) {
    && (mode == Async ==> forall i :: load.flying[i] == if i in load.busy then 1 else 0)
    && (mode == Sync ==> load.busy == {})
  }

  ghost predicate LeavingOk(c: Core, leaving: set<nat>) {
    forall i :: i in leaving ==> i < |c.slots| && !c.slots[i].active && c.slots[i].handler.Some?
  }

  /** No slot still belongs to a subscription whose unsubscribe returned OK. */
  ghost predicate ClosedOk(c: Core, closed: set<nat>) {
    && (forall s :: s in closed ==> s < c.nextSub)
    && (forall i :: 0 <= i < |c.slots| && c.slots[i].handler.Some? ==> c.slots[i].sub !in closed)
  }

  ghost predicate WorldInv(w: World) {
    && CoreInv(w.core, TotalLoad(w.threads))
    && |w.core.slots| == SLOTS
    && ThreadsOk(w.core, w.threads)
    && FlyingOk(w.core.mode, TotalLoad(w.threads))
    && LeavingOk(w.core, w.leaving)
    && ClosedOk(w.core, w.closed)
  }

  lemma {:induction false} NoThreadLoad(ts: seq<Thread>)
    requires forall k :: 0 <= k < |ts| ==> ts[k] == Idle
    ensures TotalLoad(ts) == NO_LOAD
  {
    if ts != [] { NoThreadLoad(ts[1..]); }
  }

  lemma InitWorld(mode: Mode, workers: nat, capacity: nat)
    ensures WorldInv(Init(mode, workers, capacity))
  {
    hide CoreInv, TotalLoad, InitCore;
    InitInv(mode, capacity);
    NoThreadLoad(Init(mode, workers, capacity).threads);
    InitFrame(mode, capacity);
  }

  lemma InitFrame(mode: Mode, capacity: nat)
    ensures var c := InitCore(mode, capacity);
            c.mode == mode && |c.slots| == SLOTS && forall i :: 0 <= i < |c.slots| ==> c.slots[i].handler == None
  {
  }

  // ---- facts that survive a step of another thread ------------------------------------------------

  lemma ThreadsKept(c: Core, c': Core, ts: seq<Thread>)
    requires ThreadsOk(c, ts) && SameSubscriptions(c, c')
    ensures ThreadsOk(c', ts)
  {
    forall k | 0 <= k < |ts| ensures ThreadOk(c', ts[k]) {
      assert ThreadOk(c, ts[k]);
    }
  }

  lemma OwnersSurvive(c: Core, c': Core, leaving: set<nat>, closed: set<nat>)
    requires LeavingOk(c, leaving) && ClosedOk(c, closed) && SameSubscriptions(c, c')
    ensures LeavingOk(c', leaving) && ClosedOk(c', closed)
  {
    assert forall i :: 0 <= i < |c.slots| ==> SameIdentity(c.slots[i], c'.slots[i]);
  }

  // ---- every step keeps the invariant -------------------------------------------------------------

  lemma InstallThreads(c: Core, i: nat, s: Slot, ts: seq<Thread>, leaving: set<nat>, closed: set<nat>)
    requires i < |c.slots| && Free(c.slots[i]) && s.sub == c.nextSub
    requires ThreadsOk(c, ts) && LeavingOk(c, leaving) && ClosedOk(c, closed)
    ensures var c' := Install(c, i, s); ThreadsOk(c', ts) && LeavingOk(c', leaving) && ClosedOk(c', closed)
  {
    hide DirAdd;
    var c' := Install(c, i, s);
    forall k | 0 <= k < |ts| ensures ThreadOk(c', ts[k]) {
      assert ThreadOk(c, ts[k]);
    }
  }

  lemma SubscribeStepInv(w: World, topic: Option<Topic>, handler: nat, policy: Option<Policy>, capacity: nat)
    requires WorldInv(w)
    ensures WorldInv(Next(w, Step.Subscribe(topic, handler, policy, capacity)))
  {
    hide CoreInv, TotalLoad, ThreadsOk, LeavingOk, ClosedOk, FlyingOk, Install;
    var c := w.core;
    SubscribeInv(c, TotalLoad(w.threads), topic, handler, policy, capacity);
    var (status, h, c') := EventBusCore.Subscribe(c, topic, handler, policy, capacity);
    if status == Ok {
      var s := NewSubscription(c, c.slots[h.slot], topic, handler, policy, capacity);
      InstallThreads(c, h.slot, s, w.threads, w.leaving, w.closed);
      InstallFrame(c, h.slot, s);
    }
  }

  lemma InstallFrame(c: Core, i: nat, s: Slot)
    requires i < |c.slots|
    ensures |Install(c, i, s).slots| == |c.slots| && Install(c, i, s).mode == c.mode
  {
  }

  lemma UnsubscribeStepInv(w: World, h: Handle, patient: bool)
    requires WorldInv(w)
    ensures WorldInv(UnsubscribeStep(w, h, patient))
  {
    if h.slot < SLOTS && w.core.slots[h.slot].generation == h.generation && h.slot !in w.leaving {
      hide CoreInv, TotalLoad, ThreadsOk, LeavingOk, ClosedOk, FlyingOk, Deactivate, Close;
      var i, load := h.slot, TotalLoad(w.threads);
      DeactivateInv(w.core, load, i);
      DeactivateThreads(w, i);
      var w1 := w.(core := Deactivate(w.core, i));
      SlotFacts(w1.core, load, i);
      if w1.core.slots[i].inflight == 0 {
        CloseInv(w1, i);
      } else {
        LeavingAdd(w1.core, w1.leaving, i);
      }
    }
  }

  lemma LeavingAdd(c: Core, leaving: set<nat>, i: nat)
    requires LeavingOk(c, leaving) && i < |c.slots| && !c.slots[i].active && c.slots[i].handler.Some?
    ensures LeavingOk(c, leaving + {i})
  {
  }

  lemma DeactivateThreads(w: World, i: nat)
    requires |w.core.slots| == SLOTS && i < SLOTS
    requires Deactivate(w.core, i).slots == w.core.slots[i := w.core.slots[i].(active := false, mailbox := [])]
    requires ThreadsOk(w.core, w.threads) && LeavingOk(w.core, w.leaving) && ClosedOk(w.core, w.closed)
    ensures var c' := Deactivate(w.core, i);
            && ThreadsOk(c', w.threads) && LeavingOk(c', w.leaving) && ClosedOk(c', w.closed)
            && c'.mode == w.core.mode && |c'.slots| == SLOTS
  {
    hide DirRemove, Without;
    var c' := Deactivate(w.core, i);
    ReleaseAllFrame(w.core, w.core.slots[i].mailbox);
    forall k | 0 <= k < |w.threads| ensures ThreadOk(c', w.threads[k]) {
      assert ThreadOk(w.core, w.threads[k]);
    }
  }

  lemma {:induction false} ReleaseAllFrame(c: Core, es: seq<EnvId>)
    ensures ReleaseAll(c, es) == c.(refs := ReleaseAll(c, es).refs, faults := ReleaseAll(c, es).faults)
    decreases |es|
  {
    if es != [] { ReleaseAllFrame(Release(c, es[0]), es[1..]); }
  }

  lemma RetireThreads(c: Core, i: nat, ts: seq<Thread>)
    requires i < |c.slots| && i !in TotalLoad(ts).flying && ThreadsOk(c, ts)
    ensures ThreadsOk(Retire(c, i), ts)
  {
    hide TotalLoad, TaskOk, Retire, NextGeneration;
    var c' := Retire(c, i);
    NoTaskAt(ts, i);
    assert c'.mode == c.mode by { RetireTask(c, i, Task(i, 0, None, 0, 0)); }
    forall k | 0 <= k < |ts| ensures ThreadOk(c', ts[k]) {
      assert ThreadOk(c, ts[k]);
      if ts[k].Serving? { RetireTask(c, i, ts[k].task); }
      if ts[k].Delivering? {
        forall l | 0 <= l < |ts[k].todo| ensures TaskOk(c', ts[k].todo[l]) { RetireTask(c, i, ts[k].todo[l]); }
      }
    }
  }

  lemma RetireTask(c: Core, i: nat, t: Task)
    requires i < |c.slots|
    ensures Retire(c, i).mode == c.mode && |Retire(c, i).slots| == |c.slots|
    ensures TaskOk(c, t) && t.slot != i ==> TaskOk(Retire(c, i), t)
  {
  }

  lemma RetireOwners(c: Core, i: nat, leaving: set<nat>, closed: set<nat>)
    requires i < |c.slots| && !c.slots[i].active && SubsOk(c.slots, c.nextSub)
    requires LeavingOk(c, leaving) && ClosedOk(c, closed)
    ensures LeavingOk(Retire(c, i), leaving - {i})
    ensures ClosedOk(Retire(c, i), if c.slots[i].handler.Some? then closed + {c.slots[i].sub} else closed)
  {
  }

  /** Freeing a slot: nobody is calling its handler, and its serial number is closed for good. */
  lemma CloseInv(w: World, i: nat)
    requires WorldInv(w) && i < SLOTS && !w.core.slots[i].active && w.core.slots[i].inflight == 0
    ensures WorldInv(Close(w, i))
  {
    SlotFacts(w.core, TotalLoad(w.threads), i);
    assert SubsOk(w.core.slots, w.core.nextSub);
    hide CoreInv, TotalLoad, ThreadsOk, LeavingOk, ClosedOk, FlyingOk, SubsOk;
    RetireInv(w.core, TotalLoad(w.threads), i);
    RetireThreads(w.core, i, w.threads);
    RetireOwners(w.core, i, w.leaving, w.closed);
  }

  /** If no delivery to slot i is in flight, no thread has a task for it. */
  lemma {:induction false} NoTaskAt(ts: seq<Thread>, i: nat)
    requires i !in TotalLoad(ts).flying
    ensures forall k :: 0 <= k < |ts| && ts[k].Serving? ==> ts[k].task.slot != i
    ensures forall k, l :: 0 <= k < |ts| && ts[k].Delivering? && 0 <= l < |ts[k].todo| ==> ts[k].todo[l].slot != i
  {
    hide TaskSlots;
    if ts != [] {
      SplitFlying(ts, i);
      NoTaskAt(ts[1..], i);
      NoTaskIn(ts[0], i);
      forall k | 1 <= k < |ts|
        ensures ts[k] == ts[1..][k - 1]
      {
      }
    }
  }

  lemma SplitFlying(ts: seq<Thread>, i: nat)
    requires ts != [] && i !in TotalLoad(ts).flying
    ensures i !in LoadOf(ts[0]).flying && i !in TotalLoad(ts[1..]).flying
  {
    hide LoadOf;
  }

  lemma NoTaskIn(t: Thread, i: nat)
    requires i !in LoadOf(t).flying
    ensures t.Serving? ==> t.task.slot != i
    ensures t.Delivering? ==> forall l :: 0 <= l < |t.todo| ==> t.todo[l].slot != i
  {
    hide TaskSlots;
    if t.Delivering? {
      forall l | 0 <= l < |t.todo| ensures t.todo[l].slot != i { TaskSlotIn(t.todo, l); }
    }
  }

  lemma {:induction false} TaskSlotIn(ts: seq<Task>, l: nat)
    requires l < |ts|
    ensures ts[l].slot in TaskSlots(ts)
  {
    if l > 0 { TaskSlotIn(ts[1..], l - 1); }
  }

  // The steps below belong to one thread; `rest` is what all the other threads hold.

  lemma AnnounceFrame(c: Core, ev: Event, ts: seq<Thread>, leaving: set<nat>, closed: set<nat>)
    requires ThreadsOk(c, ts) && LeavingOk(c, leaving) && ClosedOk(c, closed)
    ensures var c' := Announce(c, ev); ThreadsOk(c', ts) && LeavingOk(c', leaving) && ClosedOk(c', closed)
  {
    var c' := Announce(c, ev);
    forall k | 0 <= k < |ts| ensures ThreadOk(c', ts[k]) {
      assert ThreadOk(c, ts[k]);
    }
  }

  lemma ThreadsAppend(c: Core, ts: seq<Thread>, t: Thread)
    requires ThreadsOk(c, ts) && ThreadOk(c, t)
    ensures ThreadsOk(c, ts + [t])
  {
  }

  lemma ThreadsUpdate(c: Core, ts: seq<Thread>, k: nat, t: Thread)
    requires ThreadsOk(c, ts) && k < |ts| && ThreadOk(c, t)
    ensures ThreadsOk(c, ts[k := t])
  {
  }

  lemma ThreadAt(c: Core, ts: seq<Thread>, k: nat)
    requires ThreadsOk(c, ts) && k < |ts|
    ensures ThreadOk(c, ts[k])
  {
  }

  /** A step of thread k that leaves subscriptions alone: only its own load and the core matter. */
  lemma ThreadStep(w: World, k: nat, c: Core, t: Thread, load: Load)
    requires WorldInv(w) && k < |w.threads|
    requires CoreInv(c, load) && load == Plus(Others(w.threads, k), LoadOf(t))
    requires SameSubscriptions(w.core, c) && ThreadOk(c, t) && FlyingOk(w.core.mode, load)
    ensures WorldInv(w.(core := c, threads := w.threads[k := t]))
  {
    hide CoreInv, TotalLoad, ThreadsOk, ThreadOk, LeavingOk, ClosedOk, FlyingOk, SameSubscriptions, Others, Plus, LoadOf;
    LoadSplit(w.threads, k, t);
    SameMode(w.core, c);
    ThreadsKept(w.core, c, w.threads);
    OwnersSurvive(w.core, c, w.leaving, w.closed);
    ThreadsUpdate(c, w.threads, k, t);
  }

  /** The same for a step that starts a new thread, or none at all. */
  lemma NewThreadStep(w: World, c: Core, t: Thread, load: Load, slept: bool)
    requires WorldInv(w)
    requires CoreInv(c, load) && load == Plus(TotalLoad(w.threads), LoadOf(t))
    requires ThreadsOk(c, w.threads) && LeavingOk(c, w.leaving) && ClosedOk(c, w.closed)
    requires c.mode == w.core.mode && |c.slots| == SLOTS && ThreadOk(c, t) && FlyingOk(c.mode, load)
    ensures WorldInv(w.(core := c, threads := w.threads + [t], slept := slept))
  {
    hide CoreInv, TotalLoad, ThreadsOk, ThreadOk, LeavingOk, ClosedOk, FlyingOk, Plus, LoadOf;
    LoadAppend(w.threads, t);
    ThreadsAppend(c, w.threads, t);
  }

  lemma AnnounceSlots(c: Core, ev: Event)
    ensures Announce(c, ev).slots == c.slots && Announce(c, ev).mode == c.mode
  {
  }

  lemma SameMode(c: Core, c': Core)
    requires SameSubscriptions(c, c')
    ensures c'.mode == c.mode && |c'.slots| == |c.slots|
  {
  }

  lemma PublishLoads(load: Load, e: EnvId, subs: set<nat>, at: PublishResult, mode: Mode)
    requires FlyingOk(mode, load)
    ensures var load1 := load.(held := load.held + multiset{e});
            && load1.(held := load1.held - multiset{e}) == load
            && load1 == Plus(load, LoadOf(Announced(e)))
            && load1.(open := load1.open + 1) == Plus(load, LoadOf(Waiting(e, subs, at)))
            && FlyingOk(mode, load1) && FlyingOk(mode, load1.(open := load1.open + 1))
  {
    AddSub(load.held, e);
    assert load.flying + multiset{} == load.flying && load.busy + {} == load.busy;
    hide FlyingOk;
    SameFlying(mode, load, load.(held := load.held + multiset{e}));
    SameFlying(mode, load, load.(held := load.held + multiset{e}, open := load.open + 1));
  }

  lemma AddSub(m: multiset<EnvId>, e: EnvId)
    ensures m + multiset{e} - multiset{e} == m
  {
  }

  lemma SameFlying(mode: Mode, load: Load, load': Load)
    requires FlyingOk(mode, load) && load'.flying == load.flying && load'.busy == load.busy
    ensures FlyingOk(mode, load')
  {
  }

  lemma AnnounceStep(w: World, ev: Event)
    requires WorldInv(w)
    ensures var e, load := |w.core.log|, TotalLoad(w.threads);
            var c1, load1 := Announce(w.core, ev), load.(held := load.held + multiset{e});
            && CoreInv(c1, load1) && |c1.slots| == SLOTS && c1.mode == w.core.mode
            && ThreadsOk(c1, w.threads) && LeavingOk(c1, w.leaving) && ClosedOk(c1, w.closed)
            && FlyingOk(c1.mode, load1)
  {
    hide CoreInv, TotalLoad, ThreadsOk, LeavingOk, ClosedOk, Announce;
    AnnounceInv(w.core, TotalLoad(w.threads), ev);
    AnnounceFrame(w.core, ev, w.threads, w.leaving, w.closed);
    AnnounceSlots(w.core, ev);
  }

  lemma PublishAsync(w: World, ev: Event)
    requires WorldInv(w) && w.core.mode == Async && !w.core.shuttingDown
    ensures WorldInv(PublishStep(w, ev))
  {
    hide CoreInv, TotalLoad, ThreadsOk, LeavingOk, ClosedOk, FlyingOk, Announce, PublishFrom, SameSubscriptions, Plus, LoadOf;
    AnnounceStep(w, ev);
    var load, e := TotalLoad(w.threads), |w.core.log|;
    var c1, load1 := Announce(w.core, ev), load.(held := load.held + multiset{e});
    var subs := Matching(w.core, ev.topic);
    PublishInv(c1, load1, e, subs, 0, Ok);
    var (c, r) := PublishFrom(c1, e, subs, 0, Ok);
    SameMode(c1, c);
    ThreadsKept(c1, c, w.threads);
    OwnersSurvive(c1, c, w.leaving, w.closed);
    PublishLoads(load, e, subs, r, Async);
    if r.Blocked? {
      NewThreadStep(w, c, Waiting(e, subs, r), load1.(open := load1.open + 1), true);
    }
  }

  lemma PublishSync(w: World, ev: Event)
    requires WorldInv(w) && w.core.mode == Sync && !w.core.shuttingDown
    ensures WorldInv(PublishStep(w, ev))
  {
    hide CoreInv, TotalLoad, ThreadsOk, LeavingOk, ClosedOk, FlyingOk, Announce, Plus, LoadOf;
    AnnounceStep(w, ev);
    var load, e := TotalLoad(w.threads), |w.core.log|;
    PublishLoads(load, e, {}, Done(Ok), Sync);
    NewThreadStep(w, Announce(w.core, ev), Announced(e), load.(held := load.held + multiset{e}), w.slept);
  }

  lemma PublishStepInv(w: World, ev: Event)
    requires WorldInv(w)
    ensures WorldInv(PublishStep(w, ev))
  {
    hide CoreInv, TotalLoad, ThreadsOk, LeavingOk, ClosedOk, FlyingOk;
    if w.core.shuttingDown {
    } else if w.core.mode == Async {
      PublishAsync(w, ev);
    } else {
      PublishSync(w, ev);
    }
  }

  lemma WakeLoads(rest: Load, load: Load, t: Thread, subs: set<nat>, at: PublishResult, mode: Mode)
    requires t.Waiting? && load == Plus(rest, LoadOf(t)) && FlyingOk(mode, load)
    ensures t.env in load.held && load.open > 0
    ensures load == Plus(rest, LoadOf(Waiting(t.env, subs, at)))
    ensures var load' := load.(held := load.held - multiset{t.env}, open := load.open - 1);
            load' == Plus(rest, LoadOf(Gone)) && FlyingOk(mode, load')
  {
  }

  lemma PublishWakeStepInv(w: World, k: nat, timedOut: bool)
    requires WorldInv(w)
    ensures WorldInv(PublishWakeStep(w, k, timedOut))
  {
    hide CoreInv, TotalLoad, ThreadsOk;
    if k < |w.threads| && w.threads[k].Waiting? {
      var t, load := w.threads[k], TotalLoad(w.threads);
      ThreadAt(w.core, w.threads, k);
      hide LeavingOk, ClosedOk, FlyingOk, Resume, SameSubscriptions, Others, Plus, LoadOf;
      var (c, r) := Resume(w.core, t.env, t.subs, t.at, timedOut);
      var rest := Others(w.threads, k);
      LoadSplit(w.threads, k, t);
      WakeLoads(rest, load, t, t.subs, r, w.core.mode);
      ResumeInv(w.core, load, t.env, t.subs, t.at, timedOut);
      SameMode(w.core, c);
      if r.Done? {
        ThreadStep(w, k, c, Gone, load.(held := load.held - multiset{t.env}, open := load.open - 1));
      } else {
        ThreadStep(w, k, c, Waiting(t.env, t.subs, r), load);
      }
    }
  }

  lemma PollStepInv(w: World, k: nat)
    requires WorldInv(w)
    ensures WorldInv(PollStep(w, k))
  {
    if k < |w.threads| && w.threads[k].Idle? {
      var c, load := w.core, TotalLoad(w.threads);
      assert ThreadOk(c, Idle) by { assert ThreadOk(c, w.threads[k]); }
      hide CoreInv, TotalLoad, ThreadsOk, LeavingOk, ClosedOk, FlyingOk, SameSubscriptions, Others, Plus;
      TakeInv(c, load);
      var (t, c') := Take(c);
      LoadSplit(w.threads, k, Exited);
      if t.Some? {
        PollServe(w, k, t.value, c');
      } else {
        SameRefl(c);
        ThreadStep(w, k, c, Exited, load);
      }
    }
  }

  lemma ServeLoads(rest: Load, load: Load, t: Task)
    requires load == Plus(rest, LoadOf(Idle)) && FlyingOk(Async, load) && t.slot !in load.busy
    ensures Taking(load, t) == Plus(rest, LoadOf(Serving(t))) && FlyingOk(Async, Taking(load, t))
  {
  }

  lemma ServeTaskOk(c: Core, c': Core, i: nat, e: EnvId, load: Load)
    requires CoreInv(c, load) && |c.slots| == SLOTS && i < SLOTS && c.slots[i].active
    requires SameSubscriptions(c, c')
    ensures TaskOk(c', TaskOf(i, c.slots[i], e))
  {
    SlotFacts(c, load, i);
    assert SameIdentity(c.slots[i], c'.slots[i]);
  }

  lemma PollServe(w: World, k: nat, t: Task, c: Core)
    requires WorldInv(w) && k < |w.threads| && w.threads[k].Idle? && w.core.mode == Async
    requires CoreInv(c, Taking(TotalLoad(w.threads), t)) && SameSubscriptions(w.core, c)
    requires t.slot < SLOTS && t.slot !in TotalLoad(w.threads).busy
    requires Deliverable(w.core.slots[t.slot]) && t == TaskOf(t.slot, w.core.slots[t.slot], t.env)
    ensures WorldInv(w.(core := c, threads := w.threads[k := Serving(t)]))
  {
    hide CoreInv, TotalLoad, ThreadsOk, LeavingOk, ClosedOk, FlyingOk, SameSubscriptions, Others, Plus, LoadOf, Taking, TaskOk;
    var load := TotalLoad(w.threads);
    LoadSplit(w.threads, k, Idle);
    ServeLoads(Others(w.threads, k), load, t);
    ServeTaskOk(w.core, c, t.slot, t.env, load);
    SameMode(w.core, c);
    ThreadStep(w, k, c, Serving(t), Taking(load, t));
  }

  /** A slot served by one worker is not also served by another. */
  lemma FinishLoads(rest: Load, load: Load, t: Task)
    requires load == Plus(rest, LoadOf(Serving(t))) && FlyingOk(Async, load)
    requires forall i :: i in rest.busy ==> i in rest.flying
    ensures t.env in load.held && t.slot in load.busy && load.flying[t.slot] == 1 && load.open > 0
    ensures Finishing(load, t) == Plus(rest, LoadOf(Idle)) && FlyingOk(Async, Finishing(load, t))
  {
    assert load.flying[t.slot] == rest.flying[t.slot] + 1;
    assert t.slot !in rest.busy;
  }

  lemma {:induction false} BusyIsFlying(ts: seq<Thread>)
    ensures forall i :: i in TotalLoad(ts).busy ==> i in TotalLoad(ts).flying
  {
    if ts != [] { BusyIsFlying(ts[1..]); }
  }

  lemma {:induction false} OthersBusy(ts: seq<Thread>, k: nat)
    requires k < |ts|
    ensures forall i :: i in Others(ts, k).busy ==> i in Others(ts, k).flying
  {
    if k == 0 { BusyIsFlying(ts[1..]); } else { OthersBusy(ts[1..], k - 1); }
  }

  lemma FinishStepInv(w: World, k: nat)
    requires WorldInv(w)
    ensures WorldInv(FinishStep(w, k))
  {
    if k < |w.threads| && w.threads[k].Serving? {
      var t, c, load := w.threads[k].task, w.core, TotalLoad(w.threads);
      assert ThreadOk(c, w.threads[k]);
      hide CoreInv, TotalLoad, ThreadsOk, LeavingOk, ClosedOk, FlyingOk, SameSubscriptions, Others, Plus, LoadOf, Finishing, EventBusCore.Finish;
      LoadSplit(w.threads, k, Idle);
      OthersBusy(w.threads, k);
      FinishLoads(Others(w.threads, k), load, t);
      FinishInv(c, load, t);
      SameMode(c, EventBusCore.Finish(c, t));
      ThreadStep(w, k, EventBusCore.Finish(c, t), Idle, Finishing(load, t));
    }
  }

  lemma AnnouncedLoads(rest: Load, load: Load, e: EnvId, mode: Mode)
    requires load == Plus(rest, LoadOf(Announced(e))) && FlyingOk(mode, load)
    ensures e in load.held
    ensures var load' := load.(held := load.held - multiset{e});
            load' == Plus(rest, LoadOf(Gone)) && FlyingOk(mode, load')
  {
  }

  /** A synchronous publisher with no deliveries left releases its envelope and is done. */
  lemma SyncGone(w: World, c: Core, k: nat, e: EnvId, load: Load)
    requires WorldInv(w) && k < |w.threads| && w.core.mode == Sync
    requires CoreInv(c, load) && SameSubscriptions(w.core, c) && FlyingOk(Sync, load)
    requires load == Plus(Others(w.threads, k), LoadOf(Announced(e)))
    ensures WorldInv(w.(core := Release(c, e), threads := w.threads[k := Gone]))
  {
    hide CoreInv, TotalLoad, ThreadsOk, LeavingOk, ClosedOk, FlyingOk, SameSubscriptions, Others, Plus, LoadOf, Release;
    AnnouncedLoads(Others(w.threads, k), load, e, Sync);
    ReleaseInv(c, load, e);
    ReleaseIdentity(c, e);
    SameTrans(w.core, c, Release(c, e));
    ThreadStep(w, k, Release(c, e), Gone, load.(held := load.held - multiset{e}));
  }

  lemma SnapshotLoads(rest: Load, load: Load, e: EnvId, ts: seq<Task>)
    requires load == Plus(rest, LoadOf(Announced(e))) && FlyingOk(Sync, load)
    ensures var load' := load.(flying := load.flying + TaskSlots(ts), open := load.open + |ts|);
            load' == Plus(rest, LoadOf(Delivering(e, ts))) && FlyingOk(Sync, load') && (ts == [] ==> load' == load)
  {
  }

  lemma SnapshotTasksOk(c: Core, e: EnvId, subs: set<nat>, load: Load)
    requires CoreInv(c, load)
    ensures var (ts, c') := EventBusCore.TakeSnapshot(c, e, subs);
            forall k :: 0 <= k < |ts| ==> TaskOk(c', ts[k]) && ts[k].env == e
  {
    SnapshotSlots(c.slots, e, subs, 0);
  }

  lemma SnapshotDeliveries(w: World, k: nat, e: EnvId, subs: set<nat>)
    requires WorldInv(w) && k < |w.threads| && w.threads[k] == Announced(e) && w.core.mode == Sync
    ensures var (ts, c) := EventBusCore.TakeSnapshot(w.core, e, subs);
            WorldInv(if ts == [] then w.(core := Release(c, e), threads := w.threads[k := Gone])
                     else w.(core := c, threads := w.threads[k := Delivering(e, ts)]))
  {
    hide CoreInv, TotalLoad, ThreadsOk, LeavingOk, ClosedOk, FlyingOk, SameSubscriptions, Others, Plus, LoadOf, Release,
      EventBusCore.TakeSnapshot, TaskOk;
    var c, load := w.core, TotalLoad(w.threads);
    LoadSplit(w.threads, k, Gone);
    var (ts, c') := EventBusCore.TakeSnapshot(c, e, subs);
    SnapshotInv(c, load, e, subs);
    SnapshotTasksOk(c, e, subs, load);
    SnapshotLoads(Others(w.threads, k), load, e, ts);
    SameMode(c, c');
    if ts == [] {
      SyncGone(w, c', k, e, load);
    } else {
      ThreadStep(w, k, c', Delivering(e, ts), load.(flying := load.flying + TaskSlots(ts), open := load.open + |ts|));
    }
  }

  lemma SnapshotStepInv(w: World, k: nat)
    requires WorldInv(w)
    ensures WorldInv(SnapshotStep(w, k))
  {
    if k < |w.threads| && w.threads[k].Announced? {
      hide CoreInv, TotalLoad, ThreadsOk, LeavingOk, ClosedOk, FlyingOk, SameSubscriptions, Others, Plus, LoadOf, Release,
        EventBusCore.TakeSnapshot, Matching;
      var e, c := w.threads[k].env, w.core;
      ThreadAt(c, w.threads, k);
      if c.shuttingDown || e >= |c.log| {
        LoadSplit(w.threads, k, Gone);
        SameRefl(c);
        SyncGone(w, c, k, e, TotalLoad(w.threads));
      } else {
        SnapshotDeliveries(w, k, e, Matching(c, c.log[e].topic));
      }
    }
  }

  lemma DeliveredLoads(rest: Load, load: Load, e: EnvId, todo: seq<Task>)
    requires todo != [] && load == Plus(rest, LoadOf(Delivering(e, todo))) && FlyingOk(Sync, load)
    ensures todo[0].slot in load.flying && load.open > 0 && load.busy == {}
    ensures var load' := load.(flying := load.flying - multiset{todo[0].slot}, open := load.open - 1);
            && load' == Plus(rest, LoadOf(Delivering(e, todo[1..]))) && FlyingOk(Sync, load')
            && (|todo| == 1 ==> load' == Plus(rest, LoadOf(Announced(e))))
  {
    assert TaskSlots(todo) == multiset{todo[0].slot} + TaskSlots(todo[1..]);
  }

  lemma RestTasksOk(c: Core, c': Core, t: Thread)
    requires t.Delivering? && ThreadOk(c, t) && SameSubscriptions(c, c') && |t.todo| > 1
    ensures ThreadOk(c', Delivering(t.env, t.todo[1..]))
  {
    var rest := t.todo[1..];
    forall k | 0 <= k < |rest| ensures TaskOk(c', rest[k]) && rest[k].env == t.env {
      assert TaskOk(c, t.todo[k + 1]);
    }
  }

  lemma DeliveredStepInv(w: World, k: nat)
    requires WorldInv(w)
    ensures WorldInv(DeliveredStep(w, k))
  {
    if k < |w.threads| && w.threads[k].Delivering? {
      var t, c, load := w.threads[k], w.core, TotalLoad(w.threads);
      assert ThreadOk(c, t);
      assert TaskOk(c, t.todo[0]);
      hide CoreInv, TotalLoad, ThreadsOk, LeavingOk, ClosedOk, FlyingOk, SameSubscriptions, Others, Plus, LoadOf, SyncDelivered, Release;
      LoadSplit(w.threads, k, t);
      DeliveredLoads(Others(w.threads, k), load, t.env, t.todo);
      SyncDeliveredInv(c, load, t.todo[0]);
      var c' := SyncDelivered(c, t.todo[0]);
      var load' := load.(flying := load.flying - multiset{t.todo[0].slot}, open := load.open - 1);
      SameMode(c, c');
      if |t.todo| == 1 {
        SyncGone(w, c', k, t.env, load');
      } else {
        RestTasksOk(c, c', t);
        ThreadStep(w, k, c', Delivering(t.env, t.todo[1..]), load');
      }
    }
  }

  lemma UnsubscribeWakeStepInv(w: World, i: nat, timedOut: bool)
    requires WorldInv(w)
    ensures WorldInv(UnsubscribeWakeStep(w, i, timedOut))
  {
    if i in w.leaving && w.core.slots[i].inflight == 0 { CloseInv(w, i); }
  }

  lemma ShutdownInv(c: Core, load: Load, ts: seq<Thread>)
    requires CoreInv(c, load) && ThreadsOk(c, ts)
    ensures CoreInv(c.(shuttingDown := true), load) && ThreadsOk(c.(shuttingDown := true), ts)
  {
    forall k | 0 <= k < |ts| ensures ThreadOk(c.(shuttingDown := true), ts[k]) {
      assert ThreadOk(c, ts[k]);
    }
  }

  /** The induction step of every statement about runs. */
  lemma NextInv(w: World, step: Step)
    requires WorldInv(w)
    ensures WorldInv(Next(w, step))
  {
    hide CoreInv, ThreadsOk, LeavingOk, ClosedOk, FlyingOk, TotalLoad;
    hide UnsubscribeStep, UnsubscribeWakeStep, PublishStep, PublishWakeStep, PollStep, FinishStep, SnapshotStep, DeliveredStep;
    hide EventBusCore.Subscribe;
    match step
    case Subscribe(topic, handler, policy, capacity) => SubscribeStepInv(w, topic, handler, policy, capacity);
    case Unsubscribe(h, patient) => UnsubscribeStepInv(w, h, patient);
    case UnsubscribeWake(i, timedOut) => UnsubscribeWakeStepInv(w, i, timedOut);
    case Publish(ev) => PublishStepInv(w, ev);
    case PublishWake(k, timedOut) => PublishWakeStepInv(w, k, timedOut);
    case Poll(k) => PollStepInv(w, k);
    case Finish(k) => FinishStepInv(w, k);
    case TakeSnapshot(k) => SnapshotStepInv(w, k);
    case Delivered(k) => DeliveredStepInv(w, k);
    case Shutdown => ShutdownStepInv(w);
  }

  lemma ShutdownStepInv(w: World)
    requires WorldInv(w)
    ensures WorldInv(w.(core := w.core.(shuttingDown := true)))
  {
    hide CoreInv, ThreadsOk, FlyingOk, TotalLoad;
    ShutdownInv(w.core, TotalLoad(w.threads), w.threads);
  }
}
