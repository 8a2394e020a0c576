/** Who gets an event, from whom, in which turn, and what its publisher is told. */
module EventBusDispatch {
  import opened Common
  import opened EventBusCore
  import opened EventBusInvariant
  import opened EventBusSections
  import opened EventBusWorld
  import opened EventBusTheorems
  import opened EventBusOffers
  import opened EventBusOrder
  import opened EventBusPolicies

  // ---- subscribing --------------------------------------------------------------------------------

  /** A capacity as a subscriber gets it: the default for zero, and at most sixteen. */
  predicate CapacityOf(wanted: nat, given: nat, standard: nat) {
    (wanted == 0 ==> given == standard) && (1 <= wanted <= 16 ==> given == wanted) && (wanted > 16 ==> given == 16)
  }

  /** A new subscription has the terms it asked for and nothing from an earlier owner of its slot; no other slot changes. */
  lemma SubscribeEffect(w: World, topic: Option<Topic>, handler: nat, policy: Option<Policy>, capacity: nat)
    requires Reachable(w)
    ensures var (status, h, c) := EventBusCore.Subscribe(w.core, topic, handler, policy, capacity);
            && |c.slots| == |w.core.slots| == SLOTS
            && (status != Ok ==> c == w.core)
            && (status == Ok ==>
                  && h.slot < SLOTS && h.generation == w.core.slots[h.slot].generation
                  && var s := c.slots[h.slot];
                     && s.active && s.topic == topic && s.handler == Some(handler) && s.generation == h.generation
                     && s.policy == (if policy == None then BlockWithTimeout else policy.value)
                     && CapacityOf(capacity, s.capacity, w.core.defaultCapacity)
                     && s.mailbox == [] && s.taken == [] && s.offered == [] && s.inflight == 0 && !s.busy
                     && forall i :: 0 <= i < SLOTS && i != h.slot ==> c.slots[i] == w.core.slots[i])
  {
    hide Reachable, CoreInv, ThreadsOk, LeavingOk, ClosedOk, FlyingOk, TotalLoad, Install;
    ReachableInv(w);
    var c, load := w.core, TotalLoad(w.threads);
    SubscribeInv(c, load, topic, handler, policy, capacity);
    var (status, h, c') := EventBusCore.Subscribe(c, topic, handler, policy, capacity);
    DefaultInRange(c, load);
    if status == Ok {
      var s := NewSubscription(c, c.slots[h.slot], topic, handler, policy, capacity);
      InstallOffers(c, h.slot, s);
      InstalledSlot(c, h.slot, s);
      SlotFacts(c, load, h.slot);
      NotBusy(c, load, h.slot);
    }
  }

  lemma DefaultInRange(c: Core, load: Load)
    requires CoreInv(c, load)
    ensures 1 <= c.defaultCapacity <= MAILBOX_MAX
  {
  }

  lemma NotBusy(c: Core, load: Load, i: nat)
    requires CoreInv(c, load) && i < |c.slots| == SLOTS && c.slots[i].inflight == 0
    ensures !c.slots[i].busy
  {
    SlotFacts(c, load, i);
    assert i in load.busy ==> i in load.flying;
  }

  /** The default capacity of a bus follows the same rule, with sixteen for zero. */
  lemma DefaultCapacity(mode: Mode, capacity: nat)
    ensures CapacityOf(capacity, InitCore(mode, capacity).defaultCapacity, 16)
  {
  }

  /** For as long as a subscription stays, so do its handler, its policy and its capacity. */
  lemma TermsStay(w: World, step: Step, j: nat)
    requires Reachable(w) && j < SLOTS
    ensures |w.core.slots| == SLOTS == |Next(w, step).core.slots|
    ensures var s, s' := w.core.slots[j], Next(w, step).core.slots[j];
            s.active && s'.active && s'.sub == s.sub ==>
              && s'.handler == s.handler && s'.policy == s.policy && s'.capacity == s.capacity
              && s'.topic == s.topic && s'.since == s.since
  {
    hide Reachable, Next, NewOffers, WorldInv, Refused, MailAfter;
    ReachableInv(w);
    StepOffers(w, step, j);
    MailStep(w, step, j);
  }

  // ---- synchronous delivery -----------------------------------------------------------------------

  /** A delivery of e to a selected active slot from i on, with the slot's own generation, handler and serial number. */
  predicate Fits(t: Task, slots: seq<Slot>, e: EnvId, subs: set<nat>, i: nat) {
    && i <= t.slot < |slots| && t.slot in subs && slots[t.slot].active
    && t == Task(t.slot, slots[t.slot].generation, slots[t.slot].handler, slots[t.slot].sub, e)
  }

  ghost predicate Reaches(ts: seq<Task>, j: nat) {
    exists k :: 0 <= k < |ts| && ts[k].slot == j
  }

  /** One delivery for each selected active slot from i on, in slot order. */
  ghost predicate DeliversTo(ts: seq<Task>, slots: seq<Slot>, e: EnvId, subs: set<nat>, i: nat) {
    && (forall k :: 0 <= k < |ts| ==> Fits(ts[k], slots, e, subs, i))
    && (forall k, l :: 0 <= k < l < |ts| ==> ts[k].slot < ts[l].slot)
    && (forall j :: i <= j < |slots| && j in subs && slots[j].active ==> Reaches(ts, j))
  }

  lemma {:induction false} SnapshotIs(slots: seq<Slot>, e: EnvId, subs: set<nat>, i: nat)
    requires i <= |slots|
    ensures DeliversTo(Snapshot(slots, e, subs, i), slots, e, subs, i)
    decreases |slots| - i
  {
    hide DeliversTo, TaskOf;
    if i == |slots| {
      NothingToDeliver(slots, e, subs, i);
    } else {
      SnapshotIs(slots, e, subs, i + 1);
      FrontDelivers(slots, e, subs, i, Snapshot(slots, e, subs, i + 1));
    }
  }

  lemma NothingToDeliver(slots: seq<Slot>, e: EnvId, subs: set<nat>, i: nat)
    requires i == |slots|
    ensures DeliversTo([], slots, e, subs, i)
  {
  }

  lemma FrontDelivers(slots: seq<Slot>, e: EnvId, subs: set<nat>, i: nat, rest: seq<Task>)
    requires i < |slots| && DeliversTo(rest, slots, e, subs, i + 1)
    ensures i in subs && slots[i].active ==> DeliversTo([TaskOf(i, slots[i], e)] + rest, slots, e, subs, i)
    ensures !(i in subs && slots[i].active) ==> DeliversTo(rest, slots, e, subs, i)
  {
    hide Reaches, Fits;
    var first := TaskOf(i, slots[i], e);
    var ts := [first] + rest;
    forall k | 0 <= k < |rest|
      ensures Fits(rest[k], slots, e, subs, i) && rest[k].slot > i && ts[k + 1] == rest[k]
    {
      FitsEarlier(rest[k], slots, e, subs, i);
    }
    if i in subs && slots[i].active {
      FirstFits(slots, e, subs, i);
      FirstInOrder(first, rest);
      FirstReached(slots, subs, i, first, rest);
      forall k | 0 <= k < |ts|
        ensures Fits(ts[k], slots, e, subs, i)
      {
        if k > 0 { assert ts[k] == rest[k - 1]; }
      }
    }
  }

  lemma FitsEarlier(t: Task, slots: seq<Slot>, e: EnvId, subs: set<nat>, i: nat)
    requires Fits(t, slots, e, subs, i + 1)
    ensures Fits(t, slots, e, subs, i) && t.slot > i
  {
  }

  lemma FirstFits(slots: seq<Slot>, e: EnvId, subs: set<nat>, i: nat)
    requires i < |slots| && i in subs && slots[i].active
    ensures Fits(TaskOf(i, slots[i], e), slots, e, subs, i) && TaskOf(i, slots[i], e).slot == i
  {
  }

  lemma FirstInOrder(first: Task, rest: seq<Task>)
    requires forall k, l :: 0 <= k < l < |rest| ==> rest[k].slot < rest[l].slot
    requires forall k :: 0 <= k < |rest| ==> rest[k].slot > first.slot
    ensures var ts := [first] + rest; forall k, l :: 0 <= k < l < |ts| ==> ts[k].slot < ts[l].slot
  {
  }

  lemma FirstReached(slots: seq<Slot>, subs: set<nat>, i: nat, first: Task, rest: seq<Task>)
    requires first.slot == i
    requires forall j :: i + 1 <= j < |slots| && j in subs && slots[j].active ==> Reaches(rest, j)
    ensures forall j :: i <= j < |slots| && j in subs && slots[j].active ==> Reaches([first] + rest, j)
  {
    hide Reaches;
    forall j | i <= j < |slots| && j in subs && slots[j].active
      ensures Reaches([first] + rest, j)
    {
      ReachesMore(first, rest, j);
    }
  }

  lemma ReachesMore(first: Task, rest: seq<Task>, j: nat)
    ensures Reaches(rest, j) || j == first.slot ==> Reaches([first] + rest, j)
  {
    var ts := [first] + rest;
    assert ts[0] == first;
    if k :| 0 <= k < |rest| && rest[k].slot == j { assert ts[k + 1].slot == j; }
  }

  /**
   A synchronous publish that is not overtaken by a shutdown delivers its event to exactly the subscriptions that
   are active and want it, each once, in slot order, with their own handlers.
   */
  lemma SyncDelivers(w: World, k: nat)
    requires Reachable(w) && k < |w.threads| && w.threads[k].Announced? && !w.core.shuttingDown
    requires w.threads[k].env < |w.core.log|
    ensures |w.core.slots| == SLOTS && k < |Next(w, TakeSnapshot(k)).threads|
    ensures var e := w.threads[k].env;
            var wanting := set i | 0 <= i < SLOTS && w.core.slots[i].active && Wants(w.core.slots[i].topic, w.core.log[e]);
            match Next(w, TakeSnapshot(k)).threads[k]
            case Delivering(env, ts) => env == e && DeliversTo(ts, w.core.slots, e, wanting, 0)
            case Gone => wanting == {}
            case _ => false
  {
    hide Reachable, CoreInv, ThreadsOk, LeavingOk, ClosedOk, FlyingOk, TotalLoad, Matching, Release, Snapshot;
    ReachableInv(w);
    var e := w.threads[k].env;
    var subs := Matching(w.core, w.core.log[e].topic);
    MatchingIsScan(w.core, TotalLoad(w.threads), w.core.log[e].topic);
    SnapshotIs(w.core.slots, e, subs, 0);
    var ts := Snapshot(w.core.slots, e, subs, 0);
    var wanting := set i | 0 <= i < SLOTS && w.core.slots[i].active && Wants(w.core.slots[i].topic, w.core.log[e]);
    forall i | 0 <= i < SLOTS && w.core.slots[i].active
      ensures i in subs <==> i in wanting
    {
    }
    assert DeliversTo(ts, w.core.slots, e, wanting, 0);
    assert ts == [] ==> forall i :: i in wanting ==> i in subs;
  }

  /** One that is overtaken by a shutdown delivers nothing: no delivery is announced on any slot. */
  lemma SyncStopped(w: World, k: nat)
    requires Reachable(w) && k < |w.threads| && w.threads[k].Announced? && w.core.shuttingDown
    ensures |w.core.slots| == SLOTS
    ensures var w' := Next(w, TakeSnapshot(k));
            w'.threads == w.threads[k := Gone] && w'.core.slots == w.core.slots && w'.core.metrics == w.core.metrics
  {
    hide Reachable, CoreInv, ThreadsOk, LeavingOk, ClosedOk, FlyingOk, TotalLoad, ReleaseRef;
    ReachableInv(w);
  }

  /**
   An unsubscribe that runs out of time while a delivery is in flight gives up waiting, but its slot stays reserved,
   and its handle good, until a retry finds nothing in flight.
   */
  lemma UnsubscribeTimesOut(w: World, i: nat, patient: bool)
    requires Reachable(w) && i in w.leaving
    ensures i < SLOTS == |w.core.slots| && !w.core.slots[i].active
    ensures var w' := Next(w, UnsubscribeWake(i, true));
            && i !in w'.leaving
            && (w.core.slots[i].inflight > 0 ==>
                  && w'.core == w.core && !Free(w.core.slots[i])
                  && var retry := Step.Unsubscribe(Handle(i, w.core.slots[i].generation), patient);
                     Next(w', retry) == if patient then w'.(leaving := w'.leaving + {i}) else w')
            && (w.core.slots[i].inflight == 0 ==> |w'.core.slots| == SLOTS && Free(w'.core.slots[i]))
  {
    hide Reachable, CoreInv, ThreadsOk, ClosedOk, FlyingOk, TotalLoad, NextGeneration;
    ReachableInv(w);
  }

  // ---- whose turn it is ---------------------------------------------------------------------------

  predicate Before(ring: seq<nat>, i: nat, j: nat) {
    exists a, b :: 0 <= a < b < |ring| && ring[a] == i && ring[b] == j
  }

  ghost predicate KeepsTurns(ring: seq<nat>, ring': seq<nat>) {
    forall i: nat, j: nat :: Before(ring', i, j) && j in ring ==> Before(ring, i, j)
  }

  lemma AppendKeeps(ring: seq<nat>, ring': seq<nat>)
    requires ring <= ring' && Distinct(ring')
    ensures KeepsTurns(ring, ring')
  {
    forall i: nat, j: nat | Before(ring', i, j) && j in ring
      ensures Before(ring, i, j)
    {
      var a, b :| 0 <= a < b < |ring'| && ring'[a] == i && ring'[b] == j;
      var m :| 0 <= m < |ring| && ring[m] == j;
      assert ring'[m] == j;
      assert m == b;
      assert ring[a] == i && ring[b] == j;
    }
  }

  lemma SuffixKeeps(ring: seq<nat>, n: nat)
    requires n <= |ring|
    ensures KeepsTurns(ring, ring[n..])
  {
    forall i: nat, j: nat | Before(ring[n..], i, j)
      ensures Before(ring, i, j)
    {
      var a, b :| 0 <= a < b < |ring[n..]| && ring[n..][a] == i && ring[n..][b] == j;
      assert ring[n + a] == i && ring[n + b] == j;
    }
  }

  lemma {:induction false} WithoutKeeps(ring: seq<nat>, x: nat)
    ensures forall i: nat, j: nat :: Before(Without(ring, x), i, j) ==> Before(ring, i, j)
  {
    if ring != [] {
      var rest, out := Without(ring[1..], x), Without(ring, x);
      WithoutKeeps(ring[1..], x);
      WithoutElements(ring[1..], x);
      forall i: nat, j: nat | Before(out, i, j)
        ensures Before(ring, i, j)
      {
        var a, b :| 0 <= a < b < |out| && out[a] == i && out[b] == j;
        if ring[0] == x || a > 0 {
          var d := if ring[0] == x then 0 else 1;
          assert rest[a - d] == i && rest[b - d] == j;
          assert Before(ring[1..], i, j);
          var u, v :| 0 <= u < v < |ring[1..]| && ring[1..][u] == i && ring[1..][v] == j;
          assert ring[u + 1] == i && ring[v + 1] == j;
        } else {
          assert rest[b - 1] == j && j in rest && j in ring[1..];
          var v :| 0 <= v < |ring[1..]| && ring[1..][v] == j;
          assert ring[0] == i && ring[v + 1] == j;
        }
      }
    }
  }

  lemma AcceptRing(c: Core, i: nat, e: EnvId)
    requires i < |c.slots|
    ensures c.ring <= Accept(c, i, e).ring
  {
    hide RetainRef, ReleaseRef, Replaced, Full;
  }

  lemma {:induction false} PublishRing(c: Core, e: EnvId, subs: set<nat>, i: nat, err: Status)
    requires i <= |c.slots| == SLOTS
    ensures var (c', r) := PublishFrom(c, e, subs, i, err); c.ring <= c'.ring && r.status == err
    decreases SLOTS - i
  {
    hide Accept, Blocks, PublishFrom;
    PublishStepIs(c, e, subs, i, err);
    if i < SLOTS {
      var c1 := c.(metrics := c.metrics.(matched := c.metrics.matched + 1));
      if i !in subs || !c.slots[i].active {
        PublishRing(c, e, subs, i + 1, err);
      } else if !Blocks(c.slots[i]) {
        AcceptOffers(c1, i, e);
        AcceptRing(c1, i, e);
        PublishRing(Accept(c1, i, e), e, subs, i + 1, err);
      }
    }
  }

  lemma ResumeRing(c: Core, t: Thread, timedOut: bool)
    requires Sleeping(t) && |c.slots| == SLOTS
    ensures c.ring <= Resume(c, t.env, t.subs, t.at, timedOut).0.ring
  {
    hide Accept, Blocks, PublishFrom, Resume;
    ResumeIs(c, t, timedOut);
    AcceptRing(c, t.at.slot, t.env);
    if GoesOn(c, t, timedOut) {
      PublishRing(Settled(c, t, timedOut), t.env, t.subs, t.at.slot + 1, WakeStatus(c, t, timedOut));
    }
  }

  lemma {:induction false} PopRing(slots: seq<Slot>, ring: seq<nat>) returns (n: nat)
    ensures n <= |ring| && ReadyPop(slots, ring).1 == ring[n..]
  {
    if ring == [] || (ring[0] < |slots| && Deliverable(slots[ring[0]])) {
      n := if ring == [] then 0 else 1;
    } else {
      n := PopRing(slots, ring[1..]);
      n := n + 1;
    }
  }

  lemma RingDistinct(w: World)
    requires WorldInv(w)
    ensures Distinct(w.core.ring)
    ensures forall k :: 0 <= k < |w.core.ring| ==> w.core.ring[k] < |w.core.slots| && Deliverable(w.core.slots[w.core.ring[k]])
  {
  }

  /** A step only appends to the ready ring, unless it unsubscribes or a worker takes its turn. */
  lemma RingGrows(w: World, step: Step)
    requires WorldInv(w) && !step.Poll? && !step.Unsubscribe?
    ensures w.core.ring <= Next(w, step).core.ring
  {
    hide CoreInv, ThreadsOk, LeavingOk, ClosedOk, FlyingOk, TotalLoad, PublishFrom, Resume, Matching, Open, DirAdd,
      ReleaseRef, Snapshot, NextGeneration, FirstFree;
    match step
    case Publish(ev) =>
      if !w.core.shuttingDown && w.core.mode == Async {
        PublishRing(Announce(w.core, ev), |w.core.log|, Matching(w.core, ev.topic), 0, Ok);
      }
    case PublishWake(k, timedOut) =>
      if k < |w.threads| && w.threads[k].Waiting? {
        ThreadAt(w.core, w.threads, k);
        ResumeRing(w.core, w.threads[k], timedOut);
      }
    case _ =>
  }

  lemma UnsubscribeRing(w: World, h: Handle, patient: bool)
    requires WorldInv(w)
    ensures KeepsTurns(w.core.ring, UnsubscribeStep(w, h, patient).core.ring)
  {
    hide CoreInv, ThreadsOk, LeavingOk, ClosedOk, FlyingOk, TotalLoad, Before, DirRemove, NextGeneration, ReleaseAll, Without;
    if h.slot < SLOTS { WithoutKeeps(w.core.ring, h.slot); }
  }

  lemma PollRing(w: World, k: nat)
    ensures KeepsTurns(w.core.ring, PollStep(w, k).core.ring)
  {
    hide ReadyPop, KeepsTurns;
    var n := PopRing(w.core.slots, w.core.ring);
    SuffixKeeps(w.core.ring, n);
    SuffixKeeps(w.core.ring, 0);
    assert w.core.ring[0..] == w.core.ring;
  }

  /** No step lets a slot that waits for a worker be overtaken by another. */
  lemma NoOvertaking(w: World, step: Step, i: nat, j: nat)
    requires Reachable(w) && j in w.core.ring && Before(Next(w, step).core.ring, i, j)
    ensures Before(w.core.ring, i, j)
  {
    hide Reachable, Next, WorldInv, Before;
    ReachableInv(w);
    NextInv(w, step);
    match step
    case Poll(k) => PollIs(w, k); PollRing(w, k);
    case Unsubscribe(h, patient) => PollIs(w, 0); UnsubscribeIs(w, h, patient); UnsubscribeRing(w, h, patient);
    case _ =>
      RingGrows(w, step);
      RingDistinct(Next(w, step));
      AppendKeeps(w.core.ring, Next(w, step).core.ring);
  }

  lemma PollIs(w: World, k: nat)
    requires |w.core.slots| == SLOTS
    ensures Next(w, Poll(k)) == PollStep(w, k)
  {
  }

  lemma UnsubscribeIs(w: World, h: Handle, patient: bool)
    requires |w.core.slots| == SLOTS
    ensures Next(w, Step.Unsubscribe(h, patient)) == UnsubscribeStep(w, h, patient)
  {
  }

  /** An idle worker serves the slot that has waited longest, with its oldest event and its own handler. */
  lemma ServesFirst(w: World, k: nat)
    requires Reachable(w) && k < |w.threads| && w.threads[k].Idle? && w.core.ring != []
    ensures |w.core.slots| == SLOTS && w.core.ring[0] < SLOTS && w.core.slots[w.core.ring[0]].mailbox != []
    ensures var i := w.core.ring[0];
            var s := w.core.slots[i];
            && k < |Next(w, Poll(k)).threads|
            && Next(w, Poll(k)).threads[k] == Serving(Task(i, s.generation, s.handler, s.sub, s.mailbox[0]))
            && Next(w, Poll(k)).core.ring == w.core.ring[1..]
  {
    hide Reachable, CoreInv, ThreadsOk, LeavingOk, ClosedOk, FlyingOk, TotalLoad;
    ReachableInv(w);
    RingDistinct(w);
  }

  // ---- what a publisher is told -------------------------------------------------------------------

  /**
   The result of a publish that slept: a woken publisher remembers its first failure, a timeout or, if the bus
   shuts down or the subscription is gone, a cancellation; going on with further slots does not change it.
   */
  lemma PublishResult(c: Core, t: Thread, timedOut: bool)
    requires Sleeping(t) && |c.slots| == SLOTS
    ensures var r := Resume(c, t.env, t.subs, t.at, timedOut).1;
            var s := c.slots[t.at.slot];
            r.status ==
              if t.at.status != Ok then t.at.status
              else if timedOut then Timeout
              else if c.shuttingDown || !s.active || s.generation != t.at.generation then Cancelled
              else Ok
  {
    hide Accept, Blocks, PublishFrom, Resume;
    ResumeIs(c, t, timedOut);
    if GoesOn(c, t, timedOut) {
      PublishRing(Settled(c, t, timedOut), t.env, t.subs, t.at.slot + 1, WakeStatus(c, t, timedOut));
    }
  }
}
