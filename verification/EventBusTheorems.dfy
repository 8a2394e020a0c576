/** What the event bus guarantees in every state that any interleaving of its threads can reach. */
module EventBusTheorems {
  import opened Common
  import opened EventBusCore
  import opened EventBusInvariant
  import opened EventBusSections
  import opened EventBusWorld

  /** The state after a run: the steps are taken in order, by whichever threads they belong to. */
  function Run(mode: Mode, workers: nat, capacity: nat, steps: seq<Step>): World {
    if steps == [] then Init(mode, workers, capacity)
    else Next(Run(mode, workers, capacity, steps[..|steps| - 1]), steps[|steps| - 1])
  }

  ghost predicate Reachable(w: World) {
    exists mode, workers, capacity, steps :: w == Run(mode, workers, capacity, steps)
  }

  lemma {:induction false} RunInv(mode: Mode, workers: nat, capacity: nat, steps: seq<Step>)
    ensures WorldInv(Run(mode, workers, capacity, steps))
  {
    hide WorldInv, Next, Init;
    if steps == [] {
      InitWorld(mode, workers, capacity);
    } else {
      RunInv(mode, workers, capacity, steps[..|steps| - 1]);
      NextInv(Run(mode, workers, capacity, steps[..|steps| - 1]), steps[|steps| - 1]);
    }
  }

  lemma {:induction false} ReachableInv(w: World)
    requires Reachable(w)
    ensures WorldInv(w) && |w.core.slots| == SLOTS
  {
    hide Run, Init, CoreInv, ThreadsOk, LeavingOk, ClosedOk, FlyingOk, TotalLoad;
    var mode, workers, capacity, steps :| w == Run(mode, workers, capacity, steps);
    RunInv(mode, workers, capacity, steps);
  }

  lemma {:induction false} ReachableNext(w: World, step: Step)
    requires Reachable(w)
    ensures Reachable(Next(w, step))
  {
    hide Next, Init;
    var mode, workers, capacity, steps :| w == Run(mode, workers, capacity, steps);
    var longer := steps + [step];
    assert longer[..|longer| - 1] == steps;
    assert Next(w, step) == Run(mode, workers, capacity, longer);
  }

  // ---- which events a subscription is offered -----------------------------------------------------

  predicate Wants(topic: Option<Topic>, ev: Event) {
    topic.None? || topic.value == ev.topic
  }

  /** The events a subscription made at position `since` of the log is interested in, oldest first. */
  function Selected(log: seq<Event>, since: nat, topic: Option<Topic>): seq<EnvId> {
    if |log| <= since then []
    else Selected(log[..|log| - 1], since, topic) + if Wants(topic, log[|log| - 1]) then [|log| - 1] else []
  }

  ghost predicate OfferedOk(s: Slot, log: seq<Event>) {
    s.since <= |log| && s.offered == Selected(log, s.since, s.topic)
  }

  /** As long as no publisher has had to wait, every subscription was offered exactly its events. */
  ghost predicate HistoryInv(w: World) {
    w.core.mode == Async && !w.slept ==>
      && (forall i :: 0 <= i < |w.core.slots| && w.core.slots[i].active ==> OfferedOk(w.core.slots[i], w.core.log))
      && (forall k :: 0 <= k < |w.threads| ==> !w.threads[k].Waiting?)
      && w.core.metrics.refused == 0
  }

  /** Slot j is offered e if it is among those the loop has still to visit. */
  predicate OfferedBy(s: Slot, s': Slot, e: EnvId, chosen: bool) {
    s'.offered == s.offered + if chosen && s.active then [e] else []
  }

  /** No selected active slot from i up to j makes the publisher wait. */
  predicate Open(c: Core, subs: set<nat>, i: nat, j: nat)
    requires j < |c.slots|
  {
    forall l :: i <= l <= j && l in subs && c.slots[l].active ==> !Blocks(c.slots[l])
  }

  /** A publish offers the event to the selected active slots up to the first that makes it wait, and to no others. */
  lemma {:induction false} PublishOffers(c: Core, e: EnvId, subs: set<nat>, i: nat, err: Status)
    requires i <= |c.slots| == SLOTS
    ensures var (c', r) := PublishFrom(c, e, subs, i, err);
            && c'.metrics.refused == c.metrics.refused
            && (forall j :: 0 <= j < SLOTS ==>
                  OfferedBy(c.slots[j], c'.slots[j], e, i <= j && j in subs && Open(c, subs, i, j)))
            && (r.Done? ==> forall j :: i <= j < SLOTS ==> Open(c, subs, i, j))
            && (r.Blocked? ==> i <= r.slot < SLOTS && r.slot in subs && c.slots[r.slot].active && Blocks(c.slots[r.slot])
                               && r.sub == c.slots[r.slot].sub && forall j :: i <= j < r.slot ==> Open(c, subs, i, j))
    decreases SLOTS - i
  {
    hide Accept, Blocks, Open, PublishFrom;
    PublishStepIs(c, e, subs, i, err);
    if i == SLOTS {
    } else if i !in subs || !c.slots[i].active {
      PublishOffers(c, e, subs, i + 1, err);
      OpenNext(c, subs, i);
    } else {
      var c1 := c.(metrics := c.metrics.(matched := c.metrics.matched + 1));
      if !Blocks(c.slots[i]) {
        AcceptOffers(c1, i, e);
        var c2 := Accept(c1, i, e);
        PublishOffers(c2, e, subs, i + 1, err);
        OpenNext(c, subs, i);
        OpenSame(c, c2, subs, i, i + 1);
        var c' := PublishFrom(c2, e, subs, i + 1, err).0;
        forall j | 0 <= j < SLOTS
          ensures OfferedBy(c.slots[j], c'.slots[j], e, i <= j && j in subs && Open(c, subs, i, j))
        {
          assert OfferedBy(c2.slots[j], c'.slots[j], e, i + 1 <= j && j in subs && Open(c2, subs, i + 1, j));
        }
      } else {
        OpenBlocked(c, subs, i);
      }
    }
  }

  lemma PublishStepIs(c: Core, e: EnvId, subs: set<nat>, i: nat, err: Status)
    requires i <= |c.slots| == SLOTS
    ensures var c1 := c.(metrics := c.metrics.(matched := c.metrics.matched + 1));
            PublishFrom(c, e, subs, i, err) ==
              if i == SLOTS then (c.(refs := Release(c, e).refs, faults := Release(c, e).faults), Done(err))
              else if i !in subs || !c.slots[i].active then PublishFrom(c, e, subs, i + 1, err)
              else if Blocks(c.slots[i]) then (c1, Blocked(i, c.slots[i].generation, c.slots[i].sub, err))
              else PublishFrom(Accept(c1, i, e), e, subs, i + 1, err)
  {
    hide Accept, Blocks;
  }

  lemma OpenBlocked(c: Core, subs: set<nat>, i: nat)
    requires i < |c.slots| && i in subs && c.slots[i].active && Blocks(c.slots[i])
    ensures forall j :: i <= j < |c.slots| ==> !Open(c, subs, i, j)
  {
    hide Blocks;
  }

  lemma OpenNext(c: Core, subs: set<nat>, i: nat)
    requires i < |c.slots| && (i in subs && c.slots[i].active ==> !Blocks(c.slots[i]))
    ensures forall j :: i <= j < |c.slots| ==> (Open(c, subs, i, j) <==> Open(c, subs, i + 1, j))
    ensures Open(c, subs, i, i)
  {
    hide Blocks;
  }

  lemma OpenSame(c: Core, c': Core, subs: set<nat>, i: nat, n: nat)
    requires i < n && |c'.slots| == |c.slots| && forall l :: 0 <= l < |c.slots| && l != i ==> c'.slots[l] == c.slots[l]
    ensures forall j :: 0 <= j < |c.slots| ==> (Open(c, subs, n, j) <==> Open(c', subs, n, j))
  {
    hide Blocks;
  }

  lemma AcceptOffers(c: Core, i: nat, e: EnvId)
    requires i < |c.slots|
    ensures var c' := Accept(c, i, e);
            && |c'.slots| == |c.slots|
            && c'.metrics.refused == c.metrics.refused
            && (forall j :: 0 <= j < |c.slots| && j != i ==> c'.slots[j] == c.slots[j])
            && c'.slots[i].offered == c.slots[i].offered + [e] && c'.slots[i].active == c.slots[i].active
  {
    hide RetainRef, ReleaseRef, Replaced, Full, ReadyPush;
    var s := c.slots[i];
    if Full(s) && s.policy == DropNewest { OffersAt(c, SkipNewest(c, i, e), i, e); }
    else if Full(s) && s.policy == CoalesceLatest && s.mailbox != [] { OffersAt(c, ReplaceLatest(c, i, e), i, e); }
    else if Full(s) && s.policy == DropOldest && s.mailbox != [] {
      OffersAt(c, ReadyPush(ReplaceOldest(c, i, e), i), i, e);
    } else {
      OffersAt(c, ReadyPush(Enqueue(c, i, e), i), i, e);
    }
  }

  lemma OffersAt(c: Core, c': Core, i: nat, e: EnvId)
    requires i < |c.slots| == |c'.slots| && c'.slots == c.slots[i := c'.slots[i]]
    requires c'.slots[i].offered == c.slots[i].offered + [e] && c'.slots[i].active == c.slots[i].active
    ensures forall j :: 0 <= j < |c.slots| && j != i ==> c'.slots[j] == c.slots[j]
  {
  }

  // ---- the history invariant ----------------------------------------------------------------------

  lemma SelectedSnoc(log: seq<Event>, ev: Event, since: nat, topic: Option<Topic>)
    requires since <= |log|
    ensures Selected(log + [ev], since, topic) ==
            Selected(log, since, topic) + if Wants(topic, ev) then [|log|] else []
  {
    assert (log + [ev])[..|log|] == log;
  }

  /** Every slot keeps what it was offered, and no new slot becomes active. */
  ghost predicate SameOffers(c: Core, c': Core) {
    && |c'.slots| == |c.slots| && c'.log == c.log && c'.metrics.refused == c.metrics.refused && c'.mode == c.mode
    && forall i :: 0 <= i < |c.slots| && c'.slots[i].active ==>
         c.slots[i].active && c'.slots[i].offered == c.slots[i].offered
         && c'.slots[i].since == c.slots[i].since && c'.slots[i].topic == c.slots[i].topic
         && c'.slots[i].sub == c.slots[i].sub && c'.slots[i].policy == c.slots[i].policy
  }

  lemma HistoryKept(w: World, w': World)
    requires HistoryInv(w) && SameOffers(w.core, w'.core) && w'.slept == w.slept
    requires forall k :: 0 <= k < |w'.threads| && w'.threads[k].Waiting? ==>
               exists l :: 0 <= l < |w.threads| && w.threads[l].Waiting?
    ensures HistoryInv(w')
  {
  }

  lemma HistorySubscribe(w: World, topic: Option<Topic>, handler: nat, policy: Option<Policy>, capacity: nat)
    requires WorldInv(w) && HistoryInv(w)
    ensures HistoryInv(Next(w, Step.Subscribe(topic, handler, policy, capacity)))
  {
    hide CoreInv, ThreadsOk, LeavingOk, ClosedOk, FlyingOk, Install, TotalLoad;
    var c := w.core;
    SubscribeInv(c, TotalLoad(w.threads), topic, handler, policy, capacity);
    var (status, h, c') := EventBusCore.Subscribe(c, topic, handler, policy, capacity);
    if status == Ok { InstallOffers(c, h.slot, NewSubscription(c, c.slots[h.slot], topic, handler, policy, capacity)); }
  }

  lemma InstallOffers(c: Core, i: nat, s: Slot)
    requires i < |c.slots| && s.since == |c.log| && s.offered == []
    ensures var c' := Install(c, i, s);
            && (forall j :: 0 <= j < |c.slots| && j != i ==> c'.slots[j] == c.slots[j])
            && |c'.slots| == |c.slots|
            && c'.log == c.log && c'.metrics == c.metrics && c'.mode == c.mode && OfferedOk(c'.slots[i], c.log)
  {
    hide DirAdd;
  }

  lemma DeactivateOffers(c: Core, i: nat)
    requires i < |c.slots| && Deactivate(c, i).slots == c.slots[i := c.slots[i].(active := false, mailbox := [])]
    ensures SameOffers(c, Deactivate(c, i))
  {
    hide DirRemove, Without;
    ReleaseAllFrame(c, c.slots[i].mailbox);
  }

  lemma {:induction false} HistoryUnsubscribe(w: World, h: Handle, patient: bool)
    requires WorldInv(w) && HistoryInv(w)
    ensures HistoryInv(UnsubscribeStep(w, h, patient))
  {
    hide CoreInv, ThreadsOk, LeavingOk, ClosedOk, FlyingOk, TotalLoad, Deactivate, Retire, HistoryInv, SameOffers;
    if h.slot < SLOTS && w.core.slots[h.slot].generation == h.generation && h.slot !in w.leaving {
      DeactivateInv(w.core, TotalLoad(w.threads), h.slot);
      DeactivateOffers(w.core, h.slot);
      var c := Deactivate(w.core, h.slot);
      RetireOffers(w.core, c, h.slot);
      HistoryKept(w, UnsubscribeStep(w, h, patient));
    }
  }

  lemma RetireOffers(c: Core, c': Core, i: nat)
    requires SameOffers(c, c') && i < |c'.slots| && !c'.slots[i].active
    ensures SameOffers(c, Retire(c', i))
  {
    hide NextGeneration;
  }

  lemma HistoryUnsubscribeWake(w: World, i: nat, timedOut: bool)
    requires WorldInv(w) && HistoryInv(w)
    ensures HistoryInv(UnsubscribeWakeStep(w, i, timedOut))
  {
    hide CoreInv, ThreadsOk, ClosedOk, FlyingOk, TotalLoad;
    HistoryKept(w, UnsubscribeWakeStep(w, i, timedOut));
  }

  /** Before the first wait there is no waiting publisher to wake. */
  lemma HistoryPublishWake(w: World, k: nat, timedOut: bool)
    requires WorldInv(w) && HistoryInv(w)
    ensures HistoryInv(PublishWakeStep(w, k, timedOut))
  {
    hide CoreInv, LeavingOk, ClosedOk, FlyingOk, TotalLoad, Resume;
    if k < |w.threads| && w.threads[k].Waiting? {
      assert ThreadOk(w.core, w.threads[k]);
      assert w.slept;
    }
  }

  lemma HistoryPublish(w: World, ev: Event)
    requires WorldInv(w) && HistoryInv(w)
    ensures HistoryInv(PublishStep(w, ev))
  {
    var w' := PublishStep(w, ev);
    if !w.core.shuttingDown && w.core.mode == Async && !w'.slept && !w.slept {
      hide CoreInv, ThreadsOk, LeavingOk, ClosedOk, FlyingOk, TotalLoad, PublishFrom, Matching;
      var c, e := w.core, |w.core.log|;
      var c1, subs := Announce(c, ev), Matching(c, ev.topic);
      var (c', r) := PublishFrom(c1, e, subs, 0, Ok);
      assert r.Done?;
      AnnounceStep(w, ev);
      PublishOffers(c1, e, subs, 0, Ok);
      var load := TotalLoad(w.threads);
      PublishInv(c1, load.(held := load.held + multiset{e}), e, subs, 0, Ok);
      MatchingIsScan(c, load, ev.topic);
      forall i | 0 <= i < SLOTS && c'.slots[i].active ensures OfferedOk(c'.slots[i], c'.log) {
        assert SameIdentity(c1.slots[i], c'.slots[i]);
        assert OfferedBy(c1.slots[i], c'.slots[i], e, i in subs && Open(c1, subs, 0, i));
        assert OfferedOk(c.slots[i], c.log);
        SelectedSnoc(c.log, ev, c.slots[i].since, c.slots[i].topic);
      }
    }
  }

  lemma HistoryPoll(w: World, k: nat)
    requires WorldInv(w) && HistoryInv(w)
    ensures HistoryInv(PollStep(w, k))
  {
    hide CoreInv, ThreadsOk, LeavingOk, ClosedOk, FlyingOk, TotalLoad, HistoryInv, SameOffers, Take;
    if k < |w.threads| && w.threads[k].Idle? {
      TakeOffers(w.core);
      HistoryKept(w, PollStep(w, k));
    }
  }

  lemma TakeOffers(c: Core)
    ensures SameOffers(c, Take(c).1)
  {
    hide ReadyPop;
  }

  lemma HistoryFinish(w: World, k: nat)
    requires WorldInv(w) && HistoryInv(w)
    ensures HistoryInv(FinishStep(w, k))
  {
    hide CoreInv, ThreadsOk, LeavingOk, ClosedOk, FlyingOk, TotalLoad, ReadyPush;
    HistoryKept(w, FinishStep(w, k));
  }

  lemma HistoryNext(w: World, step: Step)
    requires WorldInv(w) && HistoryInv(w)
    ensures HistoryInv(Next(w, step))
  {
    hide CoreInv, ThreadsOk, LeavingOk, ClosedOk, FlyingOk, TotalLoad;
    match step
    case Subscribe(topic, handler, policy, capacity) => HistorySubscribe(w, topic, handler, policy, capacity);
    case Unsubscribe(h, patient) => HistoryUnsubscribe(w, h, patient);
    case Publish(ev) => HistoryPublish(w, ev);
    case Poll(k) => HistoryPoll(w, k);
    case Finish(k) => HistoryFinish(w, k);
    case UnsubscribeWake(i, timedOut) => HistoryUnsubscribeWake(w, i, timedOut);
    case PublishWake(k, timedOut) => HistoryPublishWake(w, k, timedOut);
    case TakeSnapshot(k) => HistorySync(w, step);
    case Delivered(k) => HistorySync(w, step);
    case Shutdown => HistoryKept(w, Next(w, step));
  }

  lemma HistorySync(w: World, step: Step)
    requires WorldInv(w) && HistoryInv(w) && (step.TakeSnapshot? || step.Delivered?)
    ensures HistoryInv(Next(w, step))
  {
    hide CoreInv, LeavingOk, ClosedOk, FlyingOk, TotalLoad, Release, EventBusCore.TakeSnapshot, SyncDelivered;
    var k := step.thread;
    if k < |w.threads| && (w.threads[k].Announced? || w.threads[k].Delivering?) {
      assert ThreadOk(w.core, w.threads[k]);
      assert Next(w, step).core.mode == Sync by { NextMode(w, step); }
    }
  }

  lemma NextMode(w: World, step: Step)
    requires WorldInv(w) && (step.TakeSnapshot? || step.Delivered?)
    ensures Next(w, step).core.mode == w.core.mode
  {
    hide WorldInv;
  }

  lemma InitHistory(mode: Mode, workers: nat, capacity: nat)
    ensures HistoryInv(Init(mode, workers, capacity))
  {
  }

  lemma {:induction false} RunHistory(mode: Mode, workers: nat, capacity: nat, steps: seq<Step>)
    ensures HistoryInv(Run(mode, workers, capacity, steps))
  {
    hide WorldInv, HistoryInv, Next, Init;
    if steps == [] {
      InitHistory(mode, workers, capacity);
    } else {
      var before := Run(mode, workers, capacity, steps[..|steps| - 1]);
      RunHistory(mode, workers, capacity, steps[..|steps| - 1]);
      RunInv(mode, workers, capacity, steps[..|steps| - 1]);
      HistoryNext(before, steps[|steps| - 1]);
    }
  }

  // ---- the guarantees -----------------------------------------------------------------------------

  /**
   Deliveries of one subscription are serial and ordered. At most one worker serves a slot; what was
   handed over so far, followed by the mailbox, is a subsequence of what the subscription was offered,
   and all of it if nothing was lost; a mailbox never exceeds its capacity.
   */
  lemma SerialOrderedDelivery(w: World)
    requires Reachable(w)
    ensures |w.core.slots| == SLOTS
    ensures forall k, l :: 0 <= k < l < |w.threads| && w.threads[k].Serving? && w.threads[l].Serving? ==>
              w.threads[k].task.slot != w.threads[l].task.slot
    ensures forall i :: 0 <= i < SLOTS ==> |w.core.slots[i].mailbox| <= w.core.slots[i].capacity <= MAILBOX_MAX
    ensures forall i :: 0 <= i < SLOTS && w.core.slots[i].active ==>
              var s := w.core.slots[i];
              && Subsequence(s.taken + s.mailbox, s.offered)
              && (s.lossless ==> s.taken + s.mailbox == s.offered)
  {
    ReachableInv(w);
    hide CoreInv, Reachable, ThreadsOk, LeavingOk, ClosedOk, FlyingOk, TotalLoad, Subsequence;
    SlotsOrdered(w.core, TotalLoad(w.threads));
    forall k, l | 0 <= k < l < |w.threads| && w.threads[k].Serving? && w.threads[l].Serving?
      ensures w.threads[k].task.slot != w.threads[l].task.slot
    {
      ServedApart(w, k, l);
    }
  }

  lemma SlotsOrdered(c: Core, load: Load)
    requires CoreInv(c, load) && |c.slots| == SLOTS
    ensures forall i :: 0 <= i < SLOTS ==>
              var s := c.slots[i];
              && |s.mailbox| <= s.capacity <= MAILBOX_MAX
              && (s.active ==> Subsequence(s.taken + s.mailbox, s.offered)
                               && (s.lossless ==> s.taken + s.mailbox == s.offered))
  {
    hide CoreInv, Subsequence;
    forall i | 0 <= i < SLOTS
      ensures var s := c.slots[i];
              && |s.mailbox| <= s.capacity <= MAILBOX_MAX
              && (s.active ==> Subsequence(s.taken + s.mailbox, s.offered)
                               && (s.lossless ==> s.taken + s.mailbox == s.offered))
    {
      SlotFacts(c, load, i);
    }
  }

  lemma ServedApart(w: World, k: nat, l: nat)
    requires WorldInv(w) && k < l < |w.threads| && w.threads[k].Serving? && w.threads[l].Serving?
    ensures w.threads[k].task.slot != w.threads[l].task.slot
  {
    hide CoreInv, LeavingOk, ClosedOk, TotalLoad;
    ServingTwice(w.threads, k, l);
    assert ThreadOk(w.core, w.threads[k]);
  }

  lemma {:induction false} ServingOnce(ts: seq<Thread>, k: nat)
    requires k < |ts| && ts[k].Serving?
    ensures TotalLoad(ts).flying[ts[k].task.slot] >= 1
  {
    if k > 0 { ServingOnce(ts[1..], k - 1); }
  }

  /** Two workers on one slot would count twice. */
  lemma {:induction false} ServingTwice(ts: seq<Thread>, k: nat, l: nat)
    requires k < l < |ts| && ts[k].Serving? && ts[l].Serving?
    ensures ts[k].task.slot == ts[l].task.slot ==> TotalLoad(ts).flying[ts[k].task.slot] >= 2
  {
    if k == 0 { ServingOnce(ts[1..], l - 1); } else { ServingTwice(ts[1..], k - 1, l - 1); }
  }

  /**
   In a run of publishes that never had to wait, an active subscription has been offered exactly the
   events published since it was made whose topic it wants, in publication order.
   */
  lemma OfferedIsPublished(w: World, i: nat)
    requires Reachable(w) && w.core.mode == Async && !w.slept
    requires i < |w.core.slots| && w.core.slots[i].active
    ensures w.core.slots[i].offered == Selected(w.core.log, w.core.slots[i].since, w.core.slots[i].topic)
    ensures w.core.metrics.refused == 0
  {
    var mode, workers, capacity, steps :| w == Run(mode, workers, capacity, steps);
    RunHistory(mode, workers, capacity, steps);
    assert OfferedOk(w.core.slots[i], w.core.log);
  }

  /** The ready ring holds exactly the slots that are active, idle and have mail, each of them once. */
  lemma NoStrandedMail(w: World)
    requires Reachable(w)
    ensures Distinct(w.core.ring)
    ensures forall i: nat :: i in w.core.ring <==>
              i < |w.core.slots| && w.core.slots[i].active && !w.core.slots[i].busy && w.core.slots[i].mailbox != []
  {
    ReachableInv(w);
    hide Reachable;
    assert RingOk(w.core.slots, w.core.ring);
    forall i: nat | i in w.core.ring ensures i < |w.core.slots| && Deliverable(w.core.slots[i]) {
      var k :| 0 <= k < |w.core.ring| && w.core.ring[k] == i;
    }
    forall i: nat | i < |w.core.slots| && Deliverable(w.core.slots[i]) ensures i in w.core.ring {}
  }

  /** A worker leaves only after shutdown, and only when all mail belongs to slots that others are serving. */
  lemma WorkerExit(w: World, k: nat)
    requires Reachable(w) && k < |w.threads| && w.threads[k].Idle? && PollStep(w, k).threads[k].Exited?
    ensures w.core.shuttingDown
    ensures forall i :: 0 <= i < |w.core.slots| && w.core.slots[i].mailbox != [] ==>
              w.core.slots[i].busy && exists l :: 0 <= l < |w.threads| && w.threads[l].Serving? && w.threads[l].task.slot == i
  {
    ReachableInv(w);
    var load := TotalLoad(w.threads);
    assert CoreInv(w.core, load) by { InvCore(w); }
    hide CoreInv, WorldInv, TotalLoad, Reachable;
    TakeInv(w.core, load);
    forall i | 0 <= i < SLOTS && w.core.slots[i].mailbox != []
      ensures w.core.slots[i].busy
      ensures exists l :: 0 <= l < |w.threads| && w.threads[l].Serving? && w.threads[l].task.slot == i
    {
      SlotFacts(w.core, load, i);
      assert !Deliverable(w.core.slots[i]);
      BusyHasWorker(w.threads, i);
    }
  }

  lemma {:induction false} BusyHasWorker(ts: seq<Thread>, i: nat)
    requires i in TotalLoad(ts).busy
    ensures exists l :: 0 <= l < |ts| && ts[l].Serving? && ts[l].task.slot == i
  {
    hide TaskSlots;
    var l := BusyWorker(ts, i);
    assert ts[l].Serving? && ts[l].task.slot == i;
  }

  lemma {:induction false} BusyWorker(ts: seq<Thread>, i: nat) returns (l: nat)
    requires i in TotalLoad(ts).busy
    ensures l < |ts| && ts[l].Serving? && ts[l].task.slot == i
  {
    hide TotalLoad, LoadOf;
    BusySplits(ts, i);
    if ts[0].Serving? && ts[0].task.slot == i {
      l := 0;
    } else {
      l := BusyWorker(ts[1..], i);
      l := l + 1;
    }
  }

  lemma BusySplits(ts: seq<Thread>, i: nat)
    requires i in TotalLoad(ts).busy
    ensures ts != []
    ensures (ts[0].Serving? && ts[0].task.slot == i) || i in TotalLoad(ts[1..]).busy
  {
    hide TaskSlots;
  }

  /**
   The slots a publish selects are those a scan over the active slots would find. Every listed topic has
   a subscriber, and the directory never fills up: subscribe fails only for want of a slot or at shutdown.
   */
  lemma DirectoryIsScan(w: World, t: Topic)
    requires Reachable(w)
    ensures forall i: nat :: i in Matching(w.core, t) <==>
              i < |w.core.slots| && w.core.slots[i].active
              && (w.core.slots[i].topic.None? || w.core.slots[i].topic == Some(t))
    ensures t in w.core.dir <==> exists i :: 0 <= i < |w.core.slots| && Subscribes(w.core.slots, i, Some(t))
    ensures |w.core.dir| <= SLOTS < TOPIC_CAPACITY
  {
    ReachableInv(w);
    MatchingIsScan(w.core, TotalLoad(w.threads), t);
    DirectoryHasRoom(w.core, TotalLoad(w.threads));
    if t in w.core.dir {
      var i :| i in w.core.dir[t];
      assert Listed(w.core.dir, t, i);
    }
    if i :| 0 <= i < |w.core.slots| && Subscribes(w.core.slots, i, Some(t)) {
      assert Listed(w.core.dir, t, i);
    }
  }

  lemma {:induction false} SubscribeFailsOnlyWhenFull(w: World, topic: Option<Topic>, handler: nat, policy: Option<Policy>, capacity: nat)
    requires Reachable(w)
    ensures |w.core.slots| == SLOTS
    ensures var status := EventBusCore.Subscribe(w.core, topic, handler, policy, capacity).0;
            && (status == Cancelled <==> w.core.shuttingDown)
            && (status == LimitExceeded <==>
                  !w.core.shuttingDown && forall i :: 0 <= i < SLOTS ==> !Free(w.core.slots[i]))
            && status in {Ok, Cancelled, LimitExceeded}
  {
    ReachableInv(w);
    hide CoreInv, Reachable, ThreadsOk, LeavingOk, ClosedOk, FlyingOk, TotalLoad;
    DirectoryHasRoom(w.core, TotalLoad(w.threads));
    SubscribeStatus(w.core, topic, handler, policy, capacity);
  }

  lemma SubscribeStatus(c: Core, topic: Option<Topic>, handler: nat, policy: Option<Policy>, capacity: nat)
    requires |c.slots| == SLOTS && |c.dir| <= SLOTS
    ensures var status := EventBusCore.Subscribe(c, topic, handler, policy, capacity).0;
            && (status == Cancelled <==> c.shuttingDown)
            && (status == LimitExceeded <==> !c.shuttingDown && forall i :: 0 <= i < SLOTS ==> !Free(c.slots[i]))
            && status in {Ok, Cancelled, LimitExceeded}
  {
    hide Free, Install, NewSubscription;
  }

  /** No defensive guard is ever taken: no release of a dead envelope, no full ring, no count below zero. */
  lemma GuardsNeverTaken(w: World)
    requires Reachable(w)
    ensures w.core.faults == 0
  {
    ReachableInv(w);
  }

  /** How many references to e the threads hold. */
  function Holds(t: Thread, e: EnvId): nat {
    match t
    case Serving(task) => if task.env == e then 1 else 0
    case Waiting(env, _, _) => if env == e then 1 else 0
    case Announced(env) => if env == e then 1 else 0
    case Delivering(env, _) => if env == e then 1 else 0
    case _ => 0
  }

  function HoldsOfAll(ts: seq<Thread>, e: EnvId): nat {
    if ts == [] then 0 else Holds(ts[0], e) + HoldsOfAll(ts[1..], e)
  }

  function Occurrences(box: seq<EnvId>, e: EnvId): nat {
    if box == [] then 0 else (if box[0] == e then 1 else 0) + Occurrences(box[1..], e)
  }

  function OccurrencesOfAll(slots: seq<Slot>, e: EnvId): nat {
    if slots == [] then 0 else Occurrences(slots[0].mailbox, e) + OccurrencesOfAll(slots[1..], e)
  }

  lemma {:induction false} HoldsCount(ts: seq<Thread>, e: EnvId)
    ensures HoldsOfAll(ts, e) == TotalLoad(ts).held[e]
  {
    hide LoadOf, Holds, TaskSlots;
    if ts != [] {
      HoldsCount(ts[1..], e);
      HoldsOne(ts[0], e);
    }
  }

  lemma HoldsOne(t: Thread, e: EnvId)
    ensures Holds(t, e) == LoadOf(t).held[e]
  {
    hide TaskSlots;
  }

  lemma {:induction false} OccurrencesCount(box: seq<EnvId>, e: EnvId)
    ensures Occurrences(box, e) == multiset(box)[e]
  {
    if box != [] {
      assert box == [box[0]] + box[1..];
      OccurrencesCount(box[1..], e);
    }
  }

  lemma {:induction false} MailCount(slots: seq<Slot>, e: EnvId)
    ensures OccurrencesOfAll(slots, e) == Mail(slots)[e]
  {
    if slots != [] {
      OccurrencesCount(slots[0].mailbox, e);
      MailCount(slots[1..], e);
    }
  }

  /**
   The reference count of a live envelope is the number of mailbox entries and threads that hold it, and
   an envelope nobody holds has been freed.
   */
  lemma EnvelopeConservation(w: World, e: EnvId)
    requires Reachable(w)
    ensures var holders := OccurrencesOfAll(w.core.slots, e) + HoldsOfAll(w.threads, e);
            if e in w.core.refs then w.core.refs[e] == holders && holders > 0 && e < |w.core.log| else holders == 0
  {
    ReachableInv(w);
    MailCount(w.core.slots, e);
    HoldsCount(w.threads, e);
    var total := Mail(w.core.slots) + TotalLoad(w.threads).held;
    assert RefsOk(w.core.refs, total);
    assert e in w.core.refs <==> e in total;
  }

  function Queued(slots: seq<Slot>): nat {
    if slots == [] then 0 else |slots[0].mailbox| + Queued(slots[1..])
  }

  /** Deliveries under way: one per serving worker, and all that a synchronous publisher still has to make. */
  function InFlight(ts: seq<Thread>): nat {
    if ts == [] then 0
    else (if ts[0].Serving? then 1 else if ts[0].Delivering? then |ts[0].todo| else 0) + InFlight(ts[1..])
  }

  function WaitingPublishers(ts: seq<Thread>): nat {
    if ts == [] then 0 else (if ts[0].Waiting? then 1 else 0) + WaitingPublishers(ts[1..])
  }

  lemma {:induction false} OpenCount(ts: seq<Thread>)
    ensures TotalLoad(ts).open == InFlight(ts) + WaitingPublishers(ts)
  {
    if ts != [] { OpenCount(ts[1..]); }
  }

  lemma {:induction false} QueuedCount(slots: seq<Slot>)
    ensures |Mail(slots)| == Queued(slots)
  {
    if slots != [] { QueuedCount(slots[1..]); }
  }

  lemma {:induction false} NobodyWaits(ts: seq<Thread>)
    requires forall k :: 0 <= k < |ts| ==> !ts[k].Waiting?
    ensures WaitingPublishers(ts) == 0
  {
    if ts != [] { NobodyWaits(ts[1..]); }
  }

  /**
   Every matched delivery is delivered, in flight, queued, dropped by a policy, discarded by unsubscribe,
   refused after a wait, or being waited for. In asynchronous mode, until a publisher first has to wait,
   the last two are zero.
   */
  lemma EventConservation(w: World)
    requires Reachable(w)
    ensures var m := w.core.metrics;
            m.matched == m.delivered + InFlight(w.threads) + Queued(w.core.slots) + m.droppedNewest + m.droppedOldest
                         + m.coalesced + m.discarded + m.refused + WaitingPublishers(w.threads)
    ensures w.core.mode == Async && !w.slept ==> w.core.metrics.refused == 0 && WaitingPublishers(w.threads) == 0
  {
    ReachableInv(w);
    OpenCount(w.threads);
    QueuedCount(w.core.slots);
    if w.core.mode == Async && !w.slept {
      var mode, workers, capacity, steps :| w == Run(mode, workers, capacity, steps);
      RunHistory(mode, workers, capacity, steps);
      NobodyWaits(w.threads);
    }
  }

  // ---- unsubscribe is final -----------------------------------------------------------------------

  lemma InvSlots(w: World)
    requires WorldInv(w)
    ensures |w.core.slots| == SLOTS
  {
  }

  lemma ClosedGrows(w: World, step: Step)
    requires WorldInv(w)
    ensures w.closed <= Next(w, step).closed
  {
    hide WorldInv, CoreInv;
    InvSlots(w);
  }

  lemma {:induction false} ClosedForever(mode: Mode, workers: nat, capacity: nat, steps: seq<Step>, n: nat)
    requires n <= |steps|
    ensures Run(mode, workers, capacity, steps[..n]).closed <= Run(mode, workers, capacity, steps).closed
    decreases |steps|
  {
    hide WorldInv, Next, Init;
    if n == |steps| {
      assert steps[..n] == steps;
    } else {
      var shorter := steps[..|steps| - 1];
      assert shorter[..n] == steps[..n];
      ClosedForever(mode, workers, capacity, shorter, n);
      RunInv(mode, workers, capacity, shorter);
      ClosedGrows(Run(mode, workers, capacity, shorter), steps[|steps| - 1]);
    }
  }

  predicate Delivers(t: Thread, sub: nat) {
    || (t.Serving? && t.task.sub == sub)
    || (t.Delivering? && exists l :: 0 <= l < |t.todo| && t.todo[l].sub == sub)
  }

  /**
   Once an unsubscribe has returned OK, no thread is delivering to that subscription, or has a delivery to
   it pending, in that state or in any later one, in either mode.
   */
  lemma UnsubscribeIsFinal(mode: Mode, workers: nat, capacity: nat, steps: seq<Step>, n: nat, sub: nat)
    requires n <= |steps| && sub in Run(mode, workers, capacity, steps[..n]).closed
    ensures var w := Run(mode, workers, capacity, steps);
            forall k :: 0 <= k < |w.threads| ==> !Delivers(w.threads[k], sub)
  {
    ClosedForever(mode, workers, capacity, steps, n);
    RunInv(mode, workers, capacity, steps);
    hide WorldInv, Run, Delivers;
    ClosedIsSilent(Run(mode, workers, capacity, steps), sub);
  }

  lemma ClosedIsSilent(w: World, sub: nat)
    requires WorldInv(w) && sub in w.closed
    ensures forall k :: 0 <= k < |w.threads| ==> !Delivers(w.threads[k], sub)
  {
    hide CoreInv, TotalLoad, LeavingOk, FlyingOk;
    forall k | 0 <= k < |w.threads| ensures !Delivers(w.threads[k], sub) {
      assert ThreadOk(w.core, w.threads[k]);
    }
  }

  /**
   The first attempt of an unsubscribe succeeds exactly if nothing is in flight. It then closes the
   subscription and makes its handle stale, so that a second unsubscribe with the same handle changes
   nothing.
   */
  lemma {:induction false} UnsubscribeOk(w: World, h: Handle, patient: bool)
    requires Reachable(w) && |w.core.slots| == SLOTS
    requires h.slot < SLOTS && w.core.slots[h.slot].generation == h.generation && h.slot !in w.leaving
    requires w.core.slots[h.slot].handler.Some?
    ensures var w' := UnsubscribeStep(w, h, patient);
            && |w'.core.slots| == SLOTS
            && (Free(w'.core.slots[h.slot]) <==> w.core.slots[h.slot].inflight == 0)
            && (w.core.slots[h.slot].inflight == 0 ==>
                  && w.core.slots[h.slot].sub in w'.closed
                  && w'.core.slots[h.slot].generation == NextGeneration(h.generation)
                  && UnsubscribeStep(w', h, patient) == w')
  {
    ReachableInv(w);
    hide WorldInv, Reachable, TotalLoad, Deactivate, CoreInv, Close, Free;
    assert CoreInv(w.core, TotalLoad(w.threads)) by { InvCore(w); }
    var c := Deactivate(w.core, h.slot);
    DeactivatedSlot(w.core, TotalLoad(w.threads), h.slot);
    if c.slots[h.slot].inflight == 0 { CloseOwner(w.(core := c), h.slot); }
    RetireGeneration(c, h.slot);
  }

  lemma InvCore(w: World)
    requires WorldInv(w)
    ensures CoreInv(w.core, TotalLoad(w.threads))
  {
    hide CoreInv, TotalLoad, ThreadsOk, LeavingOk, ClosedOk, FlyingOk;
  }

  /** Deactivation leaves the handler, the serial number and the deliveries in flight as they are. */
  lemma DeactivatedSlot(c: Core, load: Load, i: nat)
    requires CoreInv(c, load) && |c.slots| == SLOTS && i < SLOTS
    ensures var s, c' := c.slots[i], Deactivate(c, i);
            && |c'.slots| == SLOTS && c'.slots[i].handler == s.handler && c'.slots[i].sub == s.sub
            && c'.slots[i].inflight == s.inflight && c'.slots[i].generation == s.generation
            && 1 <= s.generation <= 0xFFFF && !c'.slots[i].active && (s.handler.Some? ==> !Free(c'.slots[i]))
  {
    hide CoreInv, Deactivate;
    DeactivateInv(c, load, i);
    SlotFacts(c, load, i);
  }

  lemma CloseOwner(w: World, i: nat)
    requires i < |w.core.slots| && w.core.slots[i].handler.Some? && !w.core.slots[i].active && w.core.slots[i].inflight == 0
    ensures var w' := Close(w, i);
            && w'.core == Retire(w.core, i) && |w'.core.slots| == |w.core.slots|
            && Free(w'.core.slots[i]) && w.core.slots[i].sub in w'.closed
  {
    hide NextGeneration;
  }

  lemma RetireGeneration(c: Core, i: nat)
    requires i < |c.slots| && 1 <= c.slots[i].generation <= 0xFFFF
    ensures Retire(c, i).slots[i].generation == NextGeneration(c.slots[i].generation) != c.slots[i].generation
  {
  }

  /** A slot is handed out only if no delivery to it is in flight and no unsubscribe on it is unfinished. */
  lemma SubscribeGivesIdleSlot(w: World, topic: Option<Topic>, handler: nat, policy: Option<Policy>, capacity: nat)
    requires Reachable(w)
    ensures var (status, h, c) := EventBusCore.Subscribe(w.core, topic, handler, policy, capacity);
            status == Ok ==>
              && h.slot < |w.core.slots| && !w.core.slots[h.slot].active && w.core.slots[h.slot].handler.None?
              && h.slot !in w.leaving
              && (forall k :: 0 <= k < |w.threads| && w.threads[k].Serving? ==> w.threads[k].task.slot != h.slot)
              && (forall k, l :: 0 <= k < |w.threads| && w.threads[k].Delivering? && 0 <= l < |w.threads[k].todo| ==>
                    w.threads[k].todo[l].slot != h.slot)
  {
    ReachableInv(w);
    hide CoreInv, Reachable, ThreadsOk, ClosedOk, FlyingOk, TotalLoad, Install;
    SubscribeInv(w.core, TotalLoad(w.threads), topic, handler, policy, capacity);
    var (status, h, c) := EventBusCore.Subscribe(w.core, topic, handler, policy, capacity);
    if status == Ok { NoTaskAt(w.threads, h.slot); }
  }

  function Generations(g: nat, k: nat): nat {
    if k == 0 then g else NextGeneration(Generations(g, k - 1))
  }

  /** A handle is stale after every number of reuses of its slot that is not a multiple of 65535. */
  lemma {:induction false} StaleHandle(g: nat, k: nat)
    requires 1 <= g <= 0xFFFF
    ensures Generations(g, k) == (g - 1 + k) % 0xFFFF + 1
    ensures Generations(g, k) == g <==> k % 0xFFFF == 0
  {
    if k > 0 {
      StaleHandle(g, k - 1);
      ModNext(g - 1 + (k - 1));
    }
    ModShift(g - 1, k);
  }

  lemma ModNext(x: nat)
    ensures (x + 1) % 0xFFFF == if x % 0xFFFF == 0xFFFE then 0 else x % 0xFFFF + 1
  {
  }

  lemma ModShift(x: nat, k: nat)
    requires x < 0xFFFF
    ensures (x + k) % 0xFFFF == x <==> k % 0xFFFF == 0
  {
  }
}
