/**
 No subscription is offered an event twice, however often publishers have slept; and its events are offered in
 the order in which they were published unless a woken publisher comes to it with an older one.
 */
module EventBusOrder {
  import opened Common
  import opened EventBusCore
  import opened EventBusInvariant
  import opened EventBusSections
  import opened EventBusWorld
  import opened EventBusTheorems
  import opened EventBusOffers
  import opened EventBusStale

  // ---- nothing is offered twice -------------------------------------------------------------------

  ghost predicate OfferedOnce(s: Slot, n: nat) {
    s.active ==> Distinct(s.offered) && forall i :: 0 <= i < |s.offered| ==> s.offered[i] < n
  }

  /** What a sleeping publisher has offered already lies in front of the slot that it sleeps on. */
  predicate Ahead(t: Thread, s: Slot, j: nat) {
    Sleeping(t) && s.active && t.env in s.offered ==> j < t.at.slot
  }

  /** Sleeping publishers hold different events, which have been published. */
  ghost predicate OwnEvents(ts: seq<Thread>, n: nat) {
    && (forall k :: 0 <= k < |ts| && Sleeping(ts[k]) ==> ts[k].env < n)
    && (forall k, l :: 0 <= k < l < |ts| && Sleeping(ts[k]) && Sleeping(ts[l]) ==> ts[k].env != ts[l].env)
  }

  ghost predicate OnceInv(w: World) {
    && (forall j :: 0 <= j < |w.core.slots| ==> OfferedOnce(w.core.slots[j], |w.core.log|))
    && OwnEvents(w.threads, |w.core.log|)
    && (forall k, j :: 0 <= k < |w.threads| && 0 <= j < |w.core.slots| ==> Ahead(w.threads[k], w.core.slots[j], j))
  }

  /** A thread that sleeps after a step slept before, with the same event, or is the publisher of a new one. */
  lemma SleeperFrom(w: World, step: Step, k: nat)
    requires WorldInv(w) && k < |Next(w, step).threads| && Sleeping(Next(w, step).threads[k])
    ensures var t' := Next(w, step).threads[k];
            if k < |w.threads| then
              && Sleeping(w.threads[k]) && t'.env == w.threads[k].env
              && (!(step.PublishWake? && step.thread == k) ==> t' == w.threads[k])
            else step.Publish? && k == |w.threads| && t'.env == |w.core.log| && !w.core.shuttingDown
  {
    hide CoreInv, FlyingOk, LeavingOk, ClosedOk, TotalLoad, Deactivate, Retire, Take, EventBusCore.Finish, Release,
      EventBusCore.TakeSnapshot, SyncDelivered, Matching, PublishFrom, Resume, EventBusCore.Subscribe, Announce;
    if k < |w.threads| { assert ThreadOk(w.core, w.threads[k]); }
  }

  lemma OwnStep(w: World, step: Step)
    requires WorldInv(w) && OwnEvents(w.threads, |w.core.log|)
    ensures OwnEvents(Next(w, step).threads, |Next(w, step).core.log|)
  {
    hide WorldInv, Next;
    StepOffers(w, step, 0);
    var ts := Next(w, step).threads;
    forall k | 0 <= k < |ts| && Sleeping(ts[k])
      ensures ts[k].env < |Next(w, step).core.log|
    {
      SleeperFrom(w, step, k);
      if k >= |w.threads| { LogGrows(w, step); }
    }
    forall k, l | 0 <= k < l < |ts| && Sleeping(ts[k]) && Sleeping(ts[l])
      ensures ts[k].env != ts[l].env
    {
      SleeperFrom(w, step, k);
      SleeperFrom(w, step, l);
    }
  }

  lemma LogGrows(w: World, step: Step)
    requires WorldInv(w) && step.Publish? && !w.core.shuttingDown && |w.core.slots| == SLOTS
    ensures Next(w, step).core.log == w.core.log + [step.ev]
  {
    hide WorldInv, PublishStep;
    PublishStepOffers(w, step.ev, 0);
  }

  /** A publisher that falls asleep has offered its event to the slots in front of the one it sleeps on. */
  lemma PublisherAhead(w: World, ev: Event, j: nat)
    requires WorldInv(w) && j < |w.core.slots| == SLOTS && !w.core.shuttingDown
    requires |PublishStep(w, ev).threads| > |w.threads| && Sleeping(PublishStep(w, ev).threads[|w.threads|])
    ensures NewOffers(w, Publish(ev), j) != [] ==> j < PublishStep(w, ev).threads[|w.threads|].at.slot
  {
    hide CoreInv, ThreadsOk, LeavingOk, ClosedOk, FlyingOk, TotalLoad, PublishFrom, Matching, Open, SameSubscriptions;
    var c, e := w.core, |w.core.log|;
    if c.mode == Async {
      var c1, subs := Announce(c, ev), Matching(c, ev.topic);
      var r := PublishFrom(c1, e, subs, 0, Ok).1;
      PublishOffers(c1, e, subs, 0, Ok);
      assert PublishStep(w, ev).threads[|w.threads|] == Waiting(e, subs, r);
      OpenAnnounced(c, ev, subs, 0, j);
      if r.slot <= j { ClosedBehind(c1, subs, 0, r.slot, j); }
    }
  }

  /** A woken publisher that falls asleep again has offered its event on the way. */
  lemma WokenAhead(w: World, k: nat, timedOut: bool, j: nat)
    requires WorldInv(w) && k < |w.threads| && Sleeping(w.threads[k]) && j < |w.core.slots| == SLOTS
    requires Sleeping(PublishWakeStep(w, k, timedOut).threads[k])
    ensures var t, t' := w.threads[k], PublishWakeStep(w, k, timedOut).threads[k];
            t.at.slot <= t'.at.slot && (Receives(w.core, t, timedOut, j) ==> j < t'.at.slot)
  {
    hide WorldInv, Resume, GoesOn, Open, SameSubscriptions, Blocks;
    WakeFacts(w, k, timedOut, j);
  }

  lemma AheadStep(w: World, step: Step, k: nat, j: nat)
    requires WorldInv(w) && OnceInv(w) && k < |Next(w, step).threads|
    requires j < SLOTS == |w.core.slots| == |Next(w, step).core.slots|
    ensures Ahead(Next(w, step).threads[k], Next(w, step).core.slots[j], j)
  {
    hide WorldInv, Next, Receives, Matching, Open, PublishStep, PublishWakeStep;
    var t', s, s' := Next(w, step).threads[k], w.core.slots[j], Next(w, step).core.slots[j];
    if Sleeping(t') && s'.active && t'.env in s'.offered {
      StepOffers(w, step, j);
      SleeperFrom(w, step, k);
      StepOf(w, step);
      if k >= |w.threads| {
        PublisherAhead(w, step.ev, j);
        assert t'.env !in s.offered by { NotYet(s, |w.core.log|); }
      } else {
        assert Ahead(w.threads[k], s, j);
        if step.PublishWake? && step.thread == k { WokenAhead(w, k, step.timedOut, j); }
        else { OthersOffer(w, step, k, j); }
      }
    }
  }

  lemma StepOf(w: World, step: Step)
    requires |w.core.slots| == SLOTS
    ensures step.Publish? ==> Next(w, step) == PublishStep(w, step.ev)
    ensures step.PublishWake? ==> Next(w, step) == PublishWakeStep(w, step.thread, step.timedOut)
  {
  }

  lemma NotYet(s: Slot, n: nat)
    requires OfferedOnce(s, n) && s.active
    ensures n !in s.offered
  {
  }

  /** What other threads offer is not the event of a sleeping publisher. */
  lemma OthersOffer(w: World, step: Step, k: nat, j: nat)
    requires OwnEvents(w.threads, |w.core.log|) && k < |w.threads| && Sleeping(w.threads[k])
    requires |w.core.slots| == SLOTS && j < SLOTS && !(step.PublishWake? && step.thread == k)
    ensures w.threads[k].env !in NewOffers(w, step, j)
  {
    hide Sleeping, Receives, Matching, Open;
  }

  lemma OnceStep(w: World, step: Step, j: nat)
    requires WorldInv(w) && OnceInv(w) && j < SLOTS == |w.core.slots| == |Next(w, step).core.slots|
    ensures OfferedOnce(Next(w, step).core.slots[j], |Next(w, step).core.log|)
  {
    hide WorldInv, Next, NewOffers, OwnEvents;
    StepOffers(w, step, j);
    NewOnce(w, step, j);
    var s, s', more := w.core.slots[j], Next(w, step).core.slots[j], NewOffers(w, step, j);
    if s'.active && s.active && s'.sub == s.sub {
      assert OfferedOnce(s, |w.core.log|);
      assert more != [] ==> forall i :: 0 <= i < |s.offered| ==> s.offered[i] in s.offered;
    }
  }

  /** What a step offers to an active subscription has not been offered to it before. */
  lemma NewOnce(w: World, step: Step, j: nat)
    requires WorldInv(w) && OnceInv(w) && j < SLOTS == |w.core.slots|
    ensures var more := NewOffers(w, step, j);
            |more| <= 1 && (w.core.slots[j].active && more != [] ==>
                              more[0] !in w.core.slots[j].offered && more[0] < |Next(w, step).core.log|)
  {
    hide WorldInv, Next, Sleeping, GoesOn, Matching, Open;
    var s := w.core.slots[j];
    StepOffers(w, step, j);
    if s.active {
      NotYet(s, |w.core.log|) by { assert OfferedOnce(s, |w.core.log|); }
      if step.Publish? && !w.core.shuttingDown { LogGrows(w, step); }
      if step.PublishWake? && step.thread < |w.threads| {
        assert Ahead(w.threads[step.thread], s, j);
      }
    }
  }

  lemma InvStep(w: World, step: Step)
    requires WorldInv(w) && OnceInv(w)
    ensures OnceInv(Next(w, step))
  {
    hide WorldInv, Next, Ahead, OfferedOnce, OwnEvents;
    StepOffers(w, step, 0);
    OwnStep(w, step);
    var w' := Next(w, step);
    forall j | 0 <= j < SLOTS
      ensures OfferedOnce(w'.core.slots[j], |w'.core.log|)
    {
      OnceStep(w, step, j);
    }
    forall k, j | 0 <= k < |w'.threads| && 0 <= j < SLOTS
      ensures Ahead(w'.threads[k], w'.core.slots[j], j)
    {
      AheadStep(w, step, k, j);
    }
  }

  lemma InitOnce(mode: Mode, workers: nat, capacity: nat)
    ensures OnceInv(Init(mode, workers, capacity))
  {
  }

  lemma {:induction false} RunOnce(mode: Mode, workers: nat, capacity: nat, steps: seq<Step>)
    ensures OnceInv(Run(mode, workers, capacity, steps))
  {
    hide OnceInv, Next, Init, WorldInv;
    if steps == [] {
      InitOnce(mode, workers, capacity);
    } else {
      RunOnce(mode, workers, capacity, steps[..|steps| - 1]);
      RunInv(mode, workers, capacity, steps[..|steps| - 1]);
      InvStep(Run(mode, workers, capacity, steps[..|steps| - 1]), steps[|steps| - 1]);
    }
  }

  /** In every reachable state no active subscription has been offered an event twice. */
  lemma OfferedAtMostOnce(w: World, j: nat)
    requires Reachable(w) && j < |w.core.slots| && w.core.slots[j].active
    ensures Distinct(w.core.slots[j].offered)
    ensures forall n :: 0 <= n < |w.core.slots[j].offered| ==> w.core.slots[j].offered[n] < |w.core.log|
  {
    hide Run, Ahead, OwnEvents, Distinct;
    var mode, workers, capacity, steps :| w == Run(mode, workers, capacity, steps);
    RunOnce(mode, workers, capacity, steps);
    assert OfferedOnce(w.core.slots[j], |w.core.log|);
  }

  // ---- the order of the offers ----------------------------------------------------------------------

  predicate Increasing(s: seq<EnvId>) {
    forall i, k :: 0 <= i < k < |s| ==> s[i] < s[k]
  }

  /** A woken publisher reaches an active slot with an event older than the last one offered there. */
  predicate Late(w: World, step: Step, j: nat)
    requires |w.core.slots| == SLOTS && j < SLOTS
  {
    && step.PublishWake? && step.thread < |w.threads|
    && var t, offered := w.threads[step.thread], w.core.slots[j].offered;
       Sleeping(t) && Receives(w.core, t, step.timedOut, j) && offered != [] && t.env < offered[|offered| - 1]
  }

  predicate InOrder(s: Slot) {
    s.active ==> Increasing(s.offered)
  }

  /** Every active subscription has been offered its events in the order of the log. */
  ghost predicate AllInOrder(w: World) {
    forall j :: 0 <= j < |w.core.slots| ==> InOrder(w.core.slots[j])
  }

  lemma IncreasingSnoc(s: seq<EnvId>, e: EnvId)
    requires Increasing(s)
    ensures Increasing(s + [e]) <==> s == [] || s[|s| - 1] < e
  {
    var t := s + [e];
    if s != [] { assert t[|s| - 1] == s[|s| - 1] && t[|s|] == e; }
  }

  /** One step keeps the order in a slot exactly if it is not late there. */
  lemma OrderStep(w: World, step: Step, j: nat)
    requires WorldInv(w) && OnceInv(w) && j < SLOTS == |w.core.slots| == |Next(w, step).core.slots|
    requires InOrder(w.core.slots[j])
    ensures InOrder(Next(w, step).core.slots[j]) <==> !Late(w, step, j)
  {
    hide WorldInv, Next, Receives, Matching, Open, Increasing, OwnEvents, Ahead, Distinct;
    StepOffers(w, step, j);
    NewOnce(w, step, j);
    var s, s', more := w.core.slots[j], Next(w, step).core.slots[j], NewOffers(w, step, j);
    if Late(w, step, j) { ReceiverStays(w, step, j); }
    if s'.active && s.active && s'.sub == s.sub {
      assert OfferedOnce(s, |w.core.log|);
      if more == [] {
        assert s.offered + [] == s.offered;
      } else {
        IncreasingSnoc(s.offered, more[0]);
        assert s.offered != [] ==> s.offered[|s.offered| - 1] in s.offered;
        assert s'.offered == s.offered + [more[0]];
      }
    } else {
      assert s'.active ==> Increasing([]) by { NothingIncreases(); }
    }
  }

  lemma NothingIncreases()
    ensures Increasing([])
  {
  }

  /** A subscription that a woken publisher reaches stays. */
  lemma ReceiverStays(w: World, step: Step, j: nat)
    requires WorldInv(w) && j < SLOTS && |w.core.slots| == SLOTS && step.PublishWake? && step.thread < |w.threads|
    requires Sleeping(w.threads[step.thread]) && Receives(w.core, w.threads[step.thread], step.timedOut, j)
    ensures var s' := Next(w, step).core.slots;
            |s'| == SLOTS && w.core.slots[j].active && s'[j].active && s'[j].sub == w.core.slots[j].sub
  {
    hide WorldInv, Resume, Receives, GoesOn, Open, SameSubscriptions, Blocks;
    var k := step.thread;
    ReceiverActive(w.core, w.threads[k], step.timedOut, j);
    WakeFacts(w, k, step.timedOut, j);
  }

  lemma AllOrderStep(w: World, step: Step)
    requires WorldInv(w) && OnceInv(w) && AllInOrder(w)
    ensures |w.core.slots| == SLOTS == |Next(w, step).core.slots|
    ensures AllInOrder(Next(w, step)) <==> forall j :: 0 <= j < SLOTS ==> !Late(w, step, j)
  {
    hide WorldInv, OnceInv, Next, Late, InOrder;
    StepOffers(w, step, 0);
    forall j | 0 <= j < SLOTS
      ensures InOrder(Next(w, step).core.slots[j]) <==> !Late(w, step, j)
    {
      OrderStep(w, step, j);
    }
  }

  /** Step n of the run offers slot j an older event. */
  predicate LateAt(mode: Mode, workers: nat, capacity: nat, steps: seq<Step>, n: nat, j: nat)
    requires n < |steps|
  {
    var w := Run(mode, workers, capacity, steps[..n]);
    |w.core.slots| == SLOTS && j < SLOTS && Late(w, steps[n], j)
  }

  /**
   Throughout a run every active subscription has been offered its events in the order in which they were
   published, exactly if no step of the run wakes a publisher that reaches a slot with an event older than the
   last one offered there.
   */
  lemma {:induction false} RunInOrderIff(mode: Mode, workers: nat, capacity: nat, steps: seq<Step>)
    ensures (forall n :: 0 <= n <= |steps| ==> AllInOrder(Run(mode, workers, capacity, steps[..n]))) <==>
              forall n: nat, j: nat :: n < |steps| ==> !LateAt(mode, workers, capacity, steps, n, j)
  {
    hide AllInOrder, LateAt, Run;
    if forall n: nat, j: nat :: n < |steps| ==> !LateAt(mode, workers, capacity, steps, n, j) {
      forall n | 0 <= n <= |steps|
        ensures AllInOrder(Run(mode, workers, capacity, steps[..n]))
      {
        InOrderUpTo(mode, workers, capacity, steps, n);
      }
    }
    if forall n :: 0 <= n <= |steps| ==> AllInOrder(Run(mode, workers, capacity, steps[..n])) {
      forall n: nat, j: nat | n < |steps|
        ensures !LateAt(mode, workers, capacity, steps, n, j)
      {
        assert AllInOrder(Run(mode, workers, capacity, steps[..n])) && AllInOrder(Run(mode, workers, capacity, steps[..n + 1]));
        OneOrderStep(mode, workers, capacity, steps, n);
      }
    }
  }

  lemma OneOrderStep(mode: Mode, workers: nat, capacity: nat, steps: seq<Step>, n: nat)
    requires n < |steps| && AllInOrder(Run(mode, workers, capacity, steps[..n]))
    ensures AllInOrder(Run(mode, workers, capacity, steps[..n + 1])) <==>
              forall j: nat :: !LateAt(mode, workers, capacity, steps, n, j)
  {
    hide AllInOrder, Late, WorldInv, OnceInv, Next, Init;
    var w, more := Run(mode, workers, capacity, steps[..n]), steps[..n + 1];
    assert more[..n] == steps[..n];
    RunInv(mode, workers, capacity, steps[..n]);
    RunOnce(mode, workers, capacity, steps[..n]);
    AllOrderStep(w, steps[n]);
    assert |more| == n + 1 && more[n] == steps[n];
    assert Run(mode, workers, capacity, more) == Next(w, steps[n]);
    assert forall j: nat :: LateAt(mode, workers, capacity, steps, n, j) <==> j < SLOTS && Late(w, steps[n], j);
  }

  lemma {:induction false} InOrderUpTo(mode: Mode, workers: nat, capacity: nat, steps: seq<Step>, n: nat)
    requires n <= |steps|
    requires forall n: nat, j: nat :: n < |steps| ==> !LateAt(mode, workers, capacity, steps, n, j)
    ensures AllInOrder(Run(mode, workers, capacity, steps[..n]))
  {
    hide AllInOrder, LateAt, Run;
    if n == 0 {
      InitInOrder(mode, workers, capacity);
      assert steps[..0] == [];
    } else {
      InOrderUpTo(mode, workers, capacity, steps, n - 1);
      OneOrderStep(mode, workers, capacity, steps, n - 1);
    }
  }

  lemma InitInOrder(mode: Mode, workers: nat, capacity: nat)
    ensures AllInOrder(Run(mode, workers, capacity, []))
  {
  }

  // ---- a run in which the order is lost ---------------------------------------------------------------

  const THIRD: Event := Event(TOPIC_A, "third")

  /** Two publishers sleep on the first slot; the later one wakes up first. */
  const BOTH_SLEEP: World := World(
    State(Two(Slow([0], [0], [], false), SecondA([0], [0])), map[TOPIC_A := {0, 1}], [0, 1], map[0 := 2, 1 := 1, 2 := 1],
          PUBLISHED + [THIRD], Metrics(3, 4, 0, 0, 0, 0, 0, 0), 2),
    [Idle, SLEEPER, Waiting(2, {0, 1}, Blocked(0, 1, 0, Ok))], {}, {}, true)

  const OVERTAKEN: World := World(
    State(Two(Slow([0], [0, 2], [], false).(lossless := false), SecondA([0, 2], [0, 2])), map[TOPIC_A := {0, 1}], [0, 1],
          map[0 := 2, 1 := 1, 2 := 1], PUBLISHED + [THIRD], Metrics(3, 5, 0, 0, 0, 0, 0, 1), 2),
    [Idle, SLEEPER, Gone], {}, {}, true)

  lemma AnotherSleeps()
    ensures Next(STAGE_3, Publish(THIRD)) == BOTH_SLEEP
  {
    var subs := Matching(STAGE_3.core, TOPIC_A);
    assert subs == {0, 1};
    var c := Announce(STAGE_3.core, THIRD);
    assert c.refs == map[0 := 2, 1 := 1, 2 := 1];
  }

  lemma Overtakes()
    ensures Next(BOTH_SLEEP, PublishWake(2, true)) == OVERTAKEN
  {
    var c := BOTH_SLEEP.core;
    var c1 := Refuse(c, 0, 0, 2);
    var zero: seq<EnvId> := [0];
    assert zero + [2] == [0, 2];
    assert c1.slots == Two(Slow([0], [0, 2], [], false).(lossless := false), SecondA([0], [0]));
    var c2 := Accept(c1.(metrics := c1.metrics.(matched := 5)), 1, 2);
    assert c2.slots[1] == SecondA([0, 2], [0, 2]);
    assert c2.slots == OVERTAKEN.core.slots;
    assert c2.refs == map[0 := 2, 1 := 1, 2 := 2] && c2.ring == [0, 1];
    PublishSkips(c2, 2, {0, 1}, 2, Timeout);
    assert PublishFrom(c1, 2, {0, 1}, 1, Timeout) == (Release(c2, 2), Done(Timeout));
    assert Release(c2, 2).refs == OVERTAKEN.core.refs;
  }

  lemma LateThere()
    ensures |OVERTAKEN.core.slots| == SLOTS && Late(OVERTAKEN, PublishWake(1, true), 1) && InOrder(OVERTAKEN.core.slots[1])
  {
    assert OVERTAKEN.core.slots[1] == SecondA([0, 2], [0, 2]) && OVERTAKEN.threads[1] == SLEEPER;
  }

  /** A reachable state in which an active subscription has been offered its events out of order. */
  lemma OrderLost()
    ensures exists w: World, j: nat :: Reachable(w) && j < |w.core.slots| && !InOrder(w.core.slots[j])
  {
    hide Next, Reachable, Init, Matching, WorldInv, OnceInv, Late, InOrder, Run;
    Stage3Reachable();
    AnotherSleeps();
    Chain(STAGE_3, Publish(THIRD), BOTH_SLEEP);
    Overtakes();
    Chain(BOTH_SLEEP, PublishWake(2, true), OVERTAKEN);
    LateThere();
    var w := Next(OVERTAKEN, PublishWake(1, true));
    Chain(OVERTAKEN, PublishWake(1, true), w);
    ReachableInv(OVERTAKEN);
    ReachableOnce(OVERTAKEN);
    StepOffers(OVERTAKEN, PublishWake(1, true), 1);
    OrderStep(OVERTAKEN, PublishWake(1, true), 1);
    assert Reachable(w) && 1 < |w.core.slots| && !InOrder(w.core.slots[1]);
  }

  lemma ReachableOnce(w: World)
    requires Reachable(w)
    ensures OnceInv(w)
  {
    hide Run, OnceInv;
    var mode, workers, capacity, steps :| w == Run(mode, workers, capacity, steps);
    RunOnce(mode, workers, capacity, steps);
  }
}
