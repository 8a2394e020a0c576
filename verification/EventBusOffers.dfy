/**
 Which events each subscription is offered, step by step and over runs in which publishers do wait. A woken
 publisher goes on with the slots behind the one it slept on as it finds them, so a slot that was given to
 another subscription meanwhile may be offered an event that it never asked for.
 */
module EventBusOffers {
  import opened Common
  import opened EventBusCore
  import opened EventBusInvariant
  import opened EventBusSections
  import opened EventBusWorld
  import opened EventBusTheorems

  // ---- one step -----------------------------------------------------------------------------------

  predicate Sleeping(t: Thread) {
    t.Waiting? && t.at.Blocked? && t.at.slot < SLOTS
  }

  /** The woken publisher is done with the slot it slept on: it gives up on it or finds room. */
  predicate GoesOn(c: Core, t: Thread, timedOut: bool)
    requires Sleeping(t) && |c.slots| == SLOTS
  {
    var s := c.slots[t.at.slot];
    timedOut || c.shuttingDown || !s.active || s.generation != t.at.generation || !Blocks(s)
  }

  /** The woken publisher offers its event to slot j. */
  predicate Receives(c: Core, t: Thread, timedOut: bool, j: nat)
    requires Sleeping(t) && |c.slots| == SLOTS && j < SLOTS
  {
    var s := c.slots[j];
    && GoesOn(c, t, timedOut) && s.active
    && if j == t.at.slot then s.sub == t.at.sub || (!timedOut && !c.shuttingDown && s.generation == t.at.generation)
       else t.at.slot < j && j in t.subs && Open(c, t.subs, t.at.slot + 1, j)
  }

  predicate Wanted(s: Slot, log: seq<Event>, e: EnvId) {
    e < |log| && Wants(s.topic, log[e])
  }

  /** A woken publisher reaches an active slot whose subscription does not want its event. */
  predicate Misdirects(w: World, step: Step, j: nat)
    requires |w.core.slots| == SLOTS && j < SLOTS
  {
    && step.PublishWake? && step.thread < |w.threads|
    && var t := w.threads[step.thread];
       Sleeping(t) && Receives(w.core, t, step.timedOut, j) && !Wanted(w.core.slots[j], w.core.log, t.env)
  }

  /** What the step offers to the subscription in slot j, read off the state before it. */
  function NewOffers(w: World, step: Step, j: nat): seq<EnvId>
    requires |w.core.slots| == SLOTS && j < SLOTS
  {
    match step
    case Publish(ev) =>
      var c := w.core;
      if !c.shuttingDown && c.mode == Async && c.slots[j].active && j in Matching(c, ev.topic)
         && Open(c, Matching(c, ev.topic), 0, j) then [|c.log|] else []
    case PublishWake(k, timedOut) =>
      if k < |w.threads| && Sleeping(w.threads[k]) && Receives(w.core, w.threads[k], timedOut, j)
      then [w.threads[k].env] else []
    case _ => []
  }

  /** The slot after the step: the same subscription with the new offers, a new one without any, or none. */
  ghost predicate OffersAre(w: World, step: Step, j: nat, s: Slot, s': Slot)
    requires |w.core.slots| == SLOTS && j < SLOTS
  {
    s'.active ==>
      if s.active && s'.sub == s.sub then
        && s'.topic == s.topic && s'.since == s.since && s'.policy == s.policy
        && s'.offered == s.offered + NewOffers(w, step, j)
      else
        && step.Subscribe? && s'.offered == [] && s'.since == |w.core.log|
        && s'.policy == (if step.policy.Some? then step.policy.value else BlockWithTimeout)
  }

  lemma NothingOffered(w: World, step: Step, w': World, j: nat)
    requires |w.core.slots| == SLOTS && j < SLOTS && SameOffers(w.core, w'.core)
    requires !step.Publish? && !step.PublishWake?
    ensures |w'.core.slots| == SLOTS && OffersAre(w, step, j, w.core.slots[j], w'.core.slots[j])
    ensures w'.core.log == w.core.log && w'.core.mode == w.core.mode
  {
    assert w.core.slots[j].offered + [] == w.core.slots[j].offered;
  }

  lemma SameOffersTrans(a: Core, b: Core, c: Core)
    requires SameOffers(a, b) && SameOffers(b, c)
    ensures SameOffers(a, c)
  {
  }

  lemma ReleaseOffers(c: Core, e: EnvId)
    ensures SameOffers(c, Release(c, e))
  {
    hide ReleaseRef;
  }

  lemma SyncOffers(c: Core, e: EnvId, subs: set<nat>)
    ensures SameOffers(c, EventBusCore.TakeSnapshot(c, e, subs).1)
  {
    hide Snapshot;
  }

  lemma DeliveredOffers(c: Core, t: Task)
    requires t.slot < |c.slots|
    ensures SameOffers(c, SyncDelivered(c, t))
  {
  }

  lemma FinishOffers(c: Core, t: Task)
    requires t.slot < |c.slots|
    ensures SameOffers(c, EventBusCore.Finish(c, t))
  {
    hide ReadyPush, ReleaseRef;
  }

  lemma SameOffersRefl(c: Core)
    ensures SameOffers(c, c)
  {
  }

  /** Every step but subscribe and the two that publish leaves all offers alone. */
  lemma QuietStep(w: World, step: Step)
    requires WorldInv(w) && !step.Publish? && !step.PublishWake? && !step.Subscribe?
    ensures SameOffers(w.core, Next(w, step).core)
  {
    hide CoreInv, ThreadsOk, ClosedOk, FlyingOk, TotalLoad, SameOffers, Deactivate, Retire, Take, EventBusCore.Finish;
    hide LeavingOk, Release, EventBusCore.TakeSnapshot, SyncDelivered, Matching;
    SameOffersRefl(w.core);
    match step
    case Unsubscribe(h, patient) => QuietUnsubscribe(w, h, patient);
    case UnsubscribeWake(i, timedOut) => QuietClose(w, i, timedOut);
    case Poll(k) => TakeOffers(w.core);
    case Finish(k) =>
      if k < |w.threads| && w.threads[k].Serving? && w.threads[k].task.slot < |w.core.slots| {
        FinishOffers(w.core, w.threads[k].task);
      }
    case TakeSnapshot(k) => QuietSnapshot(w, k);
    case Delivered(k) => QuietDelivered(w, k);
    case Shutdown => QuietShutdown(w.core);
  }

  lemma QuietShutdown(c: Core)
    ensures SameOffers(c, c.(shuttingDown := true))
  {
  }

  lemma QuietUnsubscribe(w: World, h: Handle, patient: bool)
    requires WorldInv(w)
    ensures SameOffers(w.core, UnsubscribeStep(w, h, patient).core)
  {
    hide CoreInv, ThreadsOk, LeavingOk, ClosedOk, FlyingOk, TotalLoad, Deactivate, Retire, SameOffers;
    SameOffersRefl(w.core);
    if h.slot < SLOTS && w.core.slots[h.slot].generation == h.generation && h.slot !in w.leaving {
      DeactivateInv(w.core, TotalLoad(w.threads), h.slot);
      DeactivateOffers(w.core, h.slot);
      RetireOffers(w.core, Deactivate(w.core, h.slot), h.slot);
    }
  }

  lemma QuietClose(w: World, i: nat, timedOut: bool)
    requires WorldInv(w)
    ensures SameOffers(w.core, UnsubscribeWakeStep(w, i, timedOut).core)
  {
    hide CoreInv, ThreadsOk, ClosedOk, FlyingOk, TotalLoad, Retire, SameOffers;
    SameOffersRefl(w.core);
    if i in w.leaving && i < SLOTS { RetireOffers(w.core, w.core, i); }
  }

  lemma QuietSnapshot(w: World, k: nat)
    requires WorldInv(w)
    ensures SameOffers(w.core, SnapshotStep(w, k).core)
  {
    hide CoreInv, ThreadsOk, LeavingOk, ClosedOk, FlyingOk, TotalLoad, SameOffers, Release, EventBusCore.TakeSnapshot, Matching;
    SameOffersRefl(w.core);
    if k < |w.threads| && w.threads[k].Announced? {
      var e := w.threads[k].env;
      if w.core.shuttingDown || e >= |w.core.log| {
        ReleaseOffers(w.core, e);
      } else {
        var subs := Matching(w.core, w.core.log[e].topic);
        SyncOffers(w.core, e, subs);
        var c := EventBusCore.TakeSnapshot(w.core, e, subs).1;
        ReleaseOffers(c, e);
        SameOffersTrans(w.core, c, Release(c, e));
      }
    }
  }

  lemma QuietDelivered(w: World, k: nat)
    requires WorldInv(w)
    ensures SameOffers(w.core, DeliveredStep(w, k).core)
  {
    hide CoreInv, ThreadsOk, LeavingOk, ClosedOk, FlyingOk, TotalLoad, SameOffers, Release, SyncDelivered;
    SameOffersRefl(w.core);
    if k < |w.threads| && w.threads[k].Delivering? && w.threads[k].todo != []
       && w.threads[k].todo[0].slot < |w.core.slots| {
      var t := w.threads[k];
      DeliveredOffers(w.core, t.todo[0]);
      var c := SyncDelivered(w.core, t.todo[0]);
      ReleaseOffers(c, t.env);
      SameOffersTrans(w.core, c, Release(c, t.env));
    }
  }

  lemma SubscribeOffers(w: World, step: Step, j: nat)
    requires WorldInv(w) && step.Subscribe? && j < SLOTS
    ensures var w' := Next(w, step);
            && |w'.core.slots| == SLOTS && OffersAre(w, step, j, w.core.slots[j], w'.core.slots[j])
            && w'.core.log == w.core.log && w'.core.mode == w.core.mode
  {
    hide CoreInv, ThreadsOk, LeavingOk, ClosedOk, FlyingOk, TotalLoad, Install, SameOffers;
    var c := w.core;
    SubscribeInv(c, TotalLoad(w.threads), step.topic, step.handler, step.policy, step.capacity);
    var (status, h, c') := EventBusCore.Subscribe(c, step.topic, step.handler, step.policy, step.capacity);
    assert c.slots[j].offered + [] == c.slots[j].offered;
    if status == Ok {
      InstallOffers(c, h.slot, NewSubscription(c, c.slots[h.slot], step.topic, step.handler, step.policy, step.capacity));
      InstalledSlot(c, h.slot, NewSubscription(c, c.slots[h.slot], step.topic, step.handler, step.policy, step.capacity));
    }
  }

  lemma InstalledSlot(c: Core, i: nat, s: Slot)
    requires i < |c.slots|
    ensures Install(c, i, s).slots[i] == s
  {
    hide DirAdd;
  }

  lemma PublishStepOffers(w: World, ev: Event, j: nat)
    requires WorldInv(w) && j < SLOTS
    ensures var w' := PublishStep(w, ev);
            && |w'.core.slots| == SLOTS && OffersAre(w, Publish(ev), j, w.core.slots[j], w'.core.slots[j])
            && w'.core.mode == w.core.mode
            && w'.core.log == if w.core.shuttingDown then w.core.log else w.core.log + [ev]
  {
    hide CoreInv, ThreadsOk, LeavingOk, ClosedOk, FlyingOk, TotalLoad, PublishFrom, Matching, Open, SameSubscriptions;
    var c, e := w.core, |w.core.log|;
    assert c.slots[j].offered + [] == c.slots[j].offered;
    if !c.shuttingDown && c.mode == Async {
      var c1, subs, load := Announce(c, ev), Matching(c, ev.topic), TotalLoad(w.threads);
      AnnounceStep(w, ev);
      PublishOffers(c1, e, subs, 0, Ok);
      PublishInv(c1, load.(held := load.held + multiset{e}), e, subs, 0, Ok);
      var c' := PublishFrom(c1, e, subs, 0, Ok).0;
      SameAt(c1, c', j);
      OpenAnnounced(c, ev, subs, 0, j);
      assert OfferedBy(c1.slots[j], c'.slots[j], e, 0 <= j && j in subs && Open(c1, subs, 0, j));
    }
  }

  lemma SameAt(c: Core, c': Core, j: nat)
    requires SameSubscriptions(c, c') && j < |c.slots|
    ensures |c'.slots| == |c.slots| && SameIdentity(c.slots[j], c'.slots[j]) && c'.log == c.log && c'.mode == c.mode
  {
  }

  lemma OpenAnnounced(c: Core, ev: Event, subs: set<nat>, i: nat, j: nat)
    requires j < |c.slots|
    ensures Open(Announce(c, ev), subs, i, j) <==> Open(c, subs, i, j)
  {
    hide Blocks;
  }

  // ---- a publisher wakes up -------------------------------------------------------------------------

  /** What a woken publisher does: it goes on from the slot it slept on, which it has settled, or sleeps on. */
  lemma ResumeIs(c: Core, t: Thread, timedOut: bool)
    requires Sleeping(t) && |c.slots| == SLOTS
    ensures var settled := Settled(c, t, timedOut);
            && |settled.slots| == SLOTS
            && Resume(c, t.env, t.subs, t.at, timedOut) ==
                 if GoesOn(c, t, timedOut) then
                   PublishFrom(settled, t.env, t.subs, t.at.slot + 1, WakeStatus(c, t, timedOut))
                 else (c, t.at)
  {
    hide PublishFrom, Blocks;
    if t.at.slot < SLOTS { AcceptOffers(c, t.at.slot, t.env); }
    hide Accept;
  }

  function WakeStatus(c: Core, t: Thread, timedOut: bool): Status
    requires Sleeping(t) && |c.slots| == SLOTS
  {
    var s := c.slots[t.at.slot];
    if timedOut then FirstError(t.at.status, Timeout)
    else if c.shuttingDown || !s.active || s.generation != t.at.generation then FirstError(t.at.status, Cancelled)
    else t.at.status
  }

  function Settled(c: Core, t: Thread, timedOut: bool): Core
    requires Sleeping(t) && |c.slots| == SLOTS
  {
    var s := c.slots[t.at.slot];
    if timedOut || c.shuttingDown || !s.active || s.generation != t.at.generation
    then Refuse(c, t.at.slot, t.at.sub, t.env) else Accept(c, t.at.slot, t.env)
  }

  lemma SettledOffers(c: Core, t: Thread, timedOut: bool)
    requires Sleeping(t) && |c.slots| == SLOTS && GoesOn(c, t, timedOut)
    ensures var c1, i := Settled(c, t, timedOut), t.at.slot;
            && |c1.slots| == SLOTS
            && (forall j :: 0 <= j < SLOTS && j != i ==> c1.slots[j] == c.slots[j])
            && SameSubscriptions(c, c1)
            && (c.slots[i].active ==>
                  c1.slots[i].offered == c.slots[i].offered + if Receives(c, t, timedOut, i) then [t.env] else [])
  {
    hide Accept, Blocks, SameSubscriptions, Open;
    var i := t.at.slot;
    AcceptOffers(c, i, t.env);
    AcceptIdentity(c, i, t.env);
    RefuseIdentity(c, i, t.at.sub, t.env);
    assert c.slots[i].offered + [] == c.slots[i].offered;
  }

  lemma ReceivesIs(c: Core, t: Thread, timedOut: bool, j: nat)
    requires Sleeping(t) && |c.slots| == SLOTS && j < SLOTS && j != t.at.slot && c.slots[j].active
    ensures Receives(c, t, timedOut, j) <==>
              GoesOn(c, t, timedOut) && t.at.slot < j && j in t.subs && Open(c, t.subs, t.at.slot + 1, j)
  {
    hide GoesOn, Open;
  }

  /** No publisher gets past a slot that makes it wait. */
  lemma ClosedBehind(c: Core, subs: set<nat>, i: nat, b: nat, j: nat)
    requires i <= b <= j < |c.slots| && b in subs && c.slots[b].active && Blocks(c.slots[b])
    ensures !Open(c, subs, i, j)
  {
    hide Blocks;
  }

  lemma SleepsOn(c: Core, t: Thread, timedOut: bool, j: nat)
    requires Sleeping(t) && |c.slots| == SLOTS && j < SLOTS && !GoesOn(c, t, timedOut)
    ensures !Receives(c, t, timedOut, j)
  {
    hide GoesOn, Open;
  }

  /** The offers of a woken publisher, and where it sleeps next. */
  lemma ResumeOffers(c: Core, load: Load, t: Thread, timedOut: bool, j: nat)
    requires Sleeping(t) && |c.slots| == SLOTS && j < SLOTS
    requires CoreInv(c, load) && t.env in load.held && load.open > 0
    ensures var (c', r) := Resume(c, t.env, t.subs, t.at, timedOut);
            && SameSubscriptions(c, c') && SameIdentity(c.slots[j], c'.slots[j])
            && (c.slots[j].active ==>
                  c'.slots[j].offered == c.slots[j].offered + if Receives(c, t, timedOut, j) then [t.env] else [])
            && (r.Blocked? && GoesOn(c, t, timedOut) ==>
                  && t.at.slot < r.slot < SLOTS && r.sub == c.slots[r.slot].sub
                  && c.slots[r.slot].active && Blocks(c.slots[r.slot])
                  && (t.at.slot < j < r.slot ==> Open(c, t.subs, t.at.slot + 1, j))
                  && (r.slot <= j ==> !Open(c, t.subs, t.at.slot + 1, j)))
            && (!GoesOn(c, t, timedOut) ==> r == t.at)
            && (r.Done? && t.at.slot < j ==> Open(c, t.subs, t.at.slot + 1, j))
  {
    hide CoreInv, SameSubscriptions, Resume, Settled, GoesOn, Receives, Open, PublishFrom, Blocks;
    ResumeInv(c, load, t.env, t.subs, t.at, timedOut);
    ResumeIs(c, t, timedOut);
    var i := t.at.slot;
    var c' := Resume(c, t.env, t.subs, t.at, timedOut).0;
    SameAt(c, c', j);
    assert c.slots[j].offered + [] == c.slots[j].offered;
    if GoesOn(c, t, timedOut) {
      var c1 := Settled(c, t, timedOut);
      SettledOffers(c, t, timedOut);
      SameAt(c, c1, j);
      PublishOffers(c1, t.env, t.subs, i + 1, WakeStatus(c, t, timedOut));
      OpenSame(c, c1, t.subs, i, i + 1);
      assert OfferedBy(c1.slots[j], c'.slots[j], t.env, i + 1 <= j && j in t.subs && Open(c1, t.subs, i + 1, j));
      assert c1.slots[j].offered + [] == c1.slots[j].offered;
      var r := Resume(c, t.env, t.subs, t.at, timedOut).1;
      if r.Blocked? {
        SameAt(c, c1, r.slot);
        if r.slot <= j { ClosedBehind(c1, t.subs, i + 1, r.slot, j); }
      }
      if j != i && c.slots[j].active { ReceivesIs(c, t, timedOut, j); }
    } else {
      SleepsOn(c, t, timedOut, j);
    }
  }

  /** The same for a thread of a world that keeps the invariant. */
  lemma WakeFacts(w: World, k: nat, timedOut: bool, j: nat)
    requires WorldInv(w) && k < |w.threads| && Sleeping(w.threads[k]) && j < SLOTS == |w.core.slots|
    ensures var c, t := w.core, w.threads[k];
            var (c', r) := Resume(c, t.env, t.subs, t.at, timedOut);
            && SameSubscriptions(c, c') && SameIdentity(c.slots[j], c'.slots[j])
            && (c.slots[j].active ==>
                  c'.slots[j].offered == c.slots[j].offered + if Receives(c, t, timedOut, j) then [t.env] else [])
            && (r.Blocked? && GoesOn(c, t, timedOut) ==>
                  && t.at.slot < r.slot < SLOTS && r.sub == c.slots[r.slot].sub
                  && c.slots[r.slot].active && Blocks(c.slots[r.slot])
                  && (t.at.slot < j < r.slot ==> Open(c, t.subs, t.at.slot + 1, j))
                  && (r.slot <= j ==> !Open(c, t.subs, t.at.slot + 1, j)))
            && (!GoesOn(c, t, timedOut) ==> r == t.at)
            && (r.Done? && t.at.slot < j ==> Open(c, t.subs, t.at.slot + 1, j))
  {
    hide CoreInv, ThreadsOk, LeavingOk, ClosedOk, FlyingOk, TotalLoad, Resume, Receives, GoesOn, Open, SameSubscriptions, Blocks;
    var t, load := w.threads[k], TotalLoad(w.threads);
    LoadSplit(w.threads, k, t);
    WakeLoads(Others(w.threads, k), load, t, t.subs, t.at, w.core.mode) by { assert FlyingOk(w.core.mode, load); }
    ResumeOffers(w.core, load, t, timedOut, j);
  }

  lemma WakeOffers(w: World, k: nat, timedOut: bool, j: nat)
    requires WorldInv(w) && j < SLOTS
    ensures var w' := PublishWakeStep(w, k, timedOut);
            && |w'.core.slots| == SLOTS
            && OffersAre(w, PublishWake(k, timedOut), j, w.core.slots[j], w'.core.slots[j])
            && w'.core.log == w.core.log && w'.core.mode == w.core.mode
  {
    hide CoreInv, ThreadsOk, LeavingOk, ClosedOk, FlyingOk, TotalLoad, Resume, Receives, GoesOn, SameSubscriptions;
    assert w.core.slots[j].offered + [] == w.core.slots[j].offered;
    if k < |w.threads| && w.threads[k].Waiting? {
      var t, load := w.threads[k], TotalLoad(w.threads);
      ThreadAt(w.core, w.threads, k);
      LoadSplit(w.threads, k, t);
      WakeLoads(Others(w.threads, k), load, t, t.subs, t.at, w.core.mode) by { assert FlyingOk(w.core.mode, load); }
      ResumeOffers(w.core, load, t, timedOut, j);
      SameAt(w.core, Resume(w.core, t.env, t.subs, t.at, timedOut).0, j);
    }
  }

  /** Every step: what it offers to a subscription is exactly NewOffers. */
  lemma StepOffers(w: World, step: Step, j: nat)
    requires WorldInv(w) && j < SLOTS
    ensures |w.core.slots| == SLOTS == |Next(w, step).core.slots|
    ensures OffersAre(w, step, j, w.core.slots[j], Next(w, step).core.slots[j])
    ensures w.core.log <= Next(w, step).core.log && Next(w, step).core.mode == w.core.mode
    ensures !step.Publish? ==> Next(w, step).core.log == w.core.log
  {
    hide WorldInv, OffersAre, SameOffers, UnsubscribeStep, UnsubscribeWakeStep, PublishStep, PublishWakeStep, PollStep,
      FinishStep, SnapshotStep, DeliveredStep, EventBusCore.Subscribe;
    InvSlots(w);
    match step
    case Subscribe(_, _, _, _) => SubscribeOffers(w, step, j);
    case Publish(ev) => PublishStepOffers(w, ev, j);
    case PublishWake(k, timedOut) => WakeOffers(w, k, timedOut, j);
    case _ =>
      QuietStep(w, step);
      NothingOffered(w, step, Next(w, step), j);
  }

  // ---- unwanted events --------------------------------------------------------------------------------

  /** After the step, slot j has been offered something new that its subscription does not want. */
  ghost predicate OffersUnwanted(w: World, w': World, j: nat)
    requires |w.core.slots| == SLOTS == |w'.core.slots| && j < SLOTS
  {
    var s, s' := w.core.slots[j], w'.core.slots[j];
    s'.active && exists n: nat ::
      && n < |s'.offered| && (s.active && s.sub == s'.sub ==> n >= |s.offered|)
      && !Wanted(s', w'.core.log, s'.offered[n])
  }

  /** A publish selects only slots that want the event. */
  lemma PublishWanted(w: World, ev: Event, j: nat)
    requires WorldInv(w) && j < SLOTS && w.core.slots[j].active && j in Matching(w.core, ev.topic)
    ensures Wants(w.core.slots[j].topic, ev)
  {
    hide CoreInv, ThreadsOk, LeavingOk, ClosedOk, FlyingOk, TotalLoad, Matching;
    MatchingIsScan(w.core, TotalLoad(w.threads), ev.topic);
  }

  /**
   A step offers a subscription an event that it does not want exactly if the step wakes a publisher that
   reaches the subscription's slot with such an event.
   */
  lemma UnwantedIff(w: World, step: Step, j: nat)
    requires Reachable(w) && j < SLOTS
    ensures |w.core.slots| == SLOTS == |Next(w, step).core.slots|
    ensures OffersUnwanted(w, Next(w, step), j) <==> Misdirects(w, step, j)
  {
    hide Reachable, Next, Receives, WorldInv;
    ReachableInv(w);
    UnwantedStep(w, step, j);
  }

  lemma UnwantedStep(w: World, step: Step, j: nat)
    requires WorldInv(w) && j < SLOTS
    ensures |w.core.slots| == SLOTS == |Next(w, step).core.slots|
    ensures OffersUnwanted(w, Next(w, step), j) <==> Misdirects(w, step, j)
  {
    hide WorldInv, Next, Receives, Matching, Open, Wanted;
    StepOffers(w, step, j);
    var w' := Next(w, step);
    var s, s' := w.core.slots[j], w'.core.slots[j];
    var more := NewOffers(w, step, j);
    OfferedWanted(w, step, j);
    if Misdirects(w, step, j) { StaysActive(w, step, j); }
    if s'.active && s.active && s'.sub == s.sub {
      var n := |s.offered|;
      assert forall m: nat :: n <= m < |s'.offered| ==> s'.offered[m] == more[m - n];
      assert more != [] ==> s'.offered[n] == more[0];
    }
  }

  /** New offers are wanted, except by a misdirected subscription; a slot that is offered something stays active. */
  lemma OfferedWanted(w: World, step: Step, j: nat)
    requires WorldInv(w) && j < SLOTS && |w.core.slots| == SLOTS == |Next(w, step).core.slots|
    requires OffersAre(w, step, j, w.core.slots[j], Next(w, step).core.slots[j])
    ensures var s, s', more := w.core.slots[j], Next(w, step).core.slots[j], NewOffers(w, step, j);
            && |more| <= 1
            && (s'.active && s.active && s'.sub == s.sub && more != [] ==>
                  (!Wanted(s', Next(w, step).core.log, more[0]) <==> Misdirects(w, step, j)))
            && (Misdirects(w, step, j) ==> more != [] && s.active)
  {
    hide WorldInv, Receives, Matching, Open, PublishStep, PublishWakeStep;
    var s, s' := w.core.slots[j], Next(w, step).core.slots[j];
    match step
    case Publish(ev) =>
      PublishStepOffers(w, ev, j);
      if s.active && j in Matching(w.core, ev.topic) && !w.core.shuttingDown {
        PublishWanted(w, ev, j);
        assert (w.core.log + [ev])[|w.core.log|] == ev;
      }
    case PublishWake(k, timedOut) =>
      WakeOffers(w, k, timedOut, j);
      if k < |w.threads| && Sleeping(w.threads[k]) { ReceiverActive(w.core, w.threads[k], timedOut, j); }
    case _ =>
  }

  lemma ReceiverActive(c: Core, t: Thread, timedOut: bool, j: nat)
    requires Sleeping(t) && |c.slots| == SLOTS && j < SLOTS
    ensures Receives(c, t, timedOut, j) ==> c.slots[j].active
  {
    hide GoesOn, Open;
  }

  lemma StaysActive(w: World, step: Step, j: nat)
    requires WorldInv(w) && j < SLOTS && |w.core.slots| == SLOTS && Misdirects(w, step, j)
    ensures var s' := Next(w, step).core.slots; |s'| == SLOTS && s'[j].active && s'[j].sub == w.core.slots[j].sub
  {
    hide CoreInv, ThreadsOk, LeavingOk, ClosedOk, FlyingOk, TotalLoad, Resume, Receives, GoesOn, SameSubscriptions;
    var k := step.thread;
    var t, load := w.threads[k], TotalLoad(w.threads);
    ReceiverActive(w.core, t, step.timedOut, j);
    LoadSplit(w.threads, k, t);
    WakeLoads(Others(w.threads, k), load, t, t.subs, t.at, w.core.mode) by { assert FlyingOk(w.core.mode, load); }
    ResumeOffers(w.core, load, t, step.timedOut, j);
  }

  // ---- unwanted events over a run -----------------------------------------------------------------------

  ghost predicate SlotWanted(s: Slot, log: seq<Event>) {
    s.active ==> forall n :: 0 <= n < |s.offered| ==> Wanted(s, log, s.offered[n])
  }

  /** Every active subscription has only been offered events that it wants. */
  ghost predicate AllWanted(w: World) {
    forall j :: 0 <= j < |w.core.slots| ==> SlotWanted(w.core.slots[j], w.core.log)
  }

  lemma SlotStep(w: World, step: Step, j: nat)
    requires WorldInv(w) && j < SLOTS && |w.core.slots| == SLOTS == |Next(w, step).core.slots|
    requires SlotWanted(w.core.slots[j], w.core.log)
    ensures SlotWanted(Next(w, step).core.slots[j], Next(w, step).core.log) <==> !Misdirects(w, step, j)
  {
    hide WorldInv, Next, Misdirects, NewOffers;
    StepOffers(w, step, j);
    UnwantedStep(w, step, j);
    var s, s' := w.core.slots[j], Next(w, step).core.slots[j];
    if s'.active && s.active && s'.sub == s.sub {
      assert forall n :: 0 <= n < |s.offered| ==> s'.offered[n] == s.offered[n] && Wanted(s, w.core.log, s.offered[n]);
    }
  }

  lemma WantedStep(w: World, step: Step)
    requires WorldInv(w) && AllWanted(w)
    ensures |w.core.slots| == SLOTS == |Next(w, step).core.slots|
    ensures AllWanted(Next(w, step)) <==> forall j :: 0 <= j < SLOTS ==> !Misdirects(w, step, j)
  {
    hide WorldInv, Next, Misdirects, SlotWanted;
    StepOffers(w, step, 0);
    forall j | 0 <= j < SLOTS
      ensures SlotWanted(Next(w, step).core.slots[j], Next(w, step).core.log) <==> !Misdirects(w, step, j)
    {
      SlotStep(w, step, j);
    }
  }

  /** Step n of the run misdirects an event to slot j. */
  predicate MisdirectsAt(mode: Mode, workers: nat, capacity: nat, steps: seq<Step>, n: nat, j: nat)
    requires n < |steps|
  {
    var w := Run(mode, workers, capacity, steps[..n]);
    |w.core.slots| == SLOTS && j < SLOTS && Misdirects(w, steps[n], j)
  }

  /**
   Throughout a run every active subscription has only been offered events that it wants, exactly if no step of
   the run wakes a publisher that reaches a slot whose subscription does not want its event.
   */
  lemma {:induction false} RunWantedIff(mode: Mode, workers: nat, capacity: nat, steps: seq<Step>)
    ensures (forall n :: 0 <= n <= |steps| ==> AllWanted(Run(mode, workers, capacity, steps[..n]))) <==>
              forall n: nat, j: nat :: n < |steps| ==> !MisdirectsAt(mode, workers, capacity, steps, n, j)
  {
    hide AllWanted, MisdirectsAt, Run;
    if forall n: nat, j: nat :: n < |steps| ==> !MisdirectsAt(mode, workers, capacity, steps, n, j) {
      forall n | 0 <= n <= |steps|
        ensures AllWanted(Run(mode, workers, capacity, steps[..n]))
      {
        WantedUpTo(mode, workers, capacity, steps, n);
      }
    }
    if forall n :: 0 <= n <= |steps| ==> AllWanted(Run(mode, workers, capacity, steps[..n])) {
      forall n: nat, j: nat | n < |steps|
        ensures !MisdirectsAt(mode, workers, capacity, steps, n, j)
      {
        assert AllWanted(Run(mode, workers, capacity, steps[..n])) && AllWanted(Run(mode, workers, capacity, steps[..n + 1]));
        OneStep(mode, workers, capacity, steps, n);
      }
    }
  }

  lemma OneStep(mode: Mode, workers: nat, capacity: nat, steps: seq<Step>, n: nat)
    requires n < |steps| && AllWanted(Run(mode, workers, capacity, steps[..n]))
    ensures AllWanted(Run(mode, workers, capacity, steps[..n + 1])) <==>
              forall j: nat :: !MisdirectsAt(mode, workers, capacity, steps, n, j)
  {
    hide AllWanted, Misdirects, WorldInv, Next, Init;
    var w, more := Run(mode, workers, capacity, steps[..n]), steps[..n + 1];
    assert more[..n] == steps[..n];
    RunInv(mode, workers, capacity, steps[..n]);
    WantedStep(w, steps[n]);
    assert |more| == n + 1 && more[n] == steps[n];
    assert Run(mode, workers, capacity, more) == Next(w, steps[n]);
    assert forall j: nat :: MisdirectsAt(mode, workers, capacity, steps, n, j) <==> j < SLOTS && Misdirects(w, steps[n], j);
  }

  lemma {:induction false} WantedUpTo(mode: Mode, workers: nat, capacity: nat, steps: seq<Step>, n: nat)
    requires n <= |steps|
    requires forall n: nat, j: nat :: n < |steps| ==> !MisdirectsAt(mode, workers, capacity, steps, n, j)
    ensures AllWanted(Run(mode, workers, capacity, steps[..n]))
  {
    hide AllWanted, MisdirectsAt, Run;
    if n == 0 {
      InitWanted(mode, workers, capacity);
      assert steps[..0] == [];
    } else {
      WantedUpTo(mode, workers, capacity, steps, n - 1);
      OneStep(mode, workers, capacity, steps, n - 1);
    }
  }

  lemma InitWanted(mode: Mode, workers: nat, capacity: nat)
    ensures AllWanted(Run(mode, workers, capacity, []))
  {
  }

  // ---- no event is left out -----------------------------------------------------------------------------

  /** A sleeping publisher of the event has yet to deal with the subscription in slot j. */
  ghost predicate Held(w: World, j: nat, e: EnvId)
    requires j < |w.core.slots|
  {
    exists k :: 0 <= k < |w.threads| && HeldBy(w.threads[k], w.core.slots[j].sub, j, e)
  }

  predicate HeldBy(t: Thread, sub: nat, j: nat, e: EnvId) {
    && Sleeping(t) && t.env == e && j in t.subs && (t.at.slot < j || (t.at.slot == j && t.at.sub == sub))
  }

  ghost predicate Complete(w: World, j: nat, e: EnvId)
    requires j < |w.core.slots|
  {
    var s := w.core.slots[j];
    w.core.mode == Async && s.active && s.since <= e && Wanted(s, w.core.log, e) ==> e in s.offered || Held(w, j, e)
  }

  ghost predicate AllComplete(w: World) {
    forall j, e: nat :: 0 <= j < |w.core.slots| ==> Complete(w, j, e)
  }

  /** A sleeping publisher sleeps on until it is woken. */
  lemma SleeperKept(w: World, step: Step, k: nat)
    requires WorldInv(w) && k < |w.threads| && w.threads[k].Waiting?
    requires !(step.PublishWake? && step.thread == k)
    ensures k < |Next(w, step).threads| && Next(w, step).threads[k] == w.threads[k]
  {
    hide WorldInv, Deactivate, Retire, Take, EventBusCore.Finish, Release, EventBusCore.TakeSnapshot, SyncDelivered,
      Matching, PublishFrom, Resume, EventBusCore.Subscribe, Announce;
  }

  lemma HeldOn(w: World, step: Step, j: nat, e: EnvId)
    requires WorldInv(w) && j < |w.core.slots| == SLOTS == |Next(w, step).core.slots|
    requires w.core.slots[j].active && Next(w, step).core.slots[j].active
    requires Next(w, step).core.slots[j].sub == w.core.slots[j].sub
    requires OffersAre(w, step, j, w.core.slots[j], Next(w, step).core.slots[j]) && Held(w, j, e)
    ensures e in Next(w, step).core.slots[j].offered || Held(Next(w, step), j, e)
  {
    hide WorldInv, Next, NewOffers, Receives, Sleeping;
    var k :| 0 <= k < |w.threads| && HeldBy(w.threads[k], w.core.slots[j].sub, j, e);
    assert w.threads[k].Waiting? by { SleeperWaits(w.threads[k]); }
    if step.PublishWake? && step.thread == k {
      HeldAwake(w, k, step.timedOut, j, e);
      WakeIs(w, k, step.timedOut);
    } else {
      SleeperKept(w, step, k);
      assert HeldBy(Next(w, step).threads[k], Next(w, step).core.slots[j].sub, j, e);
    }
  }

  lemma SleeperWaits(t: Thread)
    requires Sleeping(t)
    ensures t.Waiting?
  {
  }

  lemma WakeIs(w: World, k: nat, timedOut: bool)
    requires |w.core.slots| == SLOTS
    ensures Next(w, PublishWake(k, timedOut)) == PublishWakeStep(w, k, timedOut)
  {
  }

  /** A publisher that wakes up offers its event to the slots in front of the one it sleeps on next. */
  lemma StillHeld(c: Core, load: Load, t: Thread, timedOut: bool, j: nat)
    requires |c.slots| == SLOTS && j < SLOTS && c.slots[j].active && CoreInv(c, load) && t.Waiting?
    requires t.env in load.held && load.open > 0
    requires HeldBy(t, c.slots[j].sub, j, t.env) && !Receives(c, t, timedOut, j)
    ensures var r := Resume(c, t.env, t.subs, t.at, timedOut).1;
            r.Blocked? && HeldBy(Waiting(t.env, t.subs, r), c.slots[j].sub, j, t.env)
  {
    hide CoreInv, Resume, GoesOn, Open, SameSubscriptions;
    ResumeOffers(c, load, t, timedOut, j);
  }

  lemma HeldAwake(w: World, k: nat, timedOut: bool, j: nat, e: EnvId)
    requires WorldInv(w) && k < |w.threads| && j < |w.core.slots| == SLOTS && w.core.slots[j].active
    requires HeldBy(w.threads[k], w.core.slots[j].sub, j, e)
    ensures var w' := PublishWakeStep(w, k, timedOut);
            && |w'.core.slots| == SLOTS
            && (e in w'.core.slots[j].offered || Held(w', j, e))
  {
    hide CoreInv, ThreadsOk, LeavingOk, ClosedOk, FlyingOk, TotalLoad, Resume, Receives, HeldBy, SameSubscriptions;
    assert Sleeping(w.threads[k]) && w.threads[k].env == e by { HeldIs(w.threads[k], w.core.slots[j].sub, j, e); }
    var t, load := w.threads[k], TotalLoad(w.threads);
    LoadSplit(w.threads, k, t);
    WakeLoads(Others(w.threads, k), load, t, t.subs, t.at, w.core.mode) by { assert FlyingOk(w.core.mode, load); }
    ResumeOffers(w.core, load, t, timedOut, j);
    var r := Resume(w.core, t.env, t.subs, t.at, timedOut).1;
    var w' := PublishWakeStep(w, k, timedOut);
    if !Receives(w.core, t, timedOut, j) {
      StillHeld(w.core, load, t, timedOut, j);
      assert w'.threads[k] == Waiting(t.env, t.subs, r);
      assert HeldBy(w'.threads[k], w'.core.slots[j].sub, j, e);
    }
  }

  lemma HeldIs(t: Thread, sub: nat, j: nat, e: EnvId)
    requires HeldBy(t, sub, j, e)
    ensures Sleeping(t) && t.env == e
  {
  }

  /** A publish offers its event, or a sleeping publisher holds it. */
  lemma PublishHeld(w: World, ev: Event, j: nat)
    requires WorldInv(w) && j < |w.core.slots| == SLOTS && w.core.slots[j].active && w.core.mode == Async
    requires !w.core.shuttingDown && Wants(w.core.slots[j].topic, ev)
    ensures var w' := PublishStep(w, ev);
            && |w'.core.slots| == SLOTS
            && (|w.core.log| in w'.core.slots[j].offered || Held(w', j, |w.core.log|))
  {
    hide CoreInv, ThreadsOk, LeavingOk, ClosedOk, FlyingOk, TotalLoad, PublishFrom, Matching, Open, SameSubscriptions;
    var c, e, load := w.core, |w.core.log|, TotalLoad(w.threads);
    var c1, subs := Announce(c, ev), Matching(c, ev.topic);
    MatchingIsScan(c, load, ev.topic);
    AnnounceStep(w, ev);
    PublishOffers(c1, e, subs, 0, Ok);
    PublishInv(c1, load.(held := load.held + multiset{e}), e, subs, 0, Ok);
    var (c', r) := PublishFrom(c1, e, subs, 0, Ok);
    SameAt(c1, c', j);
    var w' := PublishStep(w, ev);
    if Open(c1, subs, 0, j) {
      assert OfferedBy(c1.slots[j], c'.slots[j], e, 0 <= j && j in subs && Open(c1, subs, 0, j));
    } else {
      var k := |w.threads|;
      assert w'.threads[k] == Waiting(e, subs, r);
      assert HeldBy(w'.threads[k], w'.core.slots[j].sub, j, e);
    }
  }

  lemma CompleteStep(w: World, step: Step, j: nat, e: EnvId)
    requires WorldInv(w) && j < |w.core.slots| == SLOTS == |Next(w, step).core.slots| && Complete(w, j, e)
    ensures Complete(Next(w, step), j, e)
  {
    hide WorldInv, Next, NewOffers, Held;
    StepOffers(w, step, j);
    var w' := Next(w, step);
    var s, s' := w.core.slots[j], w'.core.slots[j];
    if w'.core.mode == Async && s'.active && s'.since <= e && Wanted(s', w'.core.log, e) {
      if s.active && s'.sub == s.sub {
        if e < |w.core.log| {
          if e !in s.offered { HeldOn(w, step, j, e); }
        } else {
          PublishIs(w, step, e);
          PublishHeld(w, step.ev, j);
        }
      }
    }
  }

  /** Only a publish extends the log, by its own event. */
  lemma PublishIs(w: World, step: Step, e: EnvId)
    requires WorldInv(w) && |w.core.slots| == SLOTS && |w.core.log| <= e < |Next(w, step).core.log|
    ensures step.Publish? && !w.core.shuttingDown && e == |w.core.log|
    ensures Next(w, step) == PublishStep(w, step.ev) && Next(w, step).core.log[e] == step.ev
  {
    hide WorldInv, PublishStep, UnsubscribeStep, UnsubscribeWakeStep, PublishWakeStep, PollStep,
      FinishStep, SnapshotStep, DeliveredStep, EventBusCore.Subscribe;
    StepOffers(w, step, 0);
    if step.Publish? { PublishStepOffers(w, step.ev, 0); }
  }

  lemma {:induction false} RunComplete(mode: Mode, workers: nat, capacity: nat, steps: seq<Step>)
    ensures AllComplete(Run(mode, workers, capacity, steps))
  {
    hide Complete, Next, Init, WorldInv;
    if steps == [] {
      InitComplete(mode, workers, capacity);
    } else {
      var before, step := Run(mode, workers, capacity, steps[..|steps| - 1]), steps[|steps| - 1];
      RunComplete(mode, workers, capacity, steps[..|steps| - 1]);
      RunInv(mode, workers, capacity, steps[..|steps| - 1]);
      StepOffers(before, step, 0);
      forall j, e: nat | 0 <= j < SLOTS
        ensures Complete(Next(before, step), j, e)
      {
        CompleteStep(before, step, j, e);
      }
    }
  }

  lemma InitComplete(mode: Mode, workers: nat, capacity: nat)
    ensures AllComplete(Init(mode, workers, capacity))
  {
  }

  /**
   In asynchronous mode, however often publishers have slept: every event published since an active
   subscription was made, and wanted by it, has been offered to it or is held by a sleeping publisher that has
   yet to deal with it.
   */
  lemma NothingLeftOut(w: World, j: nat, e: EnvId)
    requires Reachable(w) && w.core.mode == Async && j < |w.core.slots| && w.core.slots[j].active
    requires w.core.slots[j].since <= e && Wanted(w.core.slots[j], w.core.log, e)
    ensures e in w.core.slots[j].offered || Held(w, j, e)
  {
    hide Run, Held, Wanted;
    var mode, workers, capacity, steps :| w == Run(mode, workers, capacity, steps);
    RunComplete(mode, workers, capacity, steps);
    assert Complete(w, j, e);
  }

  // ---- runs without sleep ---------------------------------------------------------------------------------

  /** The step does not subscribe with the blocking policy, which is also the default. */
  predicate Unblocking(step: Step) {
    step.Subscribe? ==> step.policy.Some? && step.policy.value != BlockWithTimeout
  }

  ghost predicate NeverBlocks(w: World) {
    && !w.slept
    && forall j :: 0 <= j < |w.core.slots| && w.core.slots[j].active ==> w.core.slots[j].policy != BlockWithTimeout
  }

  lemma UnblockingStep(w: World, step: Step)
    requires WorldInv(w) && NeverBlocks(w) && Unblocking(step)
    ensures NeverBlocks(Next(w, step))
  {
    hide WorldInv, Next, NewOffers;
    StepOffers(w, step, 0);
    forall j | 0 <= j < SLOTS && Next(w, step).core.slots[j].active
      ensures Next(w, step).core.slots[j].policy != BlockWithTimeout
    {
      StepOffers(w, step, j);
    }
    AwakeStep(w, step);
  }

  lemma AwakeStep(w: World, step: Step)
    requires WorldInv(w) && NeverBlocks(w)
    ensures !Next(w, step).slept
  {
    hide CoreInv, ThreadsOk, LeavingOk, ClosedOk, FlyingOk, TotalLoad, PublishFrom, Matching, Open, Deactivate, Retire, Take,
      EventBusCore.Finish, Release, EventBusCore.TakeSnapshot, SyncDelivered, Resume, EventBusCore.Subscribe;
    if step.Publish? && w.core.mode == Async && !w.core.shuttingDown {
      var c1 := Announce(w.core, step.ev);
      PublishOffers(c1, |w.core.log|, Matching(w.core, step.ev.topic), 0, Ok);
      assert c1.slots == w.core.slots;
    }
  }

  /** If no subscription of a run uses the blocking policy, no publisher of the run ever sleeps. */
  lemma {:induction false} NeverSleeps(mode: Mode, workers: nat, capacity: nat, steps: seq<Step>)
    requires forall n :: 0 <= n < |steps| ==> Unblocking(steps[n])
    ensures !Run(mode, workers, capacity, steps).slept
    ensures NeverBlocks(Run(mode, workers, capacity, steps))
  {
    hide WorldInv, Next, Unblocking;
    if steps != [] {
      var init := steps[..|steps| - 1];
      assert forall n :: 0 <= n < |init| ==> init[n] == steps[n];
      NeverSleeps(mode, workers, capacity, init);
      RunInv(mode, workers, capacity, init);
      UnblockingStep(Run(mode, workers, capacity, init), steps[|steps| - 1]);
    }
  }
}
