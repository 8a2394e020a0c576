/**
 What an overflow policy loses: how every step changes the mailbox of a subscription, read off the state before
 the step, and what follows over runs.
 */
module EventBusPolicies {
  import opened Common
  import opened EventBusCore
  import opened EventBusInvariant
  import opened EventBusSections
  import opened EventBusWorld
  import opened EventBusTheorems
  import opened EventBusOffers
  import opened EventBusOrder

  // ---- one offer ----------------------------------------------------------------------------------

  /** The mailbox after an offer that is not refused. */
  function MailAfter(s: Slot, e: EnvId): seq<EnvId> {
    var box := s.mailbox;
    if |box| < s.capacity then box + [e]
    else match s.policy
      case DropNewest => box
      case DropOldest => (if box == [] then [] else box[1..]) + [e]
      case CoalesceLatest => (if box == [] then [] else box[..|box| - 1]) + [e]
      case BlockWithTimeout => box + [e]
  }

  predicate SameTerms(s: Slot, s': Slot) {
    && s'.policy == s.policy && s'.capacity == s.capacity && s'.handler == s.handler
    && s'.taken == s.taken && s'.active == s.active
  }

  predicate MailBy(s: Slot, s': Slot, e: EnvId, chosen: bool) {
    SameTerms(s, s') && s'.mailbox == if chosen && s.active then MailAfter(s, e) else s.mailbox
  }

  lemma LossyMail(c: Core, i: nat, e: EnvId)
    requires i < |c.slots|
    ensures var r := SkipNewest(c, i, e).slots;
            |r| == |c.slots| && SameTerms(c.slots[i], r[i]) && r[i].mailbox == c.slots[i].mailbox
    ensures c.slots[i].mailbox != [] ==>
              var r := ReplaceLatest(c, i, e).slots;
              |r| == |c.slots| && SameTerms(c.slots[i], r[i])
              && r[i].mailbox == c.slots[i].mailbox[..|c.slots[i].mailbox| - 1] + [e]
    ensures c.slots[i].mailbox != [] ==>
              var r := ReplaceOldest(c, i, e).slots;
              |r| == |c.slots| && SameTerms(c.slots[i], r[i]) && r[i].mailbox == c.slots[i].mailbox[1..] + [e]
  {
    hide RetainRef, ReleaseRef, Replaced;
    if c.slots[i].mailbox != [] { DroppedFirst(c.slots[i].mailbox, e); }
  }

  lemma EnqueueMail(c: Core, i: nat, e: EnvId)
    requires i < |c.slots|
    ensures var r := Enqueue(c, i, e).slots;
            |r| == |c.slots| && SameTerms(c.slots[i], r[i]) && r[i].mailbox == c.slots[i].mailbox + [e]
  {
    hide RetainRef;
  }

  lemma AcceptMail(c: Core, i: nat, e: EnvId)
    requires i < |c.slots| && !Blocks(c.slots[i])
    ensures var c' := Accept(c, i, e);
            |c'.slots| == |c.slots| && SameTerms(c.slots[i], c'.slots[i]) && c'.slots[i].mailbox == MailAfter(c.slots[i], e)
  {
    hide SkipNewest, ReplaceLatest, ReplaceOldest, Enqueue, ReadyPush, Full, SameTerms, MailAfter;
    LossyMail(c, i, e);
    EnqueueMail(c, i, e);
    MailAfterIs(c.slots[i], e);
  }

  lemma DroppedFirst(box: seq<EnvId>, e: EnvId)
    requires box != []
    ensures Replaced(box, |box| - 1, e) == box[..|box| - 1] + [e]
    ensures Replaced(box, 0, e) == box[1..] + [e]
  {
  }

  lemma MailAfterIs(s: Slot, e: EnvId)
    ensures !Full(s) || s.policy == BlockWithTimeout || (s.mailbox == [] && s.policy != DropNewest) ==> MailAfter(s, e) == s.mailbox + [e]
    ensures Full(s) && s.policy == DropNewest ==> MailAfter(s, e) == s.mailbox
    ensures Full(s) && s.policy == DropOldest && s.mailbox != [] ==> MailAfter(s, e) == s.mailbox[1..] + [e]
    ensures Full(s) && s.policy == CoalesceLatest && s.mailbox != [] ==> MailAfter(s, e) == s.mailbox[..|s.mailbox| - 1] + [e]
  {
  }

  lemma TermsOf(s: Slot, s': Slot)
    ensures SameTerms(s, s') <==>
              && s'.policy == s.policy && s'.capacity == s.capacity && s'.handler == s.handler
              && s'.taken == s.taken && s'.active == s.active
  {
  }

  /** The publish loop, slot by slot. */
  lemma {:induction false} PublishMail(c: Core, e: EnvId, subs: set<nat>, i: nat, err: Status)
    requires i <= |c.slots| == SLOTS
    ensures var c' := PublishFrom(c, e, subs, i, err).0;
            forall j :: 0 <= j < SLOTS ==> MailBy(c.slots[j], c'.slots[j], e, i <= j && j in subs && Open(c, subs, i, j))
    decreases SLOTS - i
  {
    hide Accept, Blocks, Open, PublishFrom, MailAfter, SameTerms;
    PublishStepIs(c, e, subs, i, err);
    SameSlots(c.slots);
    if i == SLOTS {
    } else if i !in subs || !c.slots[i].active {
      PublishMail(c, e, subs, i + 1, err);
      OpenNext(c, subs, i);
    } else {
      var c1 := c.(metrics := c.metrics.(matched := c.metrics.matched + 1));
      if !Blocks(c.slots[i]) {
        AcceptOffers(c1, i, e);
        AcceptMail(c1, i, e);
        var c2 := Accept(c1, i, e);
        PublishMail(c2, e, subs, i + 1, err);
        OpenNext(c, subs, i);
        OpenSame(c, c2, subs, i, i + 1);
        var c' := PublishFrom(c2, e, subs, i + 1, err).0;
        forall j | 0 <= j < SLOTS
          ensures MailBy(c.slots[j], c'.slots[j], e, i <= j && j in subs && Open(c, subs, i, j))
        {
          assert MailBy(c2.slots[j], c'.slots[j], e, i + 1 <= j && j in subs && Open(c2, subs, i + 1, j));
          if j == i { SameTrans3(c.slots[i], c2.slots[i], c'.slots[i]); }
        }
      } else {
        OpenBlocked(c, subs, i);
      }
    }
  }

  lemma SameSlots(slots: seq<Slot>)
    ensures forall j :: 0 <= j < |slots| ==> SameTerms(slots[j], slots[j])
  {
  }

  lemma SameTrans3(a: Slot, b: Slot, c: Slot)
    requires SameTerms(a, b) && SameTerms(b, c)
    ensures SameTerms(a, c)
  {
  }

  // ---- one step -----------------------------------------------------------------------------------

  /** A woken publisher gives up on the slot it slept on. */
  predicate GivesUp(c: Core, t: Thread, timedOut: bool)
    requires Sleeping(t) && |c.slots| == SLOTS
  {
    timedOut || c.shuttingDown || !c.slots[t.at.slot].active || c.slots[t.at.slot].generation != t.at.generation
  }

  predicate Refused(w: World, step: Step, j: nat)
    requires |w.core.slots| == SLOTS && j < SLOTS
  {
    && step.PublishWake? && step.thread < |w.threads|
    && var t := w.threads[step.thread];
       Sleeping(t) && t.at.slot == j && GivesUp(w.core, t, step.timedOut)
  }

  /** The mailbox of a subscription that is there before and after the step. */
  ghost predicate MailIs(w: World, step: Step, j: nat, s: Slot, s': Slot)
    requires |w.core.slots| == SLOTS && j < SLOTS
  {
    s.active && s'.active && s'.sub == s.sub ==>
      && s'.policy == s.policy && s'.capacity == s.capacity && s'.handler == s.handler
      && var more := NewOffers(w, step, j);
         if more == [] then
           || (s'.mailbox == s.mailbox && s'.taken == s.taken)
           || (s.mailbox != [] && s'.mailbox == s.mailbox[1..] && s'.taken == s.taken + [s.mailbox[0]])
         else
           s'.taken == s.taken && s'.mailbox == if Refused(w, step, j) then s.mailbox else MailAfter(s, more[0])
  }

  /** No mailbox of a subscription that stays changes. */
  ghost predicate SameMail(c: Core, c': Core) {
    && |c'.slots| == |c.slots|
    && forall i :: 0 <= i < |c.slots| && c'.slots[i].active ==>
         c.slots[i].active && SameTerms(c.slots[i], c'.slots[i]) && c'.slots[i].mailbox == c.slots[i].mailbox
  }

  lemma SameMailRefl(c: Core)
    ensures SameMail(c, c)
  {
  }

  lemma SameMailTrans(a: Core, b: Core, c: Core)
    requires SameMail(a, b) && SameMail(b, c)
    ensures SameMail(a, c)
  {
  }

  lemma ReleaseMail(c: Core, e: EnvId)
    ensures SameMail(c, Release(c, e))
  {
    hide ReleaseRef;
  }

  lemma SyncMail(c: Core, e: EnvId, subs: set<nat>, t: Task)
    requires t.slot < |c.slots|
    ensures SameMail(c, EventBusCore.TakeSnapshot(c, e, subs).1)
    ensures SameMail(c, SyncDelivered(c, t))
    ensures SameMail(c, EventBusCore.Finish(c, t))
  {
    hide Snapshot, ReadyPush, ReleaseRef;
  }

  lemma RetireMail(c: Core, i: nat)
    requires i < |c.slots| && !c.slots[i].active
    ensures SameMail(c, Retire(c, i))
  {
    hide NextGeneration;
  }

  lemma UnsubscribeMail(w: World, h: Handle, patient: bool)
    requires WorldInv(w)
    ensures SameMail(w.core, UnsubscribeStep(w, h, patient).core)
  {
    hide CoreInv, ThreadsOk, LeavingOk, ClosedOk, FlyingOk, TotalLoad, Deactivate, Retire;
    if h.slot < SLOTS && w.core.slots[h.slot].generation == h.generation && h.slot !in w.leaving {
      DeactivateInv(w.core, TotalLoad(w.threads), h.slot);
      var c := Deactivate(w.core, h.slot);
      RetireMail(c, h.slot);
      SameMailTrans(w.core, c, Retire(c, h.slot));
    }
  }

  lemma CloseMail(w: World, i: nat, timedOut: bool)
    requires WorldInv(w)
    ensures SameMail(w.core, UnsubscribeWakeStep(w, i, timedOut).core)
  {
    hide CoreInv, ThreadsOk, ClosedOk, FlyingOk, TotalLoad, Retire, SameMail;
    SameMailRefl(w.core);
    if i in w.leaving && i < SLOTS { RetireMail(w.core, i); }
  }

  lemma SnapshotMail(w: World, k: nat)
    requires WorldInv(w)
    ensures SameMail(w.core, SnapshotStep(w, k).core)
  {
    hide CoreInv, ThreadsOk, LeavingOk, ClosedOk, FlyingOk, TotalLoad, SameMail, Release, EventBusCore.TakeSnapshot, Matching;
    SameMailRefl(w.core);
    if k < |w.threads| && w.threads[k].Announced? {
      var e := w.threads[k].env;
      ReleaseMail(w.core, e);
      if !w.core.shuttingDown && e < |w.core.log| {
        var subs := Matching(w.core, w.core.log[e].topic);
        SyncMail(w.core, e, subs, Task(0, 0, None, 0, 0));
        var c := EventBusCore.TakeSnapshot(w.core, e, subs).1;
        ReleaseMail(c, e);
        SameMailTrans(w.core, c, Release(c, e));
      }
    }
  }

  lemma DeliveredMail(w: World, k: nat)
    requires WorldInv(w)
    ensures SameMail(w.core, DeliveredStep(w, k).core)
  {
    hide CoreInv, ThreadsOk, LeavingOk, ClosedOk, FlyingOk, TotalLoad, SameMail, Release, SyncDelivered;
    SameMailRefl(w.core);
    if k < |w.threads| && w.threads[k].Delivering? && w.threads[k].todo != []
       && w.threads[k].todo[0].slot < |w.core.slots| {
      var t := w.threads[k];
      SyncMail(w.core, 0, {}, t.todo[0]);
      var c := SyncDelivered(w.core, t.todo[0]);
      ReleaseMail(c, t.env);
      SameMailTrans(w.core, c, Release(c, t.env));
    }
  }

  lemma TakeMail(w: World, k: nat, j: nat)
    requires j < |w.core.slots| == SLOTS
    ensures |PollStep(w, k).core.slots| == SLOTS
    ensures MailIs(w, Poll(k), j, w.core.slots[j], PollStep(w, k).core.slots[j])
  {
    hide ReadyPop;
  }

  lemma SubscribeMail(w: World, step: Step, j: nat)
    requires WorldInv(w) && step.Subscribe? && j < SLOTS == |w.core.slots|
    ensures |Next(w, step).core.slots| == SLOTS
    ensures MailIs(w, step, j, w.core.slots[j], Next(w, step).core.slots[j])
  {
    hide CoreInv, ThreadsOk, LeavingOk, ClosedOk, FlyingOk, TotalLoad, Install;
    var c := w.core;
    SubscribeInv(c, TotalLoad(w.threads), step.topic, step.handler, step.policy, step.capacity);
    var (status, h, c') := EventBusCore.Subscribe(c, step.topic, step.handler, step.policy, step.capacity);
    if status == Ok {
      InstallOffers(c, h.slot, NewSubscription(c, c.slots[h.slot], step.topic, step.handler, step.policy, step.capacity));
    }
  }

  lemma PublishStepMail(w: World, ev: Event, j: nat)
    requires WorldInv(w) && j < SLOTS == |w.core.slots|
    ensures |PublishStep(w, ev).core.slots| == SLOTS
    ensures MailIs(w, Publish(ev), j, w.core.slots[j], PublishStep(w, ev).core.slots[j])
  {
    hide CoreInv, ThreadsOk, LeavingOk, ClosedOk, FlyingOk, TotalLoad, PublishFrom, Matching, Open, MailAfter;
    var c, e := w.core, |w.core.log|;
    if !c.shuttingDown && c.mode == Async {
      var c1, subs := Announce(c, ev), Matching(c, ev.topic);
      AnnounceStep(w, ev);
      PublishMail(c1, e, subs, 0, Ok);
      OpenAnnounced(c, ev, subs, 0, j);
      var c' := PublishFrom(c1, e, subs, 0, Ok).0;
      assert MailBy(c1.slots[j], c'.slots[j], e, 0 <= j && j in subs && Open(c1, subs, 0, j));
    }
  }

  // ---- a publisher wakes up -------------------------------------------------------------------------

  /** What settling the slot slept on does to its mailbox. */
  lemma SettledMail(c: Core, t: Thread, timedOut: bool)
    requires Sleeping(t) && |c.slots| == SLOTS && GoesOn(c, t, timedOut)
    ensures var c1, i := Settled(c, t, timedOut), t.at.slot;
            && |c1.slots| == SLOTS && SameTerms(c.slots[i], c1.slots[i])
            && c1.slots[i].mailbox == if GivesUp(c, t, timedOut) then c.slots[i].mailbox else MailAfter(c.slots[i], t.env)
  {
    hide Accept, MailAfter;
    if !GivesUp(c, t, timedOut) { AcceptMail(c, t.at.slot, t.env); }
  }

  lemma ResumeMail(c: Core, t: Thread, timedOut: bool, j: nat)
    requires Sleeping(t) && |c.slots| == SLOTS && j < SLOTS && c.slots[j].active
    ensures var c' := Resume(c, t.env, t.subs, t.at, timedOut).0;
            && |c'.slots| == SLOTS && SameTerms(c.slots[j], c'.slots[j])
            && c'.slots[j].mailbox ==
                 if Receives(c, t, timedOut, j) && !(j == t.at.slot && GivesUp(c, t, timedOut)) then MailAfter(c.slots[j], t.env)
                 else c.slots[j].mailbox
  {
    hide Resume, Settled, Open, PublishFrom, Blocks, MailAfter, SameTerms, SameSubscriptions;
    ResumeIs(c, t, timedOut);
    SameSlots(c.slots);
    var i := t.at.slot;
    if GoesOn(c, t, timedOut) {
      var c1 := Settled(c, t, timedOut);
      SettledOffers(c, t, timedOut);
      SettledMail(c, t, timedOut);
      SameAt(c, c1, j);
      PublishMail(c1, t.env, t.subs, i + 1, WakeStatus(c, t, timedOut));
      OpenSame(c, c1, t.subs, i, i + 1);
      var c' := Resume(c, t.env, t.subs, t.at, timedOut).0;
      assert MailBy(c1.slots[j], c'.slots[j], t.env, i + 1 <= j && j in t.subs && Open(c1, t.subs, i + 1, j));
      if j == i { SameTrans3(c.slots[j], c1.slots[j], c'.slots[j]); }
    }
  }

  lemma WakeMail(w: World, k: nat, timedOut: bool, j: nat)
    requires WorldInv(w) && j < SLOTS == |w.core.slots|
    ensures |PublishWakeStep(w, k, timedOut).core.slots| == SLOTS
    ensures MailIs(w, PublishWake(k, timedOut), j, w.core.slots[j], PublishWakeStep(w, k, timedOut).core.slots[j])
  {
    hide CoreInv, ThreadsOk, LeavingOk, ClosedOk, FlyingOk, TotalLoad, Resume, Receives, GivesUp, MailAfter;
    if k < |w.threads| && w.threads[k].Waiting? {
      ThreadAt(w.core, w.threads, k);
      if w.core.slots[j].active { ResumeMail(w.core, w.threads[k], timedOut, j); }
    }
  }

  /** A step that offers nothing and leaves all mailboxes alone. */
  lemma SameMailIs(w: World, step: Step, c: Core, j: nat)
    requires SameMail(w.core, c) && j < SLOTS == |w.core.slots| && !step.Publish? && !step.PublishWake?
    ensures |c.slots| == SLOTS && MailIs(w, step, j, w.core.slots[j], c.slots[j])
  {
  }

  lemma QuietMail(w: World, step: Step)
    requires WorldInv(w) && !step.Publish? && !step.PublishWake? && !step.Subscribe? && !step.Poll?
    ensures SameMail(w.core, Next(w, step).core)
  {
    hide CoreInv, ThreadsOk, LeavingOk, ClosedOk, FlyingOk, TotalLoad, UnsubscribeStep, UnsubscribeWakeStep,
      EventBusCore.Finish, SnapshotStep, DeliveredStep, SameMail;
    SameMailRefl(w.core);
    match step
    case Unsubscribe(h, patient) => UnsubscribeMail(w, h, patient);
    case UnsubscribeWake(i, timedOut) => CloseMail(w, i, timedOut);
    case Finish(k) =>
      if k < |w.threads| && w.threads[k].Serving? && w.threads[k].task.slot < |w.core.slots| {
        SyncMail(w.core, 0, {}, w.threads[k].task);
      }
    case TakeSnapshot(k) => SnapshotMail(w, k);
    case Delivered(k) => DeliveredMail(w, k);
    case Shutdown => ShutdownMail(w.core);
  }

  lemma ShutdownMail(c: Core)
    ensures SameMail(c, c.(shuttingDown := true))
  {
  }

  lemma MailStep(w: World, step: Step, j: nat)
    requires WorldInv(w) && j < SLOTS
    ensures |w.core.slots| == SLOTS == |Next(w, step).core.slots|
    ensures MailIs(w, step, j, w.core.slots[j], Next(w, step).core.slots[j])
  {
    hide WorldInv, SameMail, MailIs, UnsubscribeStep, UnsubscribeWakeStep, PublishStep, PublishWakeStep, PollStep, FinishStep,
      SnapshotStep, DeliveredStep, EventBusCore.Subscribe;
    InvSlots(w);
    match step
    case Subscribe(_, _, _, _) => SubscribeMail(w, step, j);
    case Publish(ev) => PublishStepMail(w, ev, j);
    case PublishWake(k, timedOut) => WakeMail(w, k, timedOut, j);
    case Poll(k) => TakeMail(w, k, j);
    case _ =>
      QuietMail(w, step);
      SameMailIs(w, step, Next(w, step).core, j);
  }

  // ---- over runs ------------------------------------------------------------------------------------

  /** The mailbox holds the last of what the subscription was offered. */
  predicate HoldsLast(s: Slot) {
    |s.mailbox| <= |s.offered| && s.mailbox == s.offered[|s.offered| - |s.mailbox|..]
  }

  predicate SuffixOk(s: Slot) {
    s.active && s.policy == DropOldest ==> HoldsLast(s)
  }

  /** The subscription that a publisher sleeps on makes publishers wait. */
  predicate SleepOk(c: Core, t: Thread) {
    Sleeping(t) ==>
      && t.at.slot < |c.slots| && t.at.sub < c.nextSub
      && (c.slots[t.at.slot].active && c.slots[t.at.slot].sub == t.at.sub ==>
            c.slots[t.at.slot].policy == BlockWithTimeout)
  }

  ghost predicate PolicyInv(w: World) {
    && (forall j :: 0 <= j < |w.core.slots| ==> SuffixOk(w.core.slots[j]))
    && (forall k :: 0 <= k < |w.threads| ==> SleepOk(w.core, w.threads[k]))
  }

  lemma NextSubGrows(w: World, step: Step)
    requires WorldInv(w)
    ensures w.core.nextSub <= Next(w, step).core.nextSub
  {
    hide CoreInv, ThreadsOk, LeavingOk, ClosedOk, FlyingOk, TotalLoad, PublishFrom, Resume, Matching, Open, DirAdd, DirRemove,
      ReadyPop, ReadyPush, ReleaseRef, Snapshot, Without, ReleaseAll, NextGeneration, FirstFree;
    match step
    case Publish(ev) => PublishNextSub(w, ev);
    case PublishWake(k, timedOut) => WakeNextSub(w, k, timedOut);
    case Unsubscribe(h, _) => if h.slot < SLOTS { ReleaseAllFrame(w.core, w.core.slots[h.slot].mailbox); }
    case _ =>
  }

  lemma PublishNextSub(w: World, ev: Event)
    requires WorldInv(w)
    ensures PublishStep(w, ev).core.nextSub == w.core.nextSub
  {
    hide CoreInv, ThreadsOk, LeavingOk, ClosedOk, FlyingOk, TotalLoad, PublishFrom, Matching;
    if !w.core.shuttingDown && w.core.mode == Async {
      var c1, e, subs, load := Announce(w.core, ev), |w.core.log|, Matching(w.core, ev.topic), TotalLoad(w.threads);
      AnnounceStep(w, ev);
      PublishInv(c1, load.(held := load.held + multiset{e}), e, subs, 0, Ok);
    }
  }

  lemma WakeNextSub(w: World, k: nat, timedOut: bool)
    requires WorldInv(w)
    ensures PublishWakeStep(w, k, timedOut).core.nextSub == w.core.nextSub
  {
    hide CoreInv, ThreadsOk, LeavingOk, ClosedOk, FlyingOk, TotalLoad, Resume;
    if k < |w.threads| && w.threads[k].Waiting? {
      var t, load := w.threads[k], TotalLoad(w.threads);
      ThreadAt(w.core, w.threads, k);
      LoadSplit(w.threads, k, t);
      WakeLoads(Others(w.threads, k), load, t, t.subs, t.at, w.core.mode) by { assert FlyingOk(w.core.mode, load); }
      ResumeInv(w.core, load, t.env, t.subs, t.at, timedOut);
    }
  }

  /** A subscription that was not there before the step has a new serial number. */
  lemma NewSerial(w: World, step: Step, j: nat)
    requires WorldInv(w) && j < SLOTS && step.Subscribe?
    ensures |w.core.slots| == SLOTS == |Next(w, step).core.slots|
    ensures var s, s' := w.core.slots[j], Next(w, step).core.slots[j];
            s' == s || s'.sub == w.core.nextSub
  {
    hide CoreInv, ThreadsOk, LeavingOk, ClosedOk, FlyingOk, TotalLoad, Install;
    var c := w.core;
    SubscribeInv(c, TotalLoad(w.threads), step.topic, step.handler, step.policy, step.capacity);
    var (status, h, c') := EventBusCore.Subscribe(c, step.topic, step.handler, step.policy, step.capacity);
    if status == Ok {
      var s := NewSubscription(c, c.slots[h.slot], step.topic, step.handler, step.policy, step.capacity);
      InstallOffers(c, h.slot, s);
      InstalledSlot(c, h.slot, s);
    }
  }

  /** Where a publisher that falls asleep in the step sleeps. */
  lemma FallsAsleep(w: World, step: Step, k: nat)
    requires WorldInv(w) && |w.core.slots| == SLOTS && k < |Next(w, step).threads| && Sleeping(Next(w, step).threads[k])
    requires k >= |w.threads| || Next(w, step).threads[k] != w.threads[k]
    ensures var at := Next(w, step).threads[k].at;
            && w.core.slots[at.slot].active && w.core.slots[at.slot].sub == at.sub
            && w.core.slots[at.slot].policy == BlockWithTimeout
  {
    hide WorldInv, Next;
    SleeperFrom(w, step, k);
    StepOf(w, step);
    if k >= |w.threads| { PublisherSleeps(w, step.ev); } else { WokenSleeps(w, k, step.timedOut); }
  }

  lemma PublisherSleeps(w: World, ev: Event)
    requires WorldInv(w) && |w.core.slots| == SLOTS && |PublishStep(w, ev).threads| > |w.threads|
    requires Sleeping(PublishStep(w, ev).threads[|w.threads|])
    ensures var at := PublishStep(w, ev).threads[|w.threads|].at;
            && w.core.slots[at.slot].active && w.core.slots[at.slot].sub == at.sub
            && w.core.slots[at.slot].policy == BlockWithTimeout
  {
    hide CoreInv, ThreadsOk, LeavingOk, ClosedOk, FlyingOk, TotalLoad, PublishFrom, Matching, Open;
    if w.core.mode == Async {
      var c1, e, subs := Announce(w.core, ev), |w.core.log|, Matching(w.core, ev.topic);
      PublishOffers(c1, e, subs, 0, Ok);
      assert PublishStep(w, ev).threads[|w.threads|] == Waiting(e, subs, PublishFrom(c1, e, subs, 0, Ok).1);
    }
  }

  lemma WokenSleeps(w: World, k: nat, timedOut: bool)
    requires WorldInv(w) && k < |w.threads| && Sleeping(w.threads[k]) && |w.core.slots| == SLOTS
    requires Sleeping(PublishWakeStep(w, k, timedOut).threads[k])
    requires PublishWakeStep(w, k, timedOut).threads[k] != w.threads[k]
    ensures var at := PublishWakeStep(w, k, timedOut).threads[k].at;
            && w.core.slots[at.slot].active && w.core.slots[at.slot].sub == at.sub
            && w.core.slots[at.slot].policy == BlockWithTimeout
  {
    hide WorldInv, Resume, GoesOn, Receives, Open, SameSubscriptions;
    WakeFacts(w, k, timedOut, 0);
  }

  lemma SleepStep(w: World, step: Step, k: nat)
    requires WorldInv(w) && PolicyInv(w) && k < |Next(w, step).threads|
    ensures SleepOk(Next(w, step).core, Next(w, step).threads[k])
  {
    hide WorldInv, Next, SuffixOk, NewOffers;
    var t' := Next(w, step).threads[k];
    if Sleeping(t') {
      StepOffers(w, step, t'.at.slot);
      MailStep(w, step, t'.at.slot);
      NextSubGrows(w, step);
      if step.Subscribe? { NewSerial(w, step, t'.at.slot); }
      if k >= |w.threads| || t' != w.threads[k] {
        FallsAsleep(w, step, k);
        SerialBelow(w, t'.at.slot);
      } else {
        assert SleepOk(w.core, w.threads[k]);
      }
    }
  }

  lemma SerialBelow(w: World, i: nat)
    requires WorldInv(w) && i < |w.core.slots| == SLOTS && w.core.slots[i].active
    ensures w.core.slots[i].sub < w.core.nextSub
  {
    SlotFacts(w.core, TotalLoad(w.threads), i);
  }

  /** A mailbox that drops its oldest envelopes is never refused an event. */
  lemma NotRefused(w: World, step: Step, j: nat)
    requires PolicyInv(w) && |w.core.slots| == SLOTS && j < SLOTS && w.core.slots[j].active
    requires Refused(w, step, j) && NewOffers(w, step, j) != []
    ensures w.core.slots[j].policy == BlockWithTimeout
  {
    hide SuffixOk, GoesOn, Open;
    assert SleepOk(w.core, w.threads[step.thread]);
  }

  lemma SuffixStep(w: World, step: Step, j: nat)
    requires WorldInv(w) && PolicyInv(w) && j < SLOTS == |w.core.slots| == |Next(w, step).core.slots|
    ensures SuffixOk(Next(w, step).core.slots[j])
  {
    hide WorldInv, Next, NewOffers, Refused, PolicyInv;
    StepOffers(w, step, j);
    MailStep(w, step, j);
    NewOfferIs(w, step, j);
    var s, s' := w.core.slots[j], Next(w, step).core.slots[j];
    if s'.active && s'.policy == DropOldest {
      if s.active && s'.sub == s.sub {
        assert SuffixOk(s) by { SuffixAt(w, j); }
        var more := NewOffers(w, step, j);
        if Refused(w, step, j) && more != [] { NotRefused(w, step, j); }
        SuffixKept(s, s', more);
      } else {
        FreshMail(w, step, j);
      }
    }
  }

  lemma SuffixAt(w: World, j: nat)
    requires PolicyInv(w) && j < |w.core.slots|
    ensures SuffixOk(w.core.slots[j])
  {
    hide SuffixOk, SleepOk;
  }

  lemma NewOfferIs(w: World, step: Step, j: nat)
    requires |w.core.slots| == SLOTS && j < SLOTS
    ensures |NewOffers(w, step, j)| <= 1
  {
    hide Receives, Matching, Open, Sleeping;
  }

  lemma SuffixKept(s: Slot, s': Slot, more: seq<EnvId>)
    requires HoldsLast(s) && s.policy == DropOldest && |more| <= 1 && s'.offered == s.offered + more
    requires more == [] ==> s'.mailbox == s.mailbox || (s.mailbox != [] && s'.mailbox == s.mailbox[1..])
    requires more != [] ==> s'.mailbox == MailAfter(s, more[0])
    ensures HoldsLast(s')
  {
    var n, m := |s.offered|, |s.mailbox|;
    if more != [] { assert s'.offered == s.offered + [more[0]]; }
  }

  /** A new subscription starts with an empty mailbox. */
  lemma FreshMail(w: World, step: Step, j: nat)
    requires WorldInv(w) && step.Subscribe? && j < SLOTS == |w.core.slots| == |Next(w, step).core.slots|
    requires Next(w, step).core.slots[j].active
    requires !(w.core.slots[j].active && Next(w, step).core.slots[j].sub == w.core.slots[j].sub)
    ensures Next(w, step).core.slots[j].mailbox == []
  {
    hide CoreInv, ThreadsOk, LeavingOk, ClosedOk, FlyingOk, TotalLoad, Install;
    var c := w.core;
    SubscribeInv(c, TotalLoad(w.threads), step.topic, step.handler, step.policy, step.capacity);
    var (status, h, c') := EventBusCore.Subscribe(c, step.topic, step.handler, step.policy, step.capacity);
    if status == Ok {
      var s := NewSubscription(c, c.slots[h.slot], step.topic, step.handler, step.policy, step.capacity);
      InstallOffers(c, h.slot, s);
      InstalledSlot(c, h.slot, s);
      SlotFacts(c, TotalLoad(w.threads), h.slot);
    }
  }

  lemma PolicyStep(w: World, step: Step)
    requires WorldInv(w) && PolicyInv(w)
    ensures PolicyInv(Next(w, step))
  {
    hide WorldInv, Next, SuffixOk, SleepOk;
    StepOffers(w, step, 0);
    forall j | 0 <= j < SLOTS
      ensures SuffixOk(Next(w, step).core.slots[j])
    {
      SuffixStep(w, step, j);
    }
    forall k | 0 <= k < |Next(w, step).threads|
      ensures SleepOk(Next(w, step).core, Next(w, step).threads[k])
    {
      SleepStep(w, step, k);
    }
  }

  lemma InitPolicies(mode: Mode, workers: nat, capacity: nat)
    ensures PolicyInv(Init(mode, workers, capacity))
  {
  }

  lemma {:induction false} RunPolicies(mode: Mode, workers: nat, capacity: nat, steps: seq<Step>)
    ensures PolicyInv(Run(mode, workers, capacity, steps))
  {
    hide PolicyInv, Next, Init, WorldInv;
    if steps == [] {
      InitPolicies(mode, workers, capacity);
    } else {
      RunPolicies(mode, workers, capacity, steps[..|steps| - 1]);
      RunInv(mode, workers, capacity, steps[..|steps| - 1]);
      PolicyStep(Run(mode, workers, capacity, steps[..|steps| - 1]), steps[|steps| - 1]);
    }
  }

  lemma ReachablePolicies(w: World)
    requires Reachable(w)
    ensures PolicyInv(w)
  {
    hide Run, PolicyInv;
    var mode, workers, capacity, steps :| w == Run(mode, workers, capacity, steps);
    RunPolicies(mode, workers, capacity, steps);
  }

  /** In every reachable state the mailbox of a subscription that drops the oldest holds the last events offered to it. */
  lemma KeepsNewest(w: World, j: nat)
    requires Reachable(w) && j < |w.core.slots| && w.core.slots[j].active && w.core.slots[j].policy == DropOldest
    ensures var s := w.core.slots[j];
            |s.mailbox| <= |s.offered| && s.mailbox == s.offered[|s.offered| - |s.mailbox|..]
  {
    hide Reachable, SleepOk;
    ReachablePolicies(w);
    assert SuffixOk(w.core.slots[j]);
  }

  /**
   What a step that offers e to a subscription does to its mailbox, in every reachable state. With room e is put
   behind the rest. A full mailbox loses e, its oldest envelope, or its newest envelope, as its policy says. Only
   a subscription that makes publishers wait can be refused an event, and its mailbox then stays as it is.
   */
  lemma OverflowLoss(w: World, step: Step, j: nat, e: EnvId)
    requires Reachable(w) && j < SLOTS && |w.core.slots| == SLOTS && NewOffers(w, step, j) == [e]
    requires |Next(w, step).core.slots| == SLOTS
    requires w.core.slots[j].active && Next(w, step).core.slots[j].active
    requires Next(w, step).core.slots[j].sub == w.core.slots[j].sub
    ensures var s, s' := w.core.slots[j], Next(w, step).core.slots[j];
            && s'.offered == s.offered + [e] && s'.taken == s.taken && s'.policy == s.policy && s'.capacity == s.capacity
            && (s.policy != BlockWithTimeout && |s.mailbox| < s.capacity ==> s'.mailbox == s.mailbox + [e])
            && (|s.mailbox| >= s.capacity ==> s.mailbox != [])
            && (s.policy == DropNewest && |s.mailbox| >= s.capacity ==> s'.mailbox == s.mailbox)
            && (s.policy == DropOldest && |s.mailbox| >= s.capacity ==> s'.mailbox == s.mailbox[1..] + [e])
            && (s.policy == CoalesceLatest && |s.mailbox| >= s.capacity ==> s'.mailbox == s.mailbox[..|s.mailbox| - 1] + [e])
            && (s.policy == BlockWithTimeout ==>
                  s'.mailbox == if Refused(w, step, j) then s.mailbox else s.mailbox + [e])
  {
    hide Reachable, Next, NewOffers, Refused, PolicyInv, CoreInv, ThreadsOk, LeavingOk, ClosedOk, FlyingOk, TotalLoad;
    ReachableInv(w);
    ReachablePolicies(w);
    StepOffers(w, step, j);
    MailStep(w, step, j);
    SlotFacts(w.core, TotalLoad(w.threads), j);
    if Refused(w, step, j) { NotRefused(w, step, j); }
  }

  // ---- the counters of the policies -------------------------------------------------------------------

  /** How many events the policy has lost. */
  function LostBy(m: Metrics, p: Policy): nat {
    match p
    case DropNewest => m.droppedNewest
    case DropOldest => m.droppedOldest
    case CoalesceLatest => m.coalesced
    case BlockWithTimeout => m.refused
  }

  ghost predicate Unused(slots: seq<Slot>, p: Policy) {
    forall i :: 0 <= i < |slots| && slots[i].active ==> slots[i].policy != p
  }

  lemma AcceptLost(c: Core, i: nat, e: EnvId, p: Policy)
    requires i < |c.slots| && c.slots[i].policy != p
    ensures LostBy(Accept(c, i, e).metrics, p) == LostBy(c.metrics, p)
  {
    hide RetainRef, ReleaseRef, Replaced, Full;
  }

  lemma {:induction false} PublishLost(c: Core, e: EnvId, subs: set<nat>, i: nat, err: Status, p: Policy)
    requires i <= |c.slots| == SLOTS && Unused(c.slots, p)
    ensures LostBy(PublishFrom(c, e, subs, i, err).0.metrics, p) == LostBy(c.metrics, p)
    decreases SLOTS - i
  {
    hide Accept, Blocks, PublishFrom, MailAfter;
    PublishStepIs(c, e, subs, i, err);
    if i < SLOTS {
      var c1 := c.(metrics := c.metrics.(matched := c.metrics.matched + 1));
      if i !in subs || !c.slots[i].active {
        PublishLost(c, e, subs, i + 1, err, p);
      } else if !Blocks(c.slots[i]) {
        AcceptOffers(c1, i, e);
        AcceptMail(c1, i, e);
        AcceptLost(c1, i, e, p);
        PublishLost(Accept(c1, i, e), e, subs, i + 1, err, p);
      }
    }
  }

  lemma ResumeLost(c: Core, t: Thread, timedOut: bool, p: Policy)
    requires Sleeping(t) && |c.slots| == SLOTS && Unused(c.slots, p) && p != BlockWithTimeout
    ensures LostBy(Resume(c, t.env, t.subs, t.at, timedOut).0.metrics, p) == LostBy(c.metrics, p)
  {
    hide Resume, Settled, GoesOn, PublishFrom, Blocks, SameTerms, SameSubscriptions, Receives;
    ResumeIs(c, t, timedOut);
    if GoesOn(c, t, timedOut) {
      var c1 := Settled(c, t, timedOut);
      SettledOffers(c, t, timedOut);
      SettledLost(c, t, timedOut, p);
      SettledMail(c, t, timedOut);
      TermsOf(c.slots[t.at.slot], c1.slots[t.at.slot]);
      PublishLost(c1, t.env, t.subs, t.at.slot + 1, WakeStatus(c, t, timedOut), p);
    }
  }

  lemma SettledLost(c: Core, t: Thread, timedOut: bool, p: Policy)
    requires Sleeping(t) && |c.slots| == SLOTS && p != BlockWithTimeout && Unused(c.slots, p)
    ensures LostBy(Settled(c, t, timedOut).metrics, p) == LostBy(c.metrics, p)
  {
    hide Accept;
    if !GivesUp(c, t, timedOut) { AcceptLost(c, t.at.slot, t.env, p); }
  }

  lemma LostStep(w: World, step: Step, p: Policy)
    requires WorldInv(w) && Unused(w.core.slots, p) && p != BlockWithTimeout
    ensures LostBy(Next(w, step).core.metrics, p) == LostBy(w.core.metrics, p)
  {
    hide CoreInv, ThreadsOk, LeavingOk, ClosedOk, FlyingOk, TotalLoad, PublishFrom, Resume, Matching, Open, DirAdd, ReadyPop,
      ReleaseRef, Snapshot, NextGeneration, FirstFree, Unused, EventBusCore.Finish, Deactivate;
    match step
    case Publish(ev) =>
      if !w.core.shuttingDown && w.core.mode == Async {
        PublishLost(Announce(w.core, ev), |w.core.log|, Matching(w.core, ev.topic), 0, Ok, p);
      }
    case PublishWake(k, timedOut) =>
      if k < |w.threads| && w.threads[k].Waiting? {
        ThreadAt(w.core, w.threads, k);
        ResumeLost(w.core, w.threads[k], timedOut, p);
      }
    case Unsubscribe(h, _) => if h.slot < SLOTS { DeactivateLost(w.core, h.slot, p); }
    case Finish(k) =>
      if k < |w.threads| && w.threads[k].Serving? && w.threads[k].task.slot < |w.core.slots| {
        FinishLost(w.core, w.threads[k].task, p);
      }
    case _ =>
  }

  lemma DeactivateLost(c: Core, i: nat, p: Policy)
    requires i < |c.slots|
    ensures LostBy(Deactivate(c, i).metrics, p) == LostBy(c.metrics, p)
  {
    hide DirRemove, Without, ReleaseAll;
  }

  lemma FinishLost(c: Core, t: Task, p: Policy)
    requires t.slot < |c.slots| && p != BlockWithTimeout
    ensures LostBy(EventBusCore.Finish(c, t).metrics, p) == LostBy(c.metrics, p)
  {
    hide ReleaseRef;
  }

  /** The step does not subscribe with the policy. */
  predicate Avoids(step: Step, p: Policy) {
    step.Subscribe? ==> (if step.policy.Some? then step.policy.value else BlockWithTimeout) != p
  }

  lemma UnusedStep(w: World, step: Step, p: Policy)
    requires WorldInv(w) && Unused(w.core.slots, p) && Avoids(step, p)
    ensures Unused(Next(w, step).core.slots, p)
  {
    hide WorldInv, Next, NewOffers;
    StepOffers(w, step, 0);
    forall j | 0 <= j < SLOTS && Next(w, step).core.slots[j].active
      ensures Next(w, step).core.slots[j].policy != p
    {
      StepOffers(w, step, j);
    }
  }

  lemma {:induction false} RunLost(mode: Mode, workers: nat, capacity: nat, steps: seq<Step>, p: Policy)
    requires p != BlockWithTimeout && forall n :: 0 <= n < |steps| ==> Avoids(steps[n], p)
    ensures var w := Run(mode, workers, capacity, steps); Unused(w.core.slots, p) && LostBy(w.core.metrics, p) == 0
  {
    hide WorldInv, Next, Avoids;
    if steps != [] {
      var init := steps[..|steps| - 1];
      assert forall n :: 0 <= n < |init| ==> init[n] == steps[n];
      RunLost(mode, workers, capacity, init, p);
      RunInv(mode, workers, capacity, init);
      LostStep(Run(mode, workers, capacity, init), steps[|steps| - 1], p);
      UnusedStep(Run(mode, workers, capacity, init), steps[|steps| - 1], p);
    }
  }

  /** A counter of lost events only counts for its own policy: it stays at zero in every run that never uses it. */
  lemma LossIsCounted(mode: Mode, workers: nat, capacity: nat, steps: seq<Step>)
    ensures var m := Run(mode, workers, capacity, steps).core.metrics;
            && ((forall n :: 0 <= n < |steps| ==> Avoids(steps[n], DropNewest)) ==> m.droppedNewest == 0)
            && ((forall n :: 0 <= n < |steps| ==> Avoids(steps[n], DropOldest)) ==> m.droppedOldest == 0)
            && ((forall n :: 0 <= n < |steps| ==> Avoids(steps[n], CoalesceLatest)) ==> m.coalesced == 0)
  {
    hide Run, Avoids;
    if forall n :: 0 <= n < |steps| ==> Avoids(steps[n], DropNewest) { RunLost(mode, workers, capacity, steps, DropNewest); }
    if forall n :: 0 <= n < |steps| ==> Avoids(steps[n], DropOldest) { RunLost(mode, workers, capacity, steps, DropOldest); }
    if forall n :: 0 <= n < |steps| ==> Avoids(steps[n], CoalesceLatest) {
      RunLost(mode, workers, capacity, steps, CoalesceLatest);
    }
  }
}
