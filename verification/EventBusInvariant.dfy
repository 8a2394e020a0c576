/**
 What holds of the protected state whenever the event bus mutex is free, and the proof that every
 critical section keeps it. `Load` summarises what the threads outside the lock are holding.
 */
module EventBusInvariant {
  import opened Common
  import opened EventBusCore

  /**
   What the threads hold: `held` counts the envelope references of workers and publishers, `flying`
   the deliveries per slot, `busy` the slots a worker is serving, and `open` the matched deliveries
   that are neither finished nor queued nor given up.
   */
  datatype Load = Load(held: multiset<EnvId>, flying: multiset<nat>, busy: set<nat>, open: nat)

  /** All queued envelopes, with multiplicity. */
  function Mail(slots: seq<Slot>): multiset<EnvId> {
    if slots == [] then multiset{} else multiset(slots[0].mailbox) + Mail(slots[1..])
  }

  ghost predicate SlotOk(s: Slot, i: nat, flying: multiset<nat>, busy: set<nat>) {
    && |s.mailbox| <= s.capacity <= MAILBOX_MAX
    && (s.active ==> s.capacity >= 1 && s.handler.Some?)
    && (!s.active ==> s.mailbox == [])
    && (s.topic.Some? ==> s.handler.Some?)
    && s.inflight == flying[i]
    && (s.inflight > 0 ==> s.handler.Some?)
    && (s.busy <==> i in busy)
    && 1 <= s.generation <= 0xFFFF
  }

  ghost predicate SlotsOk(slots: seq<Slot>, flying: multiset<nat>, busy: set<nat>) {
    && |slots| == SLOTS
    && (forall i :: 0 <= i < SLOTS ==> SlotOk(slots[i], i, flying, busy))
    && (forall i :: i in flying ==> i < SLOTS)
    && (forall i :: i in busy ==> i in flying)
  }

  /** The ready ring holds each deliverable slot exactly once, and nothing else. */
  ghost predicate RingOk(slots: seq<Slot>, ring: seq<nat>) {
    && Distinct(ring)
    && (forall k :: 0 <= k < |ring| ==> ring[k] < |slots| && Deliverable(slots[ring[k]]))
    && (forall i :: 0 <= i < |slots| && Deliverable(slots[i]) ==> i in ring)
  }

  predicate Subscribes(slots: seq<Slot>, i: nat, t: Option<Topic>) {
    i < |slots| && slots[i].active && slots[i].topic == t
  }

  predicate Listed(dir: map<Topic, set<nat>>, t: Topic, i: nat) {
    t in dir && i in dir[t]
  }

  /** The directory and the wildcard set agree with a scan over the active slots. */
  ghost predicate DirOk(slots: seq<Slot>, dir: map<Topic, set<nat>>, wildcard: set<nat>) {
    && (forall t, i :: Listed(dir, t, i) <==> Subscribes(slots, i, Some(t)))
    && (forall t :: t in dir ==> dir[t] != {})
    && (forall i :: i in wildcard <==> Subscribes(slots, i, None))
  }

  /** An envelope is alive exactly while somebody holds it, and its count is the number of holds. */
  ghost predicate RefsOk(refs: map<EnvId, nat>, total: multiset<EnvId>) {
    forall e: EnvId :: (e in refs <==> e in total) && (e in refs ==> refs[e] == total[e])
  }

  ghost predicate LogOk(refs: map<EnvId, nat>, log: seq<Event>) {
    forall e :: e in refs ==> e < |log|
  }

  /** What was handed over, followed by what is queued, is what was offered minus the losses. */
  ghost predicate OrderOk(s: Slot) {
    && Subsequence(s.taken + s.mailbox, s.offered)
    && (s.lossless ==> s.taken + s.mailbox == s.offered)
  }

  ghost predicate OrdersOk(slots: seq<Slot>) {
    forall i :: 0 <= i < |slots| && slots[i].active ==> OrderOk(slots[i])
  }

  /** Serial numbers tell subscriptions apart. */
  ghost predicate SubsOk(slots: seq<Slot>, nextSub: nat) {
    && (forall i :: 0 <= i < |slots| && slots[i].handler.Some? ==> slots[i].sub < nextSub)
    && (forall i, j :: 0 <= i < j < |slots| && slots[i].handler.Some? && slots[j].handler.Some? ==>
          slots[i].sub != slots[j].sub)
  }

  function Accounted(m: Metrics, queued: nat, open: nat): nat {
    m.delivered + queued + m.droppedNewest + m.droppedOldest + m.coalesced + m.discarded + m.refused + open
  }

  ghost predicate CoreInv(c: Core, load: Load) {
    && c.faults == 0
    && 1 <= c.defaultCapacity <= MAILBOX_MAX
    && SlotsOk(c.slots, load.flying, load.busy)
    && RingOk(c.slots, c.ring)
    && DirOk(c.slots, c.dir, c.wildcard)
    && RefsOk(c.refs, Mail(c.slots) + load.held)
    && LogOk(c.refs, c.log)
    && OrdersOk(c.slots)
    && SubsOk(c.slots, c.nextSub)
    && c.metrics.matched == Accounted(c.metrics, |Mail(c.slots)|, load.open)
  }

  // ---- facts about Mail, refs and the ring -------------------------------------------------------

  lemma {:induction false} MailUpdate(slots: seq<Slot>, i: nat, s: Slot)
    requires i < |slots|
    ensures Mail(slots[i := s]) + multiset(slots[i].mailbox) == Mail(slots) + multiset(s.mailbox)
  {
    var upd := slots[i := s];
    if i == 0 {
      assert upd[1..] == slots[1..];
    } else {
      assert upd[1..] == slots[1..][i - 1 := s];
      MailUpdate(slots[1..], i - 1, s);
      var m0, m1, m2 := multiset(slots[0].mailbox), multiset(slots[i].mailbox), multiset(s.mailbox);
      assert upd[0] == slots[0] && slots[1..][i - 1] == slots[i];
      calc {
        Mail(upd) + m1;
        (m0 + Mail(upd[1..])) + m1;
        m0 + (Mail(upd[1..]) + m1);
        m0 + (Mail(slots[1..]) + m2);
        Mail(slots) + m2;
      }
    }
  }

  lemma {:induction false} MailHas(slots: seq<Slot>, i: nat)
    requires i < |slots|
    ensures multiset(slots[i].mailbox) <= Mail(slots)
  {
    if i > 0 { MailHas(slots[1..], i - 1); }
  }

  /** Rewriting a slot without touching its mailbox leaves the mail unchanged. */
  lemma MailSame(slots: seq<Slot>, i: nat, s: Slot)
    requires i < |slots| && s.mailbox == slots[i].mailbox
    ensures Mail(slots[i := s]) == Mail(slots)
  {
    MailUpdate(slots, i, s);
    var m := multiset(s.mailbox);
    assert Mail(slots[i := s]) == (Mail(slots[i := s]) + m) - m;
    assert Mail(slots) == (Mail(slots) + m) - m;
  }

  lemma RefsRetain(refs: map<EnvId, nat>, total: multiset<EnvId>, e: EnvId)
    requires RefsOk(refs, total) && e in total
    ensures RefsOk(RetainRef(refs, e), total + multiset{e})
  {
  }

  lemma RefsRelease(refs: map<EnvId, nat>, total: multiset<EnvId>, e: EnvId)
    requires RefsOk(refs, total) && e in total
    ensures RefsOk(ReleaseRef(refs, e), total - multiset{e})
  {
  }

  lemma ReadyPushOk(c: Core, i: nat)
    requires i < |c.slots| == SLOTS
    requires Distinct(c.ring)
    requires forall k :: 0 <= k < |c.ring| ==> c.ring[k] < SLOTS && Deliverable(c.slots[c.ring[k]])
    requires forall j :: 0 <= j < SLOTS && j != i && Deliverable(c.slots[j]) ==> j in c.ring
    ensures RingOk(c.slots, ReadyPush(c, i).ring)
    ensures ReadyPush(c, i) == c.(ring := ReadyPush(c, i).ring)
  {
    if i !in c.ring { RingFits(c.ring, i); }
  }

  /** A duplicate-free ring that misses slot i has room for it: the full-ring guard cannot be taken. */
  lemma RingFits(ring: seq<nat>, i: nat)
    requires Distinct(ring) && i !in ring && i < SLOTS
    requires forall k :: 0 <= k < |ring| ==> ring[k] < SLOTS
    ensures |ring| < SLOTS
  {
    DistinctBounded(ring + [i], SLOTS);
  }

  lemma {:induction false} WithoutElements(ring: seq<nat>, i: nat)
    ensures forall x :: x in Without(ring, i) <==> x in ring && x != i
    ensures Distinct(ring) ==> Distinct(Without(ring, i))
  {
    if ring != [] {
      WithoutElements(ring[1..], i);
      var w := Without(ring, i);
      if Distinct(ring) && ring[0] != i {
        assert ring[0] !in ring[1..];
        assert w == [ring[0]] + Without(ring[1..], i);
      }
    }
  }

  // ---- the critical sections ---------------------------------------------------------------------

  lemma InitInv(mode: Mode, capacity: nat)
    ensures CoreInv(InitCore(mode, capacity), Load(multiset{}, multiset{}, {}, 0))
  {
    var c := InitCore(mode, capacity);
    EmptyMail(c.slots);
  }

  lemma {:induction false} EmptyMail(slots: seq<Slot>)
    requires forall i :: 0 <= i < |slots| ==> slots[i].mailbox == []
    ensures Mail(slots) == multiset{}
  {
    if slots != [] { EmptyMail(slots[1..]); }
  }

  /** A fresh envelope is held once, by its publisher. */
  lemma AnnounceInv(c: Core, load: Load, ev: Event)
    requires CoreInv(c, load)
    ensures CoreInv(Announce(c, ev), load.(held := load.held + multiset{|c.log|}))
  {
    var e := |c.log|;
    var total := Mail(c.slots) + load.held;
    assert e !in total;
    assert Mail(c.slots) + (load.held + multiset{e}) == total + multiset{e};
  }

  /** The publisher or worker gives up one reference it holds. */
  lemma ReleaseInv(c: Core, load: Load, e: EnvId)
    requires CoreInv(c, load) && e in load.held
    ensures CoreInv(Release(c, e), load.(held := load.held - multiset{e}))
  {
    var total := Mail(c.slots) + load.held;
    RefsRelease(c.refs, total, e);
    assert Mail(c.slots) + (load.held - multiset{e}) == total - multiset{e};
  }

  // ---- rewriting one slot, one conjunct of the invariant at a time ----------------------------------

  /** s differs from the slot it replaces only in the fields that queueing changes. */
  predicate SameOwner(s: Slot, s': Slot) {
    && s'.active == s.active && s'.topic == s.topic && s'.handler == s.handler
    && s'.sub == s.sub && s'.generation == s.generation && s'.capacity == s.capacity
    && s'.inflight == s.inflight && s'.busy == s.busy
  }

  lemma OwnersKept(slots: seq<Slot>, i: nat, s: Slot, flying: multiset<nat>, busy: set<nat>,
                   dir: map<Topic, set<nat>>, wildcard: set<nat>, nextSub: nat)
    requires SlotsOk(slots, flying, busy) && DirOk(slots, dir, wildcard) && SubsOk(slots, nextSub)
    requires i < SLOTS && SameOwner(slots[i], s) && |s.mailbox| <= s.capacity && (s.active || s.mailbox == [])
    ensures SlotsOk(slots[i := s], flying, busy) && DirOk(slots[i := s], dir, wildcard) && SubsOk(slots[i := s], nextSub)
  {
    var upd := slots[i := s];
    assert forall j :: 0 <= j < SLOTS ==> SameOwner(slots[j], upd[j]);
    assert forall j: nat, t :: Subscribes(upd, j, t) <==> Subscribes(slots, j, t);
  }

  lemma OrdersUpdate(slots: seq<Slot>, i: nat, s: Slot)
    requires OrdersOk(slots) && i < |slots| && (s.active ==> OrderOk(s))
    ensures OrdersOk(slots[i := s])
  {
  }

  /** Dropping the k-th queued envelope, marking the loss, and queueing e at the end. */
  lemma OrderReplace(s: Slot, k: nat, e: EnvId, s': Slot)
    requires OrderOk(s) && k < |s.mailbox|
    requires s'.taken == s.taken && s'.offered == s.offered + [e] && !s'.lossless
    requires s'.mailbox == Replaced(s.mailbox, k, e)
    ensures OrderOk(s')
  {
    var all := s.taken + s.mailbox;
    var kept := s.taken + (s.mailbox[..k] + s.mailbox[k + 1..]);
    SubsequenceDelete(all, s.offered, |s.taken| + k);
    assert all[..|s.taken| + k] + all[|s.taken| + k + 1..] == kept;
    SubsequenceAppend(kept, s.offered, e);
    assert s'.taken + s'.mailbox == kept + [e];
  }

  lemma OrderPush(s: Slot, e: EnvId, s': Slot)
    requires OrderOk(s)
    requires s'.taken == s.taken && s'.offered == s.offered + [e] && s'.lossless == s.lossless
    requires s'.mailbox == s.mailbox + [e]
    ensures OrderOk(s')
  {
    SubsequenceAppend(s.taken + s.mailbox, s.offered, e);
    assert s'.taken + s'.mailbox == s.taken + s.mailbox + [e];
  }

  lemma OrderSkip(s: Slot, e: EnvId, s': Slot)
    requires OrderOk(s)
    requires s'.taken == s.taken && s'.mailbox == s.mailbox && s'.offered == s.offered + [e] && !s'.lossless
    ensures OrderOk(s')
  {
    SubsequenceAppend(s.taken + s.mailbox, s.offered, e);
  }

  lemma MailboxReplace(box: seq<EnvId>, k: nat, e: EnvId)
    requires k < |box|
    ensures |Replaced(box, k, e)| == |box|
    ensures multiset(Replaced(box, k, e)) == multiset(box) - multiset{box[k]} + multiset{e}
  {
    assert box == box[..k] + [box[k]] + box[k + 1..];
  }

  /** Exchanging the k-th envelope of a mailbox for e, in the mail and in the reference counts. */
  lemma RefsReplace(slots: seq<Slot>, i: nat, k: nat, e: EnvId, s: Slot, refs: map<EnvId, nat>,
                    held: multiset<EnvId>)
    requires i < |slots| && k < |slots[i].mailbox| && e in held
    requires s.mailbox == Replaced(slots[i].mailbox, k, e)
    requires RefsOk(refs, Mail(slots) + held)
    ensures slots[i].mailbox[k] in refs && e in ReleaseRef(refs, slots[i].mailbox[k])
    ensures RefsOk(RetainRef(ReleaseRef(refs, slots[i].mailbox[k]), e), Mail(slots[i := s]) + held)
    ensures |Mail(slots[i := s])| == |Mail(slots)|
  {
    hide RefsOk, RetainRef, ReleaseRef;
    var x := slots[i].mailbox[k];
    MailboxReplace(slots[i].mailbox, k, e);
    MailHas(slots, i);
    MailUpdate(slots, i, s);
    ReplaceOne(Mail(slots), Mail(slots[i := s]), multiset(slots[i].mailbox), multiset(s.mailbox), x, e);
    RefsExchange(Mail(slots), Mail(slots[i := s]), held, refs, x, e);
  }

  lemma RefsExchange(m: multiset<EnvId>, m': multiset<EnvId>, held: multiset<EnvId>, refs: map<EnvId, nat>,
                     x: EnvId, e: EnvId)
    requires x in m && e in held && m' == m - multiset{x} + multiset{e} && RefsOk(refs, m + held)
    ensures x in refs && e in ReleaseRef(refs, x) && RefsOk(RetainRef(ReleaseRef(refs, x), e), m' + held)
  {
    hide RetainRef, ReleaseRef;
    var total := m + held;
    assert x in refs by { assert x in total; }
    RefsRelease(refs, total, x);
    assert e in total - multiset{x};
    RefsRetain(ReleaseRef(refs, x), total - multiset{x}, e);
    assert m' + held == total - multiset{x} + multiset{e};
  }

  lemma RefsPush(slots: seq<Slot>, i: nat, e: EnvId, s: Slot, refs: map<EnvId, nat>, held: multiset<EnvId>)
    requires i < |slots| && e in held && s.mailbox == slots[i].mailbox + [e]
    requires RefsOk(refs, Mail(slots) + held)
    ensures e in refs
    ensures RefsOk(RetainRef(refs, e), Mail(slots[i := s]) + held)
    ensures |Mail(slots[i := s])| == |Mail(slots)| + 1
  {
    MailUpdate(slots, i, s);
    var m, m', a := Mail(slots), Mail(slots[i := s]), multiset(slots[i].mailbox);
    assert multiset(s.mailbox) == a + multiset{e};
    assert m' == (m' + a) - a;
    assert m' == m + multiset{e};
    RefsRetain(refs, m + held, e);
    assert m' + held == m + held + multiset{e};
  }

  /** Exchanging x for e in one mailbox exchanges it in the total. */
  lemma ReplaceOne(m: multiset<EnvId>, m': multiset<EnvId>, a: multiset<EnvId>, b: multiset<EnvId>, x: EnvId, e: EnvId)
    requires m' + a == m + b && x in a && a <= m && b == a - multiset{x} + multiset{e}
    ensures m' == m - multiset{x} + multiset{e}
    ensures |m'| == |m|
  {
    assert m' == (m' + a) - a;
    assert m' == m + b - a;
  }

  lemma RingKept(slots: seq<Slot>, ring: seq<nat>, i: nat, s: Slot)
    requires RingOk(slots, ring) && i < |slots| && (Deliverable(s) <==> Deliverable(slots[i]))
    ensures RingOk(slots[i := s], ring)
  {
  }

  /** The ring after slot i was rewritten and pushed if it became deliverable. */
  lemma RingPush(c: Core, slots: seq<Slot>, i: nat)
    requires RingOk(slots, c.ring) && |slots| == |c.slots| == SLOTS && i < SLOTS
    requires slots == c.slots[i := slots[i]]
    requires Deliverable(slots[i]) ==> Deliverable(c.slots[i])
    ensures RingOk(c.slots, ReadyPush(c, i).ring)
    ensures ReadyPush(c, i) == c.(ring := ReadyPush(c, i).ring)
  {
    assert forall j :: 0 <= j < SLOTS && j != i ==> c.slots[j] == slots[j];
    ReadyPushOk(c, i);
  }

  lemma SlotFacts(c: Core, load: Load, i: nat)
    requires CoreInv(c, load) && i < SLOTS
    ensures |c.slots| == SLOTS && SlotOk(c.slots[i], i, load.flying, load.busy)
    ensures c.slots[i].active ==> OrderOk(c.slots[i])
  {
  }

  // ---- queueing an event ----------------------------------------------------------------------------

  lemma AcceptDropNewest(c: Core, load: Load, i: nat, e: EnvId)
    requires CoreInv(c, load) && load.open > 0 && e in load.held
    requires i < |c.slots| == SLOTS && c.slots[i].active && Full(c.slots[i]) && c.slots[i].policy == DropNewest
    ensures CoreInv(Accept(c, i, e), load.(open := load.open - 1))
  {
    hide SlotsOk, RingOk, DirOk, RefsOk, OrdersOk, OrderOk, SubsOk, Mail;
    SlotFacts(c, load, i);
    var s, s' := c.slots[i], Accept(c, i, e).slots[i];
    OwnersKept(c.slots, i, s', load.flying, load.busy, c.dir, c.wildcard, c.nextSub);
    MailSame(c.slots, i, s');
    OrderSkip(s, e, s');
    OrdersUpdate(c.slots, i, s');
    RingKept(c.slots, c.ring, i, s');
  }

  lemma AcceptCoalesce(c: Core, load: Load, i: nat, e: EnvId)
    requires CoreInv(c, load) && load.open > 0 && e in load.held
    requires i < |c.slots| == SLOTS && c.slots[i].active && Full(c.slots[i]) && c.slots[i].policy == CoalesceLatest
    ensures CoreInv(Accept(c, i, e), load.(open := load.open - 1))
  {
    hide SlotsOk, RingOk, DirOk, RefsOk, OrdersOk, OrderOk, SubsOk, Mail, Replaced, ReleaseRef, RetainRef;
    SlotFacts(c, load, i);
    var s, s' := c.slots[i], Accept(c, i, e).slots[i];
    var last := |s.mailbox| - 1;
    MailboxReplace(s.mailbox, last, e);
    OwnersKept(c.slots, i, s', load.flying, load.busy, c.dir, c.wildcard, c.nextSub);
    RefsReplace(c.slots, i, last, e, s', c.refs, load.held);
    OrderReplace(s, last, e, s');
    OrdersUpdate(c.slots, i, s');
    RingKept(c.slots, c.ring, i, s');
  }

  lemma AcceptDropOldest(c: Core, load: Load, i: nat, e: EnvId)
    requires CoreInv(c, load) && load.open > 0 && e in load.held
    requires i < |c.slots| == SLOTS && c.slots[i].active && Full(c.slots[i]) && c.slots[i].policy == DropOldest
    ensures CoreInv(Accept(c, i, e), load.(open := load.open - 1))
  {
    hide SlotsOk, RingOk, DirOk, RefsOk, OrdersOk, OrderOk, SubsOk, Mail, Replaced, ReadyPush, ReleaseRef, RetainRef;
    SlotFacts(c, load, i);
    var c1 := ReplaceOldest(c, i, e);
    var s, s' := c.slots[i], c1.slots[i];
    MailboxReplace(s.mailbox, 0, e);
    OwnersKept(c.slots, i, s', load.flying, load.busy, c.dir, c.wildcard, c.nextSub);
    RefsReplace(c.slots, i, 0, e, s', c.refs, load.held);
    OrderReplace(s, 0, e, s');
    OrdersUpdate(c.slots, i, s');
    RingPush(c1, c.slots, i);
  }

  lemma AcceptPush(c: Core, load: Load, i: nat, e: EnvId)
    requires CoreInv(c, load) && load.open > 0 && e in load.held
    requires i < |c.slots| == SLOTS && c.slots[i].active && !Full(c.slots[i])
    ensures CoreInv(Accept(c, i, e), load.(open := load.open - 1))
  {
    hide SlotsOk, RingOk, DirOk, RefsOk, OrdersOk, OrderOk, SubsOk, Mail, Replaced, ReadyPush, ReleaseRef, RetainRef;
    SlotFacts(c, load, i);
    var c1 := Enqueue(c, i, e);
    var s, s' := c.slots[i], c1.slots[i];
    OwnersKept(c.slots, i, s', load.flying, load.busy, c.dir, c.wildcard, c.nextSub);
    RefsPush(c.slots, i, e, s', c.refs, load.held);
    OrderPush(s, e, s');
    OrdersUpdate(c.slots, i, s');
    RingPush(c1, c.slots, i);
  }

  /** Whatever the overflow policy does, queueing one matched event keeps every part of the invariant. */
  lemma AcceptInv(c: Core, load: Load, i: nat, e: EnvId)
    requires CoreInv(c, load) && load.open > 0 && e in load.held
    requires i < |c.slots| == SLOTS && c.slots[i].active && !Blocks(c.slots[i])
    ensures CoreInv(Accept(c, i, e), load.(open := load.open - 1))
  {
    var s := c.slots[i];
    if !Full(s) { AcceptPush(c, load, i, e); }
    else if s.policy == DropNewest { AcceptDropNewest(c, load, i, e); }
    else if s.policy == CoalesceLatest { AcceptCoalesce(c, load, i, e); }
    else { AcceptDropOldest(c, load, i, e); }
  }

  /** An event that a waiting publisher gives up is accounted as refused. */
  lemma RefuseInv(c: Core, load: Load, i: nat, sub: nat, e: EnvId)
    requires CoreInv(c, load) && load.open > 0 && i < |c.slots| == SLOTS
    ensures CoreInv(Refuse(c, i, sub, e), load.(open := load.open - 1))
  {
    hide SlotsOk, RingOk, DirOk, RefsOk, OrdersOk, OrderOk, SubsOk, Mail;
    SlotFacts(c, load, i);
    var s, s' := c.slots[i], Refuse(c, i, sub, e).slots[i];
    if s.sub == sub {
      OwnersKept(c.slots, i, s', load.flying, load.busy, c.dir, c.wildcard, c.nextSub);
      MailSame(c.slots, i, s');
      if s.active { OrderSkip(s, e, s'); }
      OrdersUpdate(c.slots, i, s');
      RingKept(c.slots, c.ring, i, s');
    }
  }

  // ---- the publish loop -----------------------------------------------------------------------------

  /** Nothing that identifies a subscription changes. */
  ghost predicate SameSubscriptions(c: Core, c': Core) {
    && |c'.slots| == |c.slots|
    && (forall i :: 0 <= i < |c.slots| ==> SameIdentity(c.slots[i], c'.slots[i]))
    && c'.nextSub == c.nextSub && c'.log == c.log && c'.shuttingDown == c.shuttingDown && c'.mode == c.mode
  }

  predicate SameIdentity(s: Slot, s': Slot) {
    && s'.active == s.active && s'.generation == s.generation && s'.handler == s.handler
    && s'.sub == s.sub && s'.topic == s.topic && s'.since == s.since && s'.policy == s.policy
  }

  lemma IdentityAt(c: Core, c': Core, i: nat)
    requires i < |c.slots| == |c'.slots| && c'.slots == c.slots[i := c'.slots[i]]
    requires SameIdentity(c.slots[i], c'.slots[i])
    requires c'.nextSub == c.nextSub && c'.log == c.log && c'.shuttingDown == c.shuttingDown && c'.mode == c.mode
    ensures SameSubscriptions(c, c')
  {
  }

  lemma AcceptIdentity(c: Core, i: nat, e: EnvId)
    requires i < |c.slots|
    ensures SameSubscriptions(c, Accept(c, i, e))
  {
    hide RetainRef, ReleaseRef, ReadyPush, Replaced, Full, SameSubscriptions;
    var s := c.slots[i];
    if Full(s) && s.policy == DropNewest { IdentityAt(c, SkipNewest(c, i, e), i); }
    else if Full(s) && s.policy == CoalesceLatest && s.mailbox != [] { IdentityAt(c, ReplaceLatest(c, i, e), i); }
    else if Full(s) && s.policy == DropOldest && s.mailbox != [] {
      IdentityAt(c, ReadyPush(ReplaceOldest(c, i, e), i), i);
    } else {
      IdentityAt(c, ReadyPush(Enqueue(c, i, e), i), i);
    }
  }

  /** A publish leaves nothing behind: it ends by releasing its hold, or it waits with one open event. */
  lemma {:induction false} PublishInv(c: Core, load: Load, e: EnvId, subs: set<nat>, i: nat, err: Status)
    requires CoreInv(c, load) && e in load.held && i <= |c.slots| == SLOTS
    ensures var (c', r) := PublishFrom(c, e, subs, i, err);
            && SameSubscriptions(c, c')
            && (r.Done? ==> CoreInv(c', load.(held := load.held - multiset{e})))
            && (r.Blocked? ==> CoreInv(c', load.(open := load.open + 1)))
            && (r.Blocked? ==> i <= r.slot < SLOTS && r.slot in subs && c'.slots[r.slot].active
                               && r.generation == c'.slots[r.slot].generation && r.sub == c'.slots[r.slot].sub)
    decreases SLOTS - i
  {
    hide CoreInv, Accept, Blocks, Release, SameSubscriptions;
    SameRefl(c);
    if i == SLOTS {
      ReleaseInv(c, load, e);
      ReleaseIdentity(c, e);
    } else if i !in subs || !c.slots[i].active {
      PublishInv(c, load, e, subs, i + 1, err);
    } else {
      var c1 := c.(metrics := c.metrics.(matched := c.metrics.matched + 1));
      var load1 := load.(open := load.open + 1);
      MatchedInv(c, load);
      MatchedIdentity(c);
      if !Blocks(c.slots[i]) {
        AcceptInv(c1, load1, i, e);
        AcceptIdentity(c1, i, e);
        assert load1.(open := load1.open - 1) == load;
        var c2 := Accept(c1, i, e);
        SameTrans(c, c1, c2);
        PublishInv(c2, load, e, subs, i + 1, err);
        SameTrans(c, c2, PublishFrom(c2, e, subs, i + 1, err).0);
      }
    }
  }

  lemma SameRefl(c: Core)
    ensures SameSubscriptions(c, c)
  {
  }

  lemma ReleaseIdentity(c: Core, e: EnvId)
    ensures SameSubscriptions(c, Release(c, e))
  {
  }

  lemma MatchedIdentity(c: Core)
    ensures SameSubscriptions(c, c.(metrics := c.metrics.(matched := c.metrics.matched + 1)))
  {
  }

  lemma RefuseIdentity(c: Core, i: nat, sub: nat, e: EnvId)
    requires i < |c.slots|
    ensures SameSubscriptions(c, Refuse(c, i, sub, e))
  {
  }

  lemma SameTrans(a: Core, b: Core, c: Core)
    requires SameSubscriptions(a, b) && SameSubscriptions(b, c)
    ensures SameSubscriptions(a, c) && |c.slots| == |a.slots|
  {
    forall i | 0 <= i < |a.slots| ensures SameIdentity(a.slots[i], c.slots[i]) {
      assert SameIdentity(a.slots[i], b.slots[i]);
    }
  }

  lemma MatchedInv(c: Core, load: Load)
    requires CoreInv(c, load)
    ensures CoreInv(c.(metrics := c.metrics.(matched := c.metrics.matched + 1)), load.(open := load.open + 1))
  {
    hide SlotsOk, RingOk, DirOk, RefsOk, OrdersOk, SubsOk, Mail;
  }

  lemma RefuseThenPublish(c: Core, load: Load, e: EnvId, subs: set<nat>, i: nat, sub: nat, err: Status)
    requires CoreInv(c, load) && e in load.held && load.open > 0 && i < |c.slots| == SLOTS
    ensures |Refuse(c, i, sub, e).slots| == SLOTS
    ensures var (c', r) := PublishFrom(Refuse(c, i, sub, e), e, subs, i + 1, err);
            && SameSubscriptions(c, c')
            && (r.Done? ==> CoreInv(c', load.(held := load.held - multiset{e}, open := load.open - 1)))
            && (r.Blocked? ==> CoreInv(c', load) && r.slot < SLOTS)
  {
    hide CoreInv, SameSubscriptions, PublishFrom;
    var c1 := Refuse(c, i, sub, e);
    RefuseInv(c, load, i, sub, e);
    RefuseIdentity(c, i, sub, e);
    PublishInv(c1, load.(open := load.open - 1), e, subs, i + 1, err);
    SameTrans(c, c1, PublishFrom(c1, e, subs, i + 1, err).0);
    assert load.(open := load.open - 1).(open := load.open) == load;
  }

  lemma AcceptThenPublish(c: Core, load: Load, e: EnvId, subs: set<nat>, i: nat, err: Status)
    requires CoreInv(c, load) && e in load.held && load.open > 0 && i < |c.slots| == SLOTS
    requires c.slots[i].active && !Blocks(c.slots[i])
    ensures |Accept(c, i, e).slots| == SLOTS
    ensures var (c', r) := PublishFrom(Accept(c, i, e), e, subs, i + 1, err);
            && SameSubscriptions(c, c')
            && (r.Done? ==> CoreInv(c', load.(held := load.held - multiset{e}, open := load.open - 1)))
            && (r.Blocked? ==> CoreInv(c', load) && r.slot < SLOTS)
  {
    hide CoreInv, SameSubscriptions, PublishFrom, Accept;
    var c1 := Accept(c, i, e);
    AcceptInv(c, load, i, e);
    AcceptIdentity(c, i, e);
    SameRefl(c);
    SameTrans(c, c, c1);
    PublishInv(c1, load.(open := load.open - 1), e, subs, i + 1, err);
    SameTrans(c, c1, PublishFrom(c1, e, subs, i + 1, err).0);
    assert load.(open := load.open - 1).(open := load.open) == load;
  }

  /** The same for a publisher that was waiting: the open event is settled or it waits on. */
  lemma ResumeInv(c: Core, load: Load, e: EnvId, subs: set<nat>, at: PublishResult, timedOut: bool)
    requires CoreInv(c, load) && e in load.held && load.open > 0
    requires at.Blocked? && at.slot < |c.slots| == SLOTS
    ensures var (c', r) := Resume(c, e, subs, at, timedOut);
            && SameSubscriptions(c, c')
            && (r.Done? ==> CoreInv(c', load.(held := load.held - multiset{e}, open := load.open - 1)))
            && (r.Blocked? ==> CoreInv(c', load) && r.slot < SLOTS)
  {
    hide CoreInv, Accept, Blocks, SameSubscriptions, PublishFrom, Refuse;
    var i, s := at.slot, c.slots[at.slot];
    SameRefl(c);
    if timedOut {
      RefuseThenPublish(c, load, e, subs, i, at.sub, FirstError(at.status, Timeout));
    } else if c.shuttingDown {
      RefuseThenPublish(c, load, e, subs, i, at.sub, FirstError(at.status, Cancelled));
    } else if s.active && s.generation == at.generation && Blocks(s) {
    } else if !s.active || s.generation != at.generation {
      RefuseThenPublish(c, load, e, subs, i, at.sub, FirstError(at.status, Cancelled));
    } else {
      AcceptThenPublish(c, load, e, subs, i, at.status);
    }
  }
}
