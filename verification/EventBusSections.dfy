/** The remaining critical sections keep the invariant: subscribe, unsubscribe, workers, synchronous publish. */
module EventBusSections {
  import opened Common
  import opened EventBusCore
  import opened EventBusInvariant

  // ---- the topic directory ------------------------------------------------------------------------

  /** Topics own disjoint, non-empty sets of slots, so there are at most as many topics as slots. */
  lemma {:induction false} DirectorySize(dir: map<Topic, set<nat>>, universe: set<nat>)
    requires forall t :: t in dir ==> dir[t] != {} && dir[t] <= universe
    requires forall t, u :: t in dir && u in dir && t != u ==> dir[t] !! dir[u]
    ensures |dir| <= |universe|
  {
    if |dir| > 0 {
      var t :| t in dir;
      var x :| x in dir[t];
      var rest := map u | u in dir && u != t :: dir[u];
      assert dir.Keys == rest.Keys + {t};
      DirectorySize(rest, universe - {x});
    }
  }

  /** With 64 slots and room for 128 topics, the error "topic directory is full" cannot occur. */
  lemma DirectoryHasRoom(c: Core, load: Load)
    requires CoreInv(c, load)
    ensures |c.dir| <= SLOTS < TOPIC_CAPACITY
  {
    var universe := set t, i | t in c.dir && i in c.dir[t] :: i;
    forall t | t in c.dir
      ensures c.dir[t] != {} && c.dir[t] <= universe
    {
    }
    forall t, u | t in c.dir && u in c.dir && t != u
      ensures c.dir[t] !! c.dir[u]
    {
      forall i | i in c.dir[t] && i in c.dir[u] ensures false {
        assert Listed(c.dir, t, i) && Listed(c.dir, u, i);
      }
    }
    DirectorySize(c.dir, universe);
    forall i | i in universe ensures i < SLOTS {
      var t :| t in c.dir && i in c.dir[t];
      assert Listed(c.dir, t, i);
    }
    SetBounded(universe, SLOTS);
  }

  /** The slots selected for a publish are exactly the active ones whose topic matches. */
  lemma MatchingIsScan(c: Core, load: Load, t: Topic)
    requires CoreInv(c, load)
    ensures forall i: nat :: i in Matching(c, t) <==>
              i < |c.slots| && c.slots[i].active && (c.slots[i].topic.None? || c.slots[i].topic == Some(t))
  {
    forall i: nat
      ensures i in Matching(c, t) <==> Subscribes(c.slots, i, None) || Subscribes(c.slots, i, Some(t))
    {
      assert Listed(c.dir, t, i) <==> Subscribes(c.slots, i, Some(t));
    }
  }

  lemma DirAddOk(slots: seq<Slot>, dir: map<Topic, set<nat>>, wildcard: set<nat>, i: nat, s: Slot)
    requires DirOk(slots, dir, wildcard) && i < |slots| && !slots[i].active && s.active
    ensures s.topic.Some? ==> DirOk(slots[i := s], DirAdd(dir, s.topic.value, i), wildcard)
    ensures s.topic.None? ==> DirOk(slots[i := s], dir, wildcard + {i})
  {
    var upd := slots[i := s];
    assert forall j: nat, t :: Subscribes(upd, j, t) <==> Subscribes(slots, j, t) || (j == i && t == s.topic);
    if s.topic.Some? {
      var dir' := DirAdd(dir, s.topic.value, i);
      forall t, j ensures Listed(dir', t, j) <==> Listed(dir, t, j) || (j == i && t == s.topic.value) {}
    }
  }

  lemma DirRemoveOk(slots: seq<Slot>, dir: map<Topic, set<nat>>, wildcard: set<nat>, i: nat, s: Slot)
    requires DirOk(slots, dir, wildcard) && i < |slots| && !s.active
    ensures DirOk(slots[i := s], DirRemove(dir, i), wildcard - {i})
  {
    var upd, dir' := slots[i := s], DirRemove(dir, i);
    assert forall j: nat, t :: Subscribes(upd, j, t) <==> Subscribes(slots, j, t) && j != i;
    forall t, j ensures Listed(dir', t, j) <==> Listed(dir, t, j) && j != i {
      if Listed(dir, t, j) && j != i { assert j in dir[t] - {i}; }
    }
  }

  // ---- subscribe ----------------------------------------------------------------------------------

  lemma InstallInv(c: Core, load: Load, i: nat, s: Slot)
    requires CoreInv(c, load) && i < |c.slots| == SLOTS && Free(c.slots[i])
    requires s.active && s.handler.Some? && 1 <= s.capacity <= MAILBOX_MAX
    requires s == c.slots[i].(active := true, topic := s.topic, handler := s.handler, policy := s.policy,
               capacity := s.capacity, sub := c.nextSub, since := |c.log|, offered := [], taken := [],
               lossless := true)
    ensures CoreInv(Install(c, i, s), load) && i !in load.flying
  {
    hide RingOk, DirOk, RefsOk, OrdersOk, OrderOk, Mail, DirAdd;
    SlotFacts(c, load, i);
    DirAddOk(c.slots, c.dir, c.wildcard, i, s);
    MailSame(c.slots, i, s);
    RingKept(c.slots, c.ring, i, s);
    NewOrder(s);
    OrdersUpdate(c.slots, i, s);
  }

  /** A slot is handed out only when nobody is using it, under its current generation. */
  lemma SubscribeInv(c: Core, load: Load, topic: Option<Topic>, handler: nat, policy: Option<Policy>, capacity: nat)
    requires CoreInv(c, load)
    ensures var (status, h, c') := Subscribe(c, topic, handler, policy, capacity);
            && CoreInv(c', load)
            && (status == Ok ==>
                  && !c.shuttingDown
                  && h.slot < |c.slots| && Free(c.slots[h.slot]) && h.slot !in load.flying
                  && h.generation == c.slots[h.slot].generation
                  && c' == Install(c, h.slot, NewSubscription(c, c.slots[h.slot], topic, handler, policy, capacity)))
            && (status != Ok ==> c' == c)
            && (status == LimitExceeded ==> forall i :: 0 <= i < SLOTS ==> !Free(c.slots[i]))
            && status in {Ok, Cancelled, LimitExceeded}
  {
    DirectoryHasRoom(c, load);
    var i := FirstFree(c.slots, 0);
    assert |c.slots| == SLOTS && 1 <= c.defaultCapacity <= MAILBOX_MAX;
    hide CoreInv, Install;
    if !c.shuttingDown && i < |c.slots| {
      InstallInv(c, load, i, NewSubscription(c, c.slots[i], topic, handler, policy, capacity));
    }
  }

  lemma NewOrder(s: Slot)
    requires s.taken == [] && s.mailbox == [] && s.offered == []
    ensures OrderOk(s)
  {
    SubsequenceRefl<EnvId>([]);
  }

  // ---- unsubscribe --------------------------------------------------------------------------------

  lemma {:induction false} ReleaseAllOk(c: Core, es: seq<EnvId>, total: multiset<EnvId>)
    requires RefsOk(c.refs, total) && multiset(es) <= total
    ensures var c' := ReleaseAll(c, es);
            && RefsOk(c'.refs, total - multiset(es))
            && c'.refs.Keys <= c.refs.Keys
            && c' == c.(refs := c'.refs)
    decreases |es|
  {
    if es != [] {
      assert es == [es[0]] + es[1..];
      assert multiset(es) == multiset{es[0]} + multiset(es[1..]);
      RefsRelease(c.refs, total, es[0]);
      ReleaseAllOk(Release(c, es[0]), es[1..], total - multiset{es[0]});
      assert total - multiset{es[0]} - multiset(es[1..]) == total - multiset(es);
    }
  }

  lemma MailCleared(slots: seq<Slot>, i: nat, s: Slot, held: multiset<EnvId>)
    requires i < |slots| && s.mailbox == []
    ensures Mail(slots[i := s]) + held == Mail(slots) + held - multiset(slots[i].mailbox)
    ensures multiset(slots[i].mailbox) <= Mail(slots) + held
    ensures |Mail(slots[i := s])| == |Mail(slots)| - |slots[i].mailbox|
  {
    MailUpdate(slots, i, s);
    MailHas(slots, i);
    var m, a := Mail(slots), multiset(slots[i].mailbox);
    assert Mail(slots[i := s]) + a == m;
    assert Mail(slots[i := s]) == m - a;
    assert m + held - a == (m - a) + held;
  }

  lemma RingRemoved(slots: seq<Slot>, ring: seq<nat>, i: nat, s: Slot)
    requires RingOk(slots, ring) && i < |slots| && !Deliverable(s)
    ensures RingOk(slots[i := s], Without(ring, i))
  {
    WithoutElements(ring, i);
    var w, upd := Without(ring, i), slots[i := s];
    forall k | 0 <= k < |w| ensures w[k] < |upd| && Deliverable(upd[w[k]]) {
      assert w[k] in w;
    }
  }

  /** Deactivation drops the queued events and takes the slot out of ring and directory. */
  lemma DeactivateInv(c: Core, load: Load, i: nat)
    requires CoreInv(c, load) && i < |c.slots| == SLOTS
    ensures CoreInv(Deactivate(c, i), load) && !Deactivate(c, i).slots[i].active
    ensures Deactivate(c, i).slots == c.slots[i := c.slots[i].(active := false, mailbox := [])]
  {
    hide CoreInv, ReleaseAll, Without, DirRemove;
    SlotFacts(c, load, i);
    var s := c.slots[i];
    if s.active {
      DeactivateActive(c, load, i);
    } else {
      assert s == s.(active := false, mailbox := []);
    }
  }

  lemma DeactivateActive(c: Core, load: Load, i: nat)
    requires CoreInv(c, load) && i < |c.slots| == SLOTS && c.slots[i].active
    ensures CoreInv(Deactivate(c, i), load)
  {
    hide SlotsOk, RingOk, DirOk, RefsOk, OrdersOk, OrderOk, SubsOk, Mail, ReleaseAll, Without, DirRemove;
    SlotFacts(c, load, i);
    var s := c.slots[i];
    var s' := s.(active := false, mailbox := []);
    SlotsDeactivated(c.slots, load.flying, load.busy, i);
    MailCleared(c.slots, i, s', load.held);
    ReleaseAllOk(c, s.mailbox, Mail(c.slots) + load.held);
    RingRemoved(c.slots, c.ring, i, s');
    DirRemoveOk(c.slots, c.dir, c.wildcard, i, s');
    OrdersUpdate(c.slots, i, s');
    SubsSame(c.slots, c.nextSub, i, s');
  }

  lemma SlotsDeactivated(slots: seq<Slot>, flying: multiset<nat>, busy: set<nat>, i: nat)
    requires SlotsOk(slots, flying, busy) && i < |slots|
    ensures SlotsOk(slots[i := slots[i].(active := false, mailbox := [])], flying, busy)
  {
  }

  lemma SubsSame(slots: seq<Slot>, nextSub: nat, i: nat, s: Slot)
    requires SubsOk(slots, nextSub) && i < |slots| && s.sub == slots[i].sub
    requires s.handler.Some? ==> slots[i].handler.Some?
    ensures SubsOk(slots[i := s], nextSub)
  {
  }

  /** Once no delivery is in flight the slot is freed and gets a new generation. */
  lemma RetireInv(c: Core, load: Load, i: nat)
    requires CoreInv(c, load) && i < |c.slots| == SLOTS && !c.slots[i].active && i !in load.flying
    ensures CoreInv(Retire(c, i), load) && Free(Retire(c, i).slots[i])
    ensures Retire(c, i).slots[i].generation != c.slots[i].generation
  {
    hide RingOk, RefsOk, OrdersOk, OrderOk, SubsOk, Mail;
    SlotFacts(c, load, i);
    var s := Retire(c, i).slots[i];
    var upd := c.slots[i := s];
    assert forall j: nat, t :: Subscribes(upd, j, t) <==> Subscribes(c.slots, j, t);
    MailSame(c.slots, i, s);
    RingKept(c.slots, c.ring, i, s);
    OrdersUpdate(c.slots, i, s);
    SubsSame(c.slots, c.nextSub, i, s);
  }

  // ---- workers ------------------------------------------------------------------------------------

  function Taking(load: Load, t: Task): Load {
    Load(load.held + multiset{t.env}, load.flying + multiset{t.slot}, load.busy + {t.slot}, load.open + 1)
  }

  function Finishing(load: Load, t: Task): Load
    requires load.open > 0
  {
    Load(load.held - multiset{t.env}, load.flying - multiset{t.slot}, load.busy - {t.slot}, load.open - 1)
  }

  /** Under the invariant no ring entry is ever discarded: the head is deliverable. */
  lemma PopHead(slots: seq<Slot>, ring: seq<nat>)
    requires RingOk(slots, ring)
    ensures ReadyPop(slots, ring) == if ring == [] then (None, []) else (Some(ring[0]), ring[1..])
  {
  }

  lemma RingTail(slots: seq<Slot>, ring: seq<nat>, s: Slot)
    requires RingOk(slots, ring) && ring != [] && !Deliverable(s)
    ensures ring[0] < |slots| && Deliverable(slots[ring[0]])
    ensures RingOk(slots[ring[0] := s], ring[1..])
  {
    var upd, tail := slots[ring[0] := s], ring[1..];
    forall i | 0 <= i < |upd| && Deliverable(upd[i]) ensures i in tail {
      assert i in ring;
    }
    forall k | 0 <= k < |tail| ensures tail[k] < |upd| && Deliverable(upd[tail[k]]) {
      assert tail[k] == ring[k + 1];
    }
  }

  lemma MailTaken(slots: seq<Slot>, i: nat, s: Slot, held: multiset<EnvId>)
    requires i < |slots| && slots[i].mailbox != [] && s.mailbox == slots[i].mailbox[1..]
    ensures Mail(slots[i := s]) + (held + multiset{slots[i].mailbox[0]}) == Mail(slots) + held
    ensures |Mail(slots[i := s])| == |Mail(slots)| - 1
  {
    var box := slots[i].mailbox;
    MailUpdate(slots, i, s);
    assert box == [box[0]] + box[1..];
    assert multiset(box) == multiset{box[0]} + multiset(box[1..]);
    var m, m', b := Mail(slots), Mail(slots[i := s]), multiset(s.mailbox);
    assert m' + multiset(box) == m + b;
    assert m' + multiset{box[0]} == (m' + multiset{box[0]} + b) - b;
    assert m == (m + b) - b;
  }

  lemma TakeFromInv(c: Core, load: Load)
    requires CoreInv(c, load) && c.ring != [] && c.ring[0] < |c.slots| == SLOTS
    requires Deliverable(c.slots[c.ring[0]])
    ensures var i := c.ring[0];
            && CoreInv(TakeFrom(c, i, c.ring[1..]), Taking(load, TaskOf(i, c.slots[i], c.slots[i].mailbox[0])))
            && SameSubscriptions(c, TakeFrom(c, i, c.ring[1..]))
            && i !in load.busy
  {
    hide RingOk, DirOk, RefsOk, OrdersOk, OrderOk, SubsOk, Mail;
    var i := c.ring[0];
    SlotFacts(c, load, i);
    var s, s' := c.slots[i], TakeFrom(c, i, c.ring[1..]).slots[i];
    DirSame(c.slots, c.dir, c.wildcard, i, s');
    MailTaken(c.slots, i, s', load.held);
    RingTail(c.slots, c.ring, s');
    OrderTaken(s, s');
    OrdersUpdate(c.slots, i, s');
    SubsSame(c.slots, c.nextSub, i, s');
  }

  /**
   A worker takes the oldest event of a slot nobody is serving. It finds nothing only when no slot is
   deliverable.
   */
  lemma TakeInv(c: Core, load: Load)
    requires CoreInv(c, load) && |c.slots| == SLOTS
    ensures var (t, c') := Take(c);
            && (t.None? ==> c' == c && c.ring == [] && forall i :: 0 <= i < SLOTS ==> !Deliverable(c.slots[i]))
            && (t.Some? ==>
                  && c.ring != [] && c.ring[0] < SLOTS
                  && var i := c.ring[0];
                  && Deliverable(c.slots[i]) && i !in load.busy
                  && t.value == TaskOf(i, c.slots[i], c.slots[i].mailbox[0])
                  && c' == TakeFrom(c, i, c.ring[1..])
                  && CoreInv(c', Taking(load, t.value))
                  && SameSubscriptions(c, c'))
  {
    PopHead(c.slots, c.ring);
    if c.ring == [] {
      assert c == c.(ring := []);
    } else {
      assert Deliverable(c.slots[c.ring[0]]);
      TakeFromInv(c, load);
    }
  }

  lemma DirSame(slots: seq<Slot>, dir: map<Topic, set<nat>>, wildcard: set<nat>, i: nat, s: Slot)
    requires DirOk(slots, dir, wildcard) && i < |slots| && s.active == slots[i].active && s.topic == slots[i].topic
    ensures DirOk(slots[i := s], dir, wildcard)
  {
    var upd := slots[i := s];
    assert forall j: nat, t :: Subscribes(upd, j, t) <==> Subscribes(slots, j, t);
  }

  lemma OrderTaken(s: Slot, s': Slot)
    requires OrderOk(s) && s.mailbox != []
    requires s'.taken == s.taken + [s.mailbox[0]] && s'.mailbox == s.mailbox[1..]
    requires s'.offered == s.offered && s'.lossless == s.lossless
    ensures OrderOk(s')
  {
    assert s'.taken + s'.mailbox == s.taken + s.mailbox;
  }

  lemma RefsDropped(refs: map<EnvId, nat>, mail: multiset<EnvId>, held: multiset<EnvId>, e: EnvId)
    requires RefsOk(refs, mail + held) && e in held
    ensures e in refs && RefsOk(ReleaseRef(refs, e), mail + (held - multiset{e}))
  {
    RefsRelease(refs, mail + held, e);
    assert mail + (held - multiset{e}) == mail + held - multiset{e};
  }

  /** A finished delivery is counted, its envelope released, and the slot re-queued if it has mail. */
  lemma FinishInv(c: Core, load: Load, t: Task)
    requires CoreInv(c, load) && load.open > 0 && t.slot < |c.slots| == SLOTS
    requires t.env in load.held && t.slot in load.busy && load.flying[t.slot] == 1
    ensures CoreInv(Finish(c, t), Finishing(load, t)) && SameSubscriptions(c, Finish(c, t))
  {
    hide RingOk, DirOk, RefsOk, OrdersOk, OrderOk, SubsOk, Mail, ReadyPush;
    var i := t.slot;
    SlotFacts(c, load, i);
    var s := c.slots[i];
    var s' := s.(busy := false, inflight := s.inflight - 1);
    var c1 := Release(c.(slots := c.slots[i := s'], metrics := c.metrics.(delivered := c.metrics.delivered + 1)), t.env);
    assert s.inflight == 1;
    RefsDropped(c.refs, Mail(c.slots), load.held, t.env);
    assert Finish(c, t) == ReadyPush(c1, i);
    DirSame(c.slots, c.dir, c.wildcard, i, s');
    MailSame(c.slots, i, s');
    OrdersUpdate(c.slots, i, s');
    SubsSame(c.slots, c.nextSub, i, s');
    RingPush(c1, c.slots, i);
    SlotsFinish(c.slots, load, t, s');
  }

  lemma SlotsFinish(slots: seq<Slot>, load: Load, t: Task, s: Slot)
    requires SlotsOk(slots, load.flying, load.busy) && load.open > 0 && t.slot < SLOTS
    requires t.slot in load.busy && load.flying[t.slot] == 1
    requires s == slots[t.slot].(busy := false, inflight := slots[t.slot].inflight - 1)
    ensures SlotsOk(slots[t.slot := s], Finishing(load, t).flying, Finishing(load, t).busy)
  {
  }

  // ---- synchronous publish ------------------------------------------------------------------------

  function TaskSlots(ts: seq<Task>): multiset<nat> {
    if ts == [] then multiset{} else multiset{ts[0].slot} + TaskSlots(ts[1..])
  }

  lemma {:induction false} SnapshotSlots(slots: seq<Slot>, e: EnvId, subs: set<nat>, i: nat)
    requires i <= |slots|
    ensures var ts := Snapshot(slots, e, subs, i);
            && (forall j: nat :: TaskSlots(ts)[j] ==
                  if i <= j < |slots| && j in subs && slots[j].active then 1 else 0)
            && (forall k :: 0 <= k < |ts| ==>
                  && ts[k].slot < |slots| && slots[ts[k].slot].active && ts[k].slot in subs
                  && ts[k].generation == slots[ts[k].slot].generation
                  && ts[k].handler == slots[ts[k].slot].handler
                  && ts[k].sub == slots[ts[k].slot].sub && ts[k].env == e)
    decreases |slots| - i
  {
    if i < |slots| {
      SnapshotSlots(slots, e, subs, i + 1);
      var ts, rest := Snapshot(slots, e, subs, i), Snapshot(slots, e, subs, i + 1);
      if i in subs && slots[i].active { assert ts[1..] == rest; }
    }
  }

  lemma {:induction false} MailPinned(slots: seq<Slot>, subs: set<nat>, k: nat)
    requires k <= |slots|
    ensures Mail(Pin(slots, subs)[k..]) == Mail(slots[k..])
    decreases |slots| - k
  {
    if k < |slots| {
      MailPinned(slots, subs, k + 1);
      assert slots[k..][1..] == slots[k + 1..];
      assert Pin(slots, subs)[k..][1..] == Pin(slots, subs)[k + 1..];
    }
  }

  lemma SlotsPinned(slots: seq<Slot>, flying: multiset<nat>, busy: set<nat>, e: EnvId, subs: set<nat>)
    requires SlotsOk(slots, flying, busy)
    ensures SlotsOk(Pin(slots, subs), flying + TaskSlots(Snapshot(slots, e, subs, 0)), busy)
  {
    SnapshotSlots(slots, e, subs, 0);
  }

  lemma DirPinned(slots: seq<Slot>, subs: set<nat>, dir: map<Topic, set<nat>>, wildcard: set<nat>)
    requires DirOk(slots, dir, wildcard)
    ensures DirOk(Pin(slots, subs), dir, wildcard)
  {
    var p := Pin(slots, subs);
    assert forall j: nat, t :: Subscribes(p, j, t) <==> Subscribes(slots, j, t);
  }

  lemma PinFrame(slots: seq<Slot>, subs: set<nat>, ring: seq<nat>, nextSub: nat)
    requires RingOk(slots, ring) && OrdersOk(slots) && SubsOk(slots, nextSub)
    ensures RingOk(Pin(slots, subs), ring) && OrdersOk(Pin(slots, subs)) && SubsOk(Pin(slots, subs), nextSub)
    ensures Mail(Pin(slots, subs)) == Mail(slots)
  {
    var p := Pin(slots, subs);
    forall i | 0 <= i < |p| && p[i].active ensures OrderOk(p[i]) {
      assert OrderOk(slots[i]);
    }
    MailPinned(slots, subs, 0);
    assert slots[0..] == slots && p[0..] == p;
  }

  lemma SnapshotIdentity(c: Core, e: EnvId, subs: set<nat>)
    ensures SameSubscriptions(c, TakeSnapshot(c, e, subs).1)
  {
    hide Snapshot;
  }

  /** The snapshot pins every slot it will call, so that unsubscribe waits for it. */
  lemma SnapshotInv(c: Core, load: Load, e: EnvId, subs: set<nat>)
    requires CoreInv(c, load)
    ensures var (ts, c') := TakeSnapshot(c, e, subs);
            && CoreInv(c', load.(flying := load.flying + TaskSlots(ts), open := load.open + |ts|))
            && SameSubscriptions(c, c')
  {
    hide SlotsOk, RingOk, DirOk, RefsOk, OrdersOk, OrderOk, SubsOk, Mail, Pin, Snapshot, SameSubscriptions;
    SnapshotIdentity(c, e, subs);
    SlotsPinned(c.slots, load.flying, load.busy, e, subs);
    DirPinned(c.slots, subs, c.dir, c.wildcard);
    PinFrame(c.slots, subs, c.ring, c.nextSub);
  }

  lemma SyncDeliveredInv(c: Core, load: Load, t: Task)
    requires CoreInv(c, load) && load.open > 0 && t.slot < |c.slots| == SLOTS && load.busy == {}
    requires t.slot in load.flying && c.slots[t.slot].generation == t.generation
    ensures CoreInv(SyncDelivered(c, t), load.(flying := load.flying - multiset{t.slot}, open := load.open - 1))
    ensures SameSubscriptions(c, SyncDelivered(c, t))
  {
    hide RingOk, DirOk, RefsOk, OrdersOk, OrderOk, SubsOk, Mail;
    var i := t.slot;
    SlotFacts(c, load, i);
    var s' := SyncDelivered(c, t).slots[i];
    DirSame(c.slots, c.dir, c.wildcard, i, s');
    MailSame(c.slots, i, s');
    OrdersUpdate(c.slots, i, s');
    SubsSame(c.slots, c.nextSub, i, s');
    RingKept(c.slots, c.ring, i, s');
  }
}
