/**
 The state that the event bus mutex protects, and one function per critical section.

 Envelopes are identified by their position in `log`, the list of every event ever published, so
 that identity is never reused; `refs` is the set of live envelopes with their reference counts.
 Mailboxes and the ready ring are the sequences that the circular buffers represent, and the topic
 directory is the finite map that the probed hash table represents (EventBus.dfy proves both).

 The fields `sub`, `since`, `offered`, `taken` and `lossless` of a slot, `log`, and the counters
 `discarded`, `refused` and `faults` are history: no branch reads them. `faults` counts how often a
 defensive guard of the implementation (a full ready ring, a release of a dead envelope, a decrement
 below zero) would have been taken.
 */
module EventBusCore {
  import opened Common

  const SLOTS: nat := 64
  const TOPIC_CAPACITY: nat := 128
  const MAILBOX_MAX: nat := 16
  const DEFAULT_MAILBOX_CAPACITY: nat := 16

  type Topic = string
  type EnvId = nat
  datatype Event = Event(topic: Topic, payload: string)
  datatype Mode = Sync | Async
  datatype Policy = DropNewest | DropOldest | CoalesceLatest | BlockWithTimeout
  datatype Handle = Handle(slot: nat, generation: nat)

  datatype Slot = Slot(
    active: bool,
    generation: nat,
    topic: Option<Topic>,
    handler: Option<nat>,
    policy: Policy,
    capacity: nat,
    mailbox: seq<EnvId>,
    inflight: nat,
    busy: bool,
    sub: nat,
    since: nat,
    offered: seq<EnvId>,
    taken: seq<EnvId>,
    lossless: bool)

  datatype Metrics = Metrics(
    published: nat,
    matched: nat,
    delivered: nat,
    droppedNewest: nat,
    droppedOldest: nat,
    coalesced: nat,
    discarded: nat,
    refused: nat)

  datatype Core = Core(
    mode: Mode,
    defaultCapacity: nat,
    slots: seq<Slot>,
    dir: map<Topic, set<nat>>,
    wildcard: set<nat>,
    ring: seq<nat>,
    refs: map<EnvId, nat>,
    log: seq<Event>,
    shuttingDown: bool,
    metrics: Metrics,
    nextSub: nat,
    faults: nat)

  /** A delivery that a worker or a synchronous publisher is carrying out, or is about to. */
  datatype Task = Task(slot: nat, generation: nat, handler: Option<nat>, sub: nat, env: EnvId)

  datatype PublishResult =
    | Done(status: Status)
    | Blocked(slot: nat, generation: nat, sub: nat, status: Status)

  function NormalizedCapacity(value: nat): nat {
    var v := if value == 0 then DEFAULT_MAILBOX_CAPACITY else value;
    if v > MAILBOX_MAX then MAILBOX_MAX else v
  }

  /** The 16-bit generation counter skips zero when it wraps. */
  function NextGeneration(g: nat): nat {
    var n := (g + 1) % 0x1_0000;
    if n == 0 then 1 else n
  }

  const FRESH_SLOT: Slot :=
    Slot(false, 1, None, None, DropNewest, 0, [], 0, false, 0, 0, [], [], true)

  function InitCore(mode: Mode, capacity: nat): Core {
    Core(mode, NormalizedCapacity(capacity), seq(SLOTS, i => FRESH_SLOT), map[], {}, [], map[], [],
         false, Metrics(0, 0, 0, 0, 0, 0, 0, 0), 0, 0)
  }

  // ---- envelopes -------------------------------------------------------------------------------

  function RetainRef(refs: map<EnvId, nat>, e: EnvId): (r: map<EnvId, nat>)
    ensures r.Keys == refs.Keys
  {
    if e in refs then refs[e := refs[e] + 1] else refs
  }

  function ReleaseRef(refs: map<EnvId, nat>, e: EnvId): (r: map<EnvId, nat>)
    ensures r.Keys <= refs.Keys
  {
    if e in refs then
      if refs[e] <= 1 then refs - {e} else refs[e := refs[e] - 1]
    else
      refs
  }

  function Retain(c: Core, e: EnvId): Core {
    c.(refs := RetainRef(c.refs, e), faults := if e in c.refs then c.faults else c.faults + 1)
  }

  function Release(c: Core, e: EnvId): Core {
    c.(refs := ReleaseRef(c.refs, e), faults := if e in c.refs then c.faults else c.faults + 1)
  }

  function ReleaseAll(c: Core, es: seq<EnvId>): Core
    decreases |es|
  {
    if es == [] then c else ReleaseAll(Release(c, es[0]), es[1..])
  }

  // ---- ready ring ------------------------------------------------------------------------------

  predicate Deliverable(s: Slot) {
    s.active && !s.busy && s.mailbox != []
  }

  function ReadyPush(c: Core, i: nat): (r: Core)
    requires i < |c.slots|
    ensures r == c.(ring := r.ring, faults := r.faults)
  {
    if i in c.ring || !Deliverable(c.slots[i]) then c
    else if |c.ring| >= SLOTS then c.(faults := c.faults + 1)
    else c.(ring := c.ring + [i])
  }

  function Without(ring: seq<nat>, i: nat): seq<nat> {
    if ring == [] then []
    else if ring[0] == i then Without(ring[1..], i)
    else [ring[0]] + Without(ring[1..], i)
  }

  /** Entries that are no longer deliverable are discarded until a deliverable one is found. */
  function ReadyPop(slots: seq<Slot>, ring: seq<nat>): (r: (Option<nat>, seq<nat>))
    ensures r.0.Some? ==> r.0.value < |slots| && Deliverable(slots[r.0.value])
  {
    if ring == [] then (None, [])
    else if ring[0] < |slots| && Deliverable(slots[ring[0]]) then (Some(ring[0]), ring[1..])
    else ReadyPop(slots, ring[1..])
  }

  // ---- mailboxes -------------------------------------------------------------------------------

  predicate Full(s: Slot) {
    |s.mailbox| >= s.capacity
  }

  predicate Blocks(s: Slot) {
    Full(s) && s.policy == BlockWithTimeout
  }

  function Offered(s: Slot, e: EnvId): Slot {
    s.(offered := s.offered + [e])
  }

  /** The k-th queued envelope makes room for e, which is queued last. */
  function Replaced(box: seq<EnvId>, k: nat, e: EnvId): seq<EnvId>
    requires k < |box|
  {
    box[..k] + box[k + 1..] + [e]
  }

  function SkipNewest(c: Core, i: nat, e: EnvId): Core
    requires i < |c.slots|
  {
    c.(slots := c.slots[i := Offered(c.slots[i], e).(lossless := false)],
       metrics := c.metrics.(droppedNewest := c.metrics.droppedNewest + 1))
  }

  function ReplaceLatest(c: Core, i: nat, e: EnvId): Core
    requires i < |c.slots| && c.slots[i].mailbox != []
  {
    var s := c.slots[i];
    var last := |s.mailbox| - 1;
    Retain(Release(c, s.mailbox[last]), e).(
      slots := c.slots[i := Offered(s, e).(mailbox := Replaced(s.mailbox, last, e), lossless := false)],
      metrics := c.metrics.(coalesced := c.metrics.coalesced + 1))
  }

  function ReplaceOldest(c: Core, i: nat, e: EnvId): Core
    requires i < |c.slots| && c.slots[i].mailbox != []
  {
    var s := c.slots[i];
    Retain(Release(c, s.mailbox[0]), e).(
      slots := c.slots[i := Offered(s, e).(mailbox := Replaced(s.mailbox, 0, e), lossless := false)],
      metrics := c.metrics.(droppedOldest := c.metrics.droppedOldest + 1))
  }

  function Enqueue(c: Core, i: nat, e: EnvId): Core
    requires i < |c.slots|
  {
    var s := c.slots[i];
    Retain(c, e).(slots := c.slots[i := Offered(s, e).(mailbox := s.mailbox + [e])])
  }

  /** Queue an envelope on a slot that does not block: the part of enqueue after the wait loop. */
  function Accept(c: Core, i: nat, e: EnvId): Core
    requires i < |c.slots|
  {
    var s := c.slots[i];
    if Full(s) && s.policy == DropNewest then SkipNewest(c, i, e)
    else if Full(s) && s.policy == CoalesceLatest && s.mailbox != [] then ReplaceLatest(c, i, e)
    else if Full(s) && s.policy == DropOldest && s.mailbox != [] then ReadyPush(ReplaceOldest(c, i, e), i)
    else ReadyPush(Enqueue(c, i, e), i)
  }

  /** A wait on a full mailbox that ended with an error: the event is not queued. */
  function Refuse(c: Core, i: nat, sub: nat, e: EnvId): Core
    requires i < |c.slots|
  {
    var s := c.slots[i];
    c.(slots := if s.sub == sub then c.slots[i := Offered(s, e).(lossless := false)]
                else c.slots,
       metrics := c.metrics.(refused := c.metrics.refused + 1))
  }

  // ---- subscribe and unsubscribe ---------------------------------------------------------------

  predicate Free(s: Slot) {
    !s.active && s.inflight == 0 && s.handler == None && s.topic == None
  }

  function FirstFree(slots: seq<Slot>, i: nat): (k: nat)
    requires i <= |slots|
    ensures i <= k <= |slots|
    ensures k < |slots| ==> Free(slots[k])
    ensures forall j :: i <= j < k ==> !Free(slots[j])
    decreases |slots| - i
  {
    if i == |slots| || Free(slots[i]) then i else FirstFree(slots, i + 1)
  }

  function DirAdd(dir: map<Topic, set<nat>>, t: Topic, i: nat): map<Topic, set<nat>> {
    dir[t := (if t in dir then dir[t] else {}) + {i}]
  }

  function DirRemove(dir: map<Topic, set<nat>>, i: nat): map<Topic, set<nat>> {
    map t | t in dir && dir[t] - {i} != {} :: dir[t] - {i}
  }

  function Matching(c: Core, t: Topic): set<nat> {
    c.wildcard + if t in c.dir then c.dir[t] else {}
  }

  function NewSubscription(c: Core, s: Slot, topic: Option<Topic>, handler: nat, policy: Option<Policy>,
                           capacity: nat): Slot
  {
    s.(active := true, topic := topic, handler := Some(handler),
       policy := if policy.Some? then policy.value else BlockWithTimeout,
       capacity := NormalizedCapacity(if capacity != 0 then capacity else c.defaultCapacity),
       sub := c.nextSub, since := |c.log|, offered := [], taken := [], lossless := true)
  }

  function Install(c: Core, i: nat, s: Slot): Core
    requires i < |c.slots|
  {
    c.(slots := c.slots[i := s],
       dir := if s.topic.Some? then DirAdd(c.dir, s.topic.value, i) else c.dir,
       wildcard := if s.topic.Some? then c.wildcard else c.wildcard + {i},
       nextSub := c.nextSub + 1)
  }

  function Subscribe(c: Core, topic: Option<Topic>, handler: nat, policy: Option<Policy>, capacity: nat)
    : (Status, Handle, Core)
  {
    var i := FirstFree(c.slots, 0);
    if c.shuttingDown then (Cancelled, Handle(0, 0), c)
    else if i == |c.slots| then (LimitExceeded, Handle(0, 0), c)
    else if topic.Some? && topic.value !in c.dir && |c.dir| >= TOPIC_CAPACITY then
      (LimitExceeded, Handle(0, 0), c)
    else
      (Ok, Handle(i, c.slots[i].generation),
       Install(c, i, NewSubscription(c, c.slots[i], topic, handler, policy, capacity)))
  }

  /** The first half of unsubscribe: stop new deliveries and drop the queued ones. */
  function Deactivate(c: Core, i: nat): Core
    requires i < |c.slots|
  {
    var s := c.slots[i];
    if !s.active then c
    else
      ReleaseAll(c, s.mailbox).(
        slots := c.slots[i := s.(active := false, mailbox := [])],
        dir := DirRemove(c.dir, i),
        wildcard := c.wildcard - {i},
        ring := Without(c.ring, i),
        metrics := c.metrics.(discarded := c.metrics.discarded + |s.mailbox|))
  }

  /** The second half: the slot is handed back and its handles become stale. */
  function Retire(c: Core, i: nat): Core
    requires i < |c.slots|
  {
    var s := c.slots[i];
    c.(slots := c.slots[i := s.(topic := None, handler := None, generation := NextGeneration(s.generation))])
  }

  // ---- asynchronous publish --------------------------------------------------------------------

  /** Create the envelope; the publisher holds one reference. */
  function Announce(c: Core, ev: Event): Core {
    c.(log := c.log + [ev],
       refs := c.refs[|c.log| := 1],
       metrics := c.metrics.(published := c.metrics.published + 1))
  }

  /** The publish loop from slot i on. It stops early when a full mailbox makes the publisher wait. */
  function PublishFrom(c: Core, e: EnvId, subs: set<nat>, i: nat, err: Status): (r: (Core, PublishResult))
    requires |c.slots| == SLOTS && i <= SLOTS
    ensures |r.0.slots| == SLOTS
    decreases SLOTS - i
  {
    if i == SLOTS then (Release(c, e), Done(err))
    else if i !in subs || !c.slots[i].active then PublishFrom(c, e, subs, i + 1, err)
    else
      var s := c.slots[i];
      var c1 := c.(metrics := c.metrics.(matched := c.metrics.matched + 1));
      if Blocks(s) then (c1, Blocked(i, s.generation, s.sub, err))
      else PublishFrom(Accept(c1, i, e), e, subs, i + 1, err)
  }

  function FirstError(err: Status, status: Status): Status {
    if err == Ok then status else err
  }

  /** A waiting publisher wakes up: it gives up, waits again, or continues with the next slots. */
  function Resume(c: Core, e: EnvId, subs: set<nat>, at: PublishResult, timedOut: bool)
    : (r: (Core, PublishResult))
    requires |c.slots| == SLOTS && at.Blocked? && at.slot < SLOTS
    ensures |r.0.slots| == SLOTS
  {
    var i := at.slot;
    var s := c.slots[i];
    if timedOut then
      PublishFrom(Refuse(c, i, at.sub, e), e, subs, i + 1, FirstError(at.status, Timeout))
    else if c.shuttingDown then
      PublishFrom(Refuse(c, i, at.sub, e), e, subs, i + 1, FirstError(at.status, Cancelled))
    else if s.active && s.generation == at.generation && Blocks(s) then
      (c, at)
    else if !s.active || s.generation != at.generation then
      PublishFrom(Refuse(c, i, at.sub, e), e, subs, i + 1, FirstError(at.status, Cancelled))
    else
      PublishFrom(Accept(c, i, e), e, subs, i + 1, at.status)
  }

  // ---- workers ---------------------------------------------------------------------------------

  function TaskOf(i: nat, s: Slot, e: EnvId): Task {
    Task(i, s.generation, s.handler, s.sub, e)
  }

  function TakeFrom(c: Core, i: nat, ring: seq<nat>): Core
    requires i < |c.slots| && c.slots[i].mailbox != []
  {
    var s := c.slots[i];
    c.(ring := ring,
       slots := c.slots[i := s.(mailbox := s.mailbox[1..], busy := true, inflight := s.inflight + 1,
                                taken := s.taken + [s.mailbox[0]])])
  }

  function Take(c: Core): (Option<Task>, Core) {
    var (who, ring) := ReadyPop(c.slots, c.ring);
    if who.None? then (None, c.(ring := ring))
    else
      var i := who.value;
      (Some(TaskOf(i, c.slots[i], c.slots[i].mailbox[0])), TakeFrom(c, i, ring))
  }

  function Finish(c: Core, t: Task): Core
    requires t.slot < |c.slots|
  {
    var s := c.slots[t.slot];
    var c1 := c.(
      slots := c.slots[t.slot := s.(busy := false, inflight := if s.inflight > 0 then s.inflight - 1 else 0)],
      faults := if s.inflight > 0 then c.faults else c.faults + 1,
      metrics := c.metrics.(delivered := c.metrics.delivered + 1));
    ReadyPush(Release(c1, t.env), t.slot)
  }

  // ---- synchronous publish ---------------------------------------------------------------------

  /** The deliveries that a synchronous publish of e to the slots in subs has to make, from slot i on. */
  function Snapshot(slots: seq<Slot>, e: EnvId, subs: set<nat>, i: nat): seq<Task>
    requires i <= |slots|
    decreases |slots| - i
  {
    if i == |slots| then []
    else if i !in subs || !slots[i].active then Snapshot(slots, e, subs, i + 1)
    else [TaskOf(i, slots[i], e)] + Snapshot(slots, e, subs, i + 1)
  }

  function Pin(slots: seq<Slot>, subs: set<nat>): seq<Slot> {
    seq(|slots|, i requires 0 <= i < |slots| =>
      if i in subs && slots[i].active then slots[i].(inflight := slots[i].inflight + 1) else slots[i])
  }

  function TakeSnapshot(c: Core, e: EnvId, subs: set<nat>): (seq<Task>, Core) {
    var tasks := Snapshot(c.slots, e, subs, 0);
    (tasks, c.(slots := Pin(c.slots, subs),
               metrics := c.metrics.(matched := c.metrics.matched + |tasks|)))
  }

  function SyncDelivered(c: Core, t: Task): Core
    requires t.slot < |c.slots|
  {
    var s := c.slots[t.slot];
    var mine := s.generation == t.generation && s.inflight > 0;
    c.(slots := if mine then c.slots[t.slot := s.(inflight := s.inflight - 1)] else c.slots,
       faults := if mine then c.faults else c.faults + 1,
       metrics := c.metrics.(delivered := c.metrics.delivered + 1))
  }
}
