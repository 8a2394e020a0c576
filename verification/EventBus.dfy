/**
 The event bus as it is stored: slot records with circular mailboxes, a probed topic table, and a
 circular ready ring with one membership flag per slot. Each method is one critical section, or a part
 of one, and is proved to do to the abstract state exactly what the function of EventBusCore says.
 */
module EventBus {
  import opened Common
  import opened CircularBuffer
  import Bus = EventBusCore
  import opened EventBusCore
  import opened TopicTable

  /** What a record remembers for specifications only; no branch reads it. */
  datatype History = History(sub: nat, since: nat, offered: seq<EnvId>, taken: seq<EnvId>, lossless: bool)

  datatype Record = Record(
    active: bool,
    generation: nat,
    topic: Option<Topic>,
    handler: Option<nat>,
    policy: Policy,
    capacity: nat,
    cells: seq<EnvId>,
    head: nat,
    count: nat,
    inflight: nat,
    ready: bool,
    busy: bool,
    past: History)

  predicate RecordOk(r: Record) {
    && |r.cells| == MAILBOX_MAX && r.head < MAILBOX_MAX && r.count <= MAILBOX_MAX
    && r.capacity <= MAILBOX_MAX
    && (r.active ==> 1 <= r.capacity)
  }

  function Mailbox(r: Record): seq<EnvId>
    requires RecordOk(r)
  {
    Window(r.cells, r.head, r.count)
  }

  function SlotOf(r: Record): Slot
    requires RecordOk(r)
  {
    Slot(r.active, r.generation, r.topic, r.handler, r.policy, r.capacity, Mailbox(r), r.inflight, r.busy,
         r.past.sub, r.past.since, r.past.offered, r.past.taken, r.past.lossless)
  }

  predicate RecordsOk(rs: seq<Record>) {
    |rs| == SLOTS && forall i :: 0 <= i < |rs| ==> RecordOk(rs[i])
  }

  function SlotsOf(rs: seq<Record>): (r: seq<Slot>)
    requires RecordsOk(rs)
    ensures |r| == SLOTS
  {
    seq(|rs|, i requires 0 <= i < |rs| => SlotOf(rs[i]))
  }

  lemma SlotsUpdate(rs: seq<Record>, i: nat, r: Record)
    requires RecordsOk(rs) && i < |rs| && RecordOk(r)
    ensures RecordsOk(rs[i := r])
    ensures SlotsOf(rs[i := r]) == SlotsOf(rs)[i := SlotOf(r)]
  {
  }

  lemma SlotsAt(rs: seq<Record>, i: nat)
    requires RecordsOk(rs) && i < |rs|
    ensures RecordOk(rs[i]) && SlotsOf(rs)[i] == SlotOf(rs[i])
  {
  }

  lemma MailboxEmpty(r: Record)
    requires RecordOk(r)
    ensures Mailbox(r) == [] <==> r.count == 0
  {
  }

  /** The ready flag is not part of the abstract slot. */
  lemma FlagChange(rs: seq<Record>, i: nat, ready: bool)
    requires RecordsOk(rs) && i < |rs|
    ensures RecordsOk(rs[i := rs[i].(ready := ready)])
    ensures SlotsOf(rs[i := rs[i].(ready := ready)]) == SlotsOf(rs)
  {
    assert SlotOf(rs[i].(ready := ready)) == SlotOf(rs[i]);
  }

  /** The ring lists, without repetition, the slots whose flag is set. */
  ghost predicate FlagsOk(rs: seq<Record>, ring: seq<nat>) {
    && Distinct(ring)
    && (forall i :: i in ring ==> i < |rs| && rs[i].ready)
    && (forall i :: 0 <= i < |rs| && rs[i].ready ==> i in ring)
  }

  lemma FlagsListed(rs: seq<Record>, ring: seq<nat>, i: nat)
    requires FlagsOk(rs, ring) && i < |rs|
    ensures rs[i].ready <==> i in ring
  {
  }

  lemma FlagsPush(rs: seq<Record>, ring: seq<nat>, i: nat)
    requires FlagsOk(rs, ring) && i < |rs| && !rs[i].ready
    ensures FlagsOk(rs[i := rs[i].(ready := true)], ring + [i])
  {
  }

  const FRESH_RECORD: Record :=
    Record(false, 1, None, None, DropNewest, 0, seq(MAILBOX_MAX, i => 0), 0, 0, 0, false, false,
           History(0, 0, [], [], true))

  class EventBus {
    const mode: Mode
    const defaultCapacity: nat
    const records: array<Record>
    const topics: TopicTable
    var wildcard: set<nat>
    const readyRing: array<nat>
    var readyHead: nat
    var readyCount: nat
    var envelopes: map<EnvId, nat>
    var log: seq<Event>
    var shuttingDown: bool
    var metrics: Metrics
    var nextSub: nat
    var faults: nat

    ghost predicate Valid()
      reads this, records, readyRing, topics, topics.entries
    {
      && RecordsOk(records[..])
      && readyRing.Length == SLOTS && readyHead < SLOTS && readyCount <= SLOTS
      && FlagsOk(records[..], Ring())
      && topics.Valid()
      && 1 <= defaultCapacity <= MAILBOX_MAX
    }

    ghost function Ring(): seq<nat>
      requires readyHead < readyRing.Length && readyCount <= readyRing.Length
      reads this, readyRing
    {
      Window(readyRing[..], readyHead, readyCount)
    }

    /** The state of EventBusCore that the fields represent. */
    ghost function Abs(): Core
      requires RecordsOk(records[..]) && readyHead < readyRing.Length && readyCount <= readyRing.Length
      reads this, records, readyRing, topics, topics.entries
    {
      Core(mode, defaultCapacity, SlotsOf(records[..]), topics.Map(), wildcard, Ring(), envelopes, log,
           shuttingDown, metrics, nextSub, faults)
    }

    constructor (mode: Mode, capacity: nat, hash: Topic -> nat)
      ensures Valid() && Abs() == InitCore(mode, capacity)
      ensures fresh(records) && fresh(readyRing) && fresh(topics) && fresh(topics.entries)
    {
      this.mode := mode;
      this.defaultCapacity := NormalizedCapacity(capacity);
      this.records := new Record[SLOTS](i => FRESH_RECORD);
      this.readyRing := new nat[SLOTS](i => 0);
      var table := new TopicTable(hash);
      this.topics := table;
      this.wildcard, this.readyHead, this.readyCount := {}, 0, 0;
      this.envelopes, this.log, this.shuttingDown := map[], [], false;
      this.metrics, this.nextSub, this.faults := Metrics(0, 0, 0, 0, 0, 0, 0, 0), 0, 0;
      new;
      assert Ring() == [];
      assert SlotOf(FRESH_RECORD) == FRESH_SLOT;
      assert SlotsOf(records[..]) == seq(SLOTS, i => FRESH_SLOT);
    }

    // ---- envelopes -------------------------------------------------------------------------------

    method EnvelopeRelease(e: EnvId)
      requires Valid()
      modifies `envelopes, `faults
      ensures Valid() && Abs() == Release(old(Abs()), e)
    {
      if e in envelopes {
        if envelopes[e] <= 1 {
          envelopes := envelopes - {e};
        } else {
          envelopes := envelopes[e := envelopes[e] - 1];
        }
      } else {
        faults := faults + 1;
      }
    }

    method EnvelopeRetain(e: EnvId)
      requires Valid()
      modifies `envelopes, `faults
      ensures Valid() && Abs() == Retain(old(Abs()), e)
    {
      if e in envelopes {
        envelopes := envelopes[e := envelopes[e] + 1];
      } else {
        faults := faults + 1;
      }
    }

    // ---- slot records ----------------------------------------------------------------------------

    /** Overwrite one record without touching its ready flag. */
    method SetRecord(i: nat, r: Record)
      requires Valid() && i < SLOTS && RecordOk(r) && r.ready == records[i].ready
      modifies records
      ensures Valid() && Abs() == old(Abs()).(slots := old(Abs()).slots[i := SlotOf(r)])
      ensures records[..] == old(records[..])[i := r]
    {
      SlotsUpdate(records[..], i, r);
      ghost var rs := records[..];
      records[i] := r;
      assert records[..] == rs[i := r];
    }

    method MailboxPush(i: nat, e: EnvId)
      requires Valid() && i < SLOTS && records[i].count < MAILBOX_MAX
      modifies records, `envelopes, `faults
      ensures Valid()
      ensures Abs() == Retain(old(Abs()), e).(slots := old(Abs()).slots[i :=
                old(Abs()).slots[i].(mailbox := old(Abs()).slots[i].mailbox + [e])])
      ensures records[i].past == old(records[i].past)
    {
      var r := records[i];
      var tail := (r.head + r.count) % MAILBOX_MAX;
      WindowPush(r.cells, r.head, r.count, e);
      SetRecord(i, r.(cells := r.cells[tail := e], count := r.count + 1));
      EnvelopeRetain(e);
    }

    method MailboxPop(i: nat) returns (e: EnvId)
      requires Valid() && i < SLOTS && records[i].count > 0
      modifies records
      ensures Valid() && old(Abs()).slots[i].mailbox != [] && e == old(Abs()).slots[i].mailbox[0]
      ensures Abs() == old(Abs()).(slots := old(Abs()).slots[i :=
                old(Abs()).slots[i].(mailbox := old(Abs()).slots[i].mailbox[1..])])
      ensures records[i] == old(records[i]).(head := records[i].head, count := old(records[i]).count - 1)
    {
      var r := records[i];
      e := r.cells[r.head];
      WindowPop(r.cells, r.head, r.count);
      SetRecord(i, r.(head := (r.head + 1) % MAILBOX_MAX, count := r.count - 1));
    }

    // ---- ready ring ------------------------------------------------------------------------------

    method ReadyPush(i: nat)
      requires Valid() && i < SLOTS
      modifies records, readyRing, `readyCount, `faults
      ensures Valid() && Abs() == Bus.ReadyPush(old(Abs()), i)
    {
      hide FlagsOk, Window, SlotsOf;
      var r := records[i];
      SlotsAt(records[..], i);
      FlagsListed(records[..], Ring(), i);
      MailboxEmpty(r);
      if r.ready || r.busy || !r.active || r.count == 0 { return; }
      if readyCount >= SLOTS {
        faults := faults + 1;
        return;
      }
      var tail := (readyHead + readyCount) % SLOTS;
      WindowPush(readyRing[..], readyHead, readyCount, i);
      FlagChange(records[..], i, true);
      FlagsPush(records[..], Ring(), i);
      ghost var cells, rs := readyRing[..], records[..];
      readyRing[tail] := i;
      readyCount := readyCount + 1;
      records[i] := r.(ready := true);
      assert readyRing[..] == cells[tail := i];
      assert records[..] == rs[i := r.(ready := true)];
    }

    /** Take the entry at the head of a nonempty ring and clear its flag. */
    method ReadyShift() returns (i: nat)
      requires Valid() && readyCount > 0
      modifies records, `readyHead, `readyCount
      ensures Valid() && i < SLOTS && old(Abs()).ring != [] && i == old(Abs()).ring[0]
      ensures Abs() == old(Abs()).(ring := old(Abs()).ring[1..]) && readyCount == old(readyCount) - 1
    {
      ghost var ring, rs := Ring(), records[..];
      WindowPop(readyRing[..], readyHead, readyCount);
      i := readyRing[readyHead];
      assert i == ring[0] && i in ring;
      readyHead := (readyHead + 1) % SLOTS;
      readyCount := readyCount - 1;
      FlagChange(rs, i, false);
      records[i] := records[i].(ready := false);
      assert records[..] == rs[i := rs[i].(ready := false)];
      TailFlags(rs, ring);
    }

    method ReadyPop() returns (who: Option<nat>)
      requires Valid()
      modifies records, `readyHead, `readyCount
      ensures Valid() && (who, Ring()) == Bus.ReadyPop(old(Abs()).slots, old(Abs()).ring)
      ensures Abs() == old(Abs()).(ring := Ring())
    {
      while readyCount > 0
        invariant Valid() && Abs() == old(Abs()).(ring := Ring())
        invariant Bus.ReadyPop(old(Abs()).slots, Ring()) == Bus.ReadyPop(old(Abs()).slots, old(Abs()).ring)
        decreases readyCount
      {
        var i := ReadyShift();
        if records[i].active && !records[i].busy && records[i].count > 0 {
          return Some(i);
        }
      }
      assert Ring() == [];
      who := None;
    }

    /** Fill the ring from a scratch buffer. */
    method Refill(kept: seq<nat>)
      requires |kept| <= SLOTS == readyRing.Length
      modifies readyRing, `readyHead, `readyCount
      ensures readyHead < SLOTS && readyCount <= SLOTS && Ring() == kept
    {
      readyHead := 0;
      var k := 0;
      while k < |kept|
        invariant k <= |kept| && readyRing[..k] == kept[..k] && readyHead == 0
      {
        readyRing[k] := kept[k];
        k := k + 1;
      }
      readyCount := |kept|;
      WindowPrefix(readyRing[..], kept);
    }

    /** Empty the ring into a scratch buffer, leaving a slot out. */
    method Drain(i: nat) returns (kept: seq<nat>)
      requires readyRing.Length == SLOTS && readyHead < SLOTS && readyCount <= SLOTS
      modifies `readyHead, `readyCount
      ensures kept == Without(old(Ring()), i) && |kept| <= SLOTS
    {
      hide Window, Without;
      kept := [];
      WithoutFront(Ring(), i);
      while readyCount > 0
        invariant readyHead < SLOTS && readyCount <= SLOTS && |kept| + readyCount <= SLOTS
        invariant kept + Without(Ring(), i) == Without(old(Ring()), i)
        decreases readyCount
      {
        WindowPop(readyRing[..], readyHead, readyCount);
        WithoutFront(Ring(), i);
        var index := readyRing[readyHead];
        readyHead := (readyHead + 1) % SLOTS;
        readyCount := readyCount - 1;
        if index != i { kept := kept + [index]; }
      }
      WithoutFront(Ring(), i);
    }

    /** Rebuild the ring without a slot, through a scratch buffer. */
    method ReadyRemoveSlot(i: nat)
      requires Valid() && i < SLOTS
      modifies records, readyRing, `readyHead, `readyCount
      ensures Valid() && Abs() == old(Abs()).(ring := Without(old(Abs()).ring, i))
    {
      hide SlotsOf, FlagsOk, Window, Without;
      ghost var ring, rs := Ring(), records[..];
      var kept := Drain(i);
      Refill(kept);
      FlagChange(rs, i, false);
      records[i] := records[i].(ready := false);
      assert records[..] == rs[i := rs[i].(ready := false)];
      WithoutFlags(rs, ring, i);
    }

    // ---- publishing ------------------------------------------------------------------------------

    /** Put e in the cell of the latest envelope, which is returned. */
    method OverwriteLatest(i: nat, e: EnvId) returns (latest: EnvId)
      requires Valid() && i < SLOTS && records[i].count > 0
      modifies records
      ensures Valid()
      ensures var s := old(Abs()).slots[i];
              && s.mailbox != [] && latest == s.mailbox[|s.mailbox| - 1]
              && Abs() == old(Abs()).(slots := old(Abs()).slots[i :=
                   s.(mailbox := Replaced(s.mailbox, |s.mailbox| - 1, e), offered := s.offered + [e], lossless := false)])
    {
      hide SlotsOf, FlagsOk, Window;
      SlotsAt(records[..], i);
      var r := records[i];
      var cell := (r.head + r.count - 1) % MAILBOX_MAX;
      WindowReplaceLast(r.cells, r.head, r.count, e);
      assert Mailbox(r.(cells := r.cells[cell := e])) == Replaced(Mailbox(r), r.count - 1, e);
      latest := r.cells[cell];
      SetRecord(i, r.(cells := r.cells[cell := e],
                      past := r.past.(offered := r.past.offered + [e], lossless := false)));
    }

    /** Full mailbox, newest wins over the previous newest. */
    method Coalesce(i: nat, e: EnvId)
      requires Valid() && i < SLOTS && records[i].count > 0
      modifies this, records
      ensures Valid() && old(Abs()).slots[i].mailbox != [] && Abs() == ReplaceLatest(old(Abs()), i, e)
    {
      hide SlotsOf, FlagsOk, Window, Bus.Release, Bus.Retain;
      ghost var c := Abs();
      var latest := OverwriteLatest(i, e);
      ReleaseFrame(c, Abs().slots, latest);
      CoalesceFrame(c, i, e, latest, Abs().slots[i]);
      EnvelopeRelease(latest);
      EnvelopeRetain(e);
      metrics := metrics.(coalesced := metrics.coalesced + 1);
    }

    static lemma CoalesceFrame(c: Core, i: nat, e: EnvId, latest: EnvId, s: Slot)
      requires i < |c.slots| && c.slots[i].mailbox != [] && latest == c.slots[i].mailbox[|c.slots[i].mailbox| - 1]
      requires s == c.slots[i].(mailbox := Replaced(c.slots[i].mailbox, |c.slots[i].mailbox| - 1, e),
                                offered := c.slots[i].offered + [e], lossless := false)
      ensures Bus.Retain(Bus.Release(c, latest).(slots := c.slots[i := s]), e).(
                metrics := c.metrics.(coalesced := c.metrics.coalesced + 1)) == ReplaceLatest(c, i, e)
    {
    }

    /** Full mailbox, the oldest envelope gives way. */
    method DropFirst(i: nat)
      requires Valid() && i < SLOTS && records[i].count > 0
      modifies this, records
      ensures Valid() && old(Abs()).slots[i].mailbox != []
      ensures records[i] == old(records[i]).(head := records[i].head, count := old(records[i]).count - 1)
      ensures Abs() == Release(old(Abs()), old(Abs()).slots[i].mailbox[0]).(
                slots := old(Abs()).slots[i :=
                  old(Abs()).slots[i].(mailbox := old(Abs()).slots[i].mailbox[1..])],
                metrics := old(Abs()).metrics.(droppedOldest := old(Abs()).metrics.droppedOldest + 1))
    {
      hide SlotsOf, FlagsOk, Window;
      var oldest := MailboxPop(i);
      EnvelopeRelease(oldest);
      metrics := metrics.(droppedOldest := metrics.droppedOldest + 1);
    }

    /** The event now counts as offered to the slot's subscription. */
    method NoteOffer(i: nat, e: EnvId, lost: bool)
      requires Valid() && i < SLOTS
      modifies records
      ensures Valid() && records[i] == old(records[i]).(past := records[i].past)
      ensures Abs() == old(Abs()).(slots := old(Abs()).slots[i := Offered(old(Abs()).slots[i], e).(
                lossless := old(Abs()).slots[i].lossless && !lost)])
    {
      var r := records[i];
      SetRecord(i, r.(past := r.past.(offered := r.past.offered + [e], lossless := r.past.lossless && !lost)));
    }

    /** Queue at the tail; a full mailbox first loses its oldest envelope. */
    method Append(i: nat, e: EnvId)
      requires Valid() && i < SLOTS && records[i].active
      requires records[i].count < records[i].capacity || records[i].policy == DropOldest
      modifies this, records
      ensures Valid() && (Full(old(Abs()).slots[i]) ==> old(Abs()).slots[i].mailbox != [])
      ensures Abs() == if Full(old(Abs()).slots[i]) then ReplaceOldest(old(Abs()), i, e)
                       else Bus.Enqueue(old(Abs()), i, e)
    {
      hide SlotsOf, FlagsOk, Window;
      SlotsAt(records[..], i);
      ghost var s := SlotOf(records[i]);
      var full := records[i].count >= records[i].capacity;
      NoteOffer(i, e, full);
      if full {
        DropFirst(i);
        assert Replaced(s.mailbox, 0, e) == s.mailbox[1..] + [e];
      }
      MailboxPush(i, e);
    }

    /** The part of enqueue after the wait loop. */
    method Enqueue(i: nat, e: EnvId)
      requires Valid() && i < SLOTS && records[i].active && !Blocks(SlotOf(records[i]))
      modifies this, records, readyRing
      ensures Valid() && Abs() == Accept(old(Abs()), i, e)
    {
      var r := records[i];
      if r.count >= r.capacity {
        if r.policy == DropNewest {
          metrics := metrics.(droppedNewest := metrics.droppedNewest + 1);
          NoteOffer(i, e, true);
          return;
        }
        if r.policy == CoalesceLatest {
          Coalesce(i, e);
          return;
        }
      }
      Append(i, e);
      ReadyPush(i);
    }

    /**
     The publish loop from slot i on. It returns early, holding no lock, when the slot it has reached is
     full and blocks; Wake continues it.
     */
    method PublishFrom(e: EnvId, subs: set<nat>, from: nat, err: Status) returns (r: PublishResult)
      requires Valid() && from <= SLOTS
      modifies this, records, readyRing
      ensures Valid() && (Abs(), r) == Bus.PublishFrom(old(Abs()), e, subs, from, err)
    {
      hide SlotsOf, FlagsOk, Accept, Bus.Release;
      var i := from;
      while i < SLOTS
        invariant Valid() && i <= SLOTS
        invariant Bus.PublishFrom(Abs(), e, subs, i, err) == Bus.PublishFrom(old(Abs()), e, subs, from, err)
      {
        SlotsAt(records[..], i);
        if i in subs && records[i].active {
          metrics := metrics.(matched := metrics.matched + 1);
          if records[i].count >= records[i].capacity && records[i].policy == BlockWithTimeout {
            return Blocked(i, records[i].generation, records[i].past.sub, err);
          }
          Enqueue(i, e);
        }
        i := i + 1;
      }
      EnvelopeRelease(e);
      r := Done(err);
    }

    /** Asynchronous publish. Nothing happens once the bus is shutting down. */
    method Publish(ev: Event) returns (r: PublishResult, e: EnvId, subs: set<nat>)
      requires Valid()
      modifies this, records, readyRing, topics.entries
      ensures Valid()
      ensures old(shuttingDown) ==> r == Done(Cancelled) && Abs() == old(Abs())
      ensures !old(shuttingDown) ==>
                e == |old(log)| && subs == Matching(old(Abs()), ev.topic)
                && (Abs(), r) == Bus.PublishFrom(Announce(old(Abs()), ev), e, subs, 0, Ok)
    {
      hide SlotsOf, FlagsOk, Bus.PublishFrom;
      e, subs := |log|, {};
      if shuttingDown { return Done(Cancelled), e, subs; }
      var at := topics.Lookup(ev.topic, false);
      subs := wildcard + if at.Some? then topics.entries[at.value].subs else {};
      log := log + [ev];
      envelopes := envelopes[e := 1];
      metrics := metrics.(published := metrics.published + 1);
      r := PublishFrom(e, subs, 0, Ok);
    }

    /** A waiting publisher is woken, by a signal or by the clock. */
    method Wake(e: EnvId, subs: set<nat>, at: PublishResult, timedOut: bool) returns (r: PublishResult)
      requires Valid() && at.Blocked? && at.slot < SLOTS
      modifies this, records, readyRing
      ensures Valid() && (Abs(), r) == Resume(old(Abs()), e, subs, at, timedOut)
    {
      hide SlotsOf, FlagsOk, Accept, Bus.PublishFrom, Refuse;
      var i := at.slot;
      SlotsAt(records[..], i);
      var changed := !records[i].active || records[i].generation != at.generation;
      if !timedOut && !shuttingDown && !changed {
        if records[i].count >= records[i].capacity && records[i].policy == BlockWithTimeout {
          return at;
        }
        Enqueue(i, e);
        r := PublishFrom(e, subs, i + 1, at.status);
      } else {
        Reject(i, at.sub, e);
        r := PublishFrom(e, subs, i + 1, FirstError(at.status, if timedOut then Timeout else Cancelled));
      }
    }

    /** The bookkeeping of a wait that ended with an error. */
    method Reject(i: nat, sub: nat, e: EnvId)
      requires Valid() && i < SLOTS
      modifies this, records
      ensures Valid() && Abs() == Refuse(old(Abs()), i, sub, e)
    {
      hide SlotsOf, FlagsOk;
      SlotsAt(records[..], i);
      if records[i].past.sub == sub { NoteOffer(i, e, true); }
      metrics := metrics.(refused := metrics.refused + 1);
    }

    // ---- workers ---------------------------------------------------------------------------------

    /** One pass of a worker under the lock: take an event, or leave, or go back to sleep. */
    method WorkerTake() returns (task: Option<Task>, leave: bool)
      requires Valid()
      modifies this, records
      ensures Valid() && (task, Abs()) == Take(old(Abs()))
      ensures leave <==> task.None? && shuttingDown && Ring() == []
    {
      hide SlotsOf, FlagsOk, Window;
      var who := ReadyPop();
      leave := false;
      if who.None? {
        return None, shuttingDown && readyCount == 0;
      }
      var i := who.value;
      SlotsAt(records[..], i);
      var r := records[i];
      var e := MailboxPop(i);
      MarkTaken(i, e);
      assert Abs().slots == old(Abs()).slots[i := Abs().slots[i]];
      assert Abs() == TakeFrom(old(Abs()), i, Ring());
      task := Some(Task(i, r.generation, r.handler, r.past.sub, e));
    }

    method MarkTaken(i: nat, e: EnvId)
      requires Valid() && i < SLOTS
      modifies records
      ensures Valid()
      ensures Abs() == old(Abs()).(slots := old(Abs()).slots[i := old(Abs()).slots[i].(
                busy := true, inflight := old(Abs()).slots[i].inflight + 1,
                taken := old(Abs()).slots[i].taken + [e])])
    {
      var r := records[i];
      SetRecord(i, r.(busy := true, inflight := r.inflight + 1, past := r.past.(taken := r.past.taken + [e])));
    }

    /** The worker reports back after the handler has returned. */
    method WorkerFinish(t: Task)
      requires Valid() && t.slot < SLOTS
      modifies this, records, readyRing
      ensures Valid() && Abs() == Finish(old(Abs()), t)
    {
      hide SlotsOf, FlagsOk, Bus.ReadyPush, Window, Bus.Release;
      SlotsAt(records[..], t.slot);
      MarkIdle(t.slot);
      metrics := metrics.(delivered := metrics.delivered + 1);
      EnvelopeRelease(t.env);
      ReadyPush(t.slot);
    }

    method MarkIdle(i: nat)
      requires Valid() && i < SLOTS
      modifies records, `faults
      ensures Valid()
      ensures var c, s := old(Abs()), old(Abs()).slots[i];
              Abs() == c.(slots := c.slots[i := s.(busy := false, inflight := if s.inflight > 0 then s.inflight - 1 else 0)],
                          faults := c.faults + if s.inflight > 0 then 0 else 1)
    {
      hide SlotsOf, FlagsOk, Window;
      SlotsAt(records[..], i);
      var r := records[i];
      if r.inflight == 0 { faults := faults + 1; }
      SetRecord(i, r.(busy := false, inflight := if r.inflight > 0 then r.inflight - 1 else 0));
    }

    // ---- synchronous publish ---------------------------------------------------------------------

    /** The first lock region of a synchronous publish: pin every matching subscription. */
    method SnapshotSubscribers(e: EnvId, topic: Topic) returns (tasks: seq<Task>)
      requires Valid()
      modifies this, records, topics.entries
      ensures Valid() && (tasks, Abs()) == TakeSnapshot(old(Abs()), e, Matching(old(Abs()), topic))
    {
      hide FlagsOk, Window, SlotsOf, Snapshot, Pin;
      var at := topics.Lookup(topic, false);
      var subs := wildcard + if at.Some? then topics.entries[at.value].subs else {};
      assert subs == Matching(old(Abs()), topic);
      tasks := PinSubscribers(e, subs);
      metrics := metrics.(matched := metrics.matched + |tasks|);
    }

    method PinOne(i: nat)
      requires Valid() && i < SLOTS
      modifies records
      ensures Valid()
      ensures var slots := old(Abs()).slots;
              Abs() == old(Abs()).(slots := slots[i := slots[i].(inflight := slots[i].inflight + 1)])
    {
      hide SlotsOf, FlagsOk, Window;
      SlotsAt(records[..], i);
      SetRecord(i, records[i].(inflight := records[i].inflight + 1));
    }

    method PinSubscribers(e: EnvId, subs: set<nat>) returns (tasks: seq<Task>)
      requires Valid()
      modifies records
      ensures Valid() && tasks == Snapshot(old(Abs()).slots, e, subs, 0)
      ensures Abs() == old(Abs()).(slots := Pin(old(Abs()).slots, subs))
    {
      hide SlotsOf, FlagsOk, Window, Pin, PinnedBelow, Snapshot;
      ghost var slots := Abs().slots;
      tasks := [];
      var i := 0;
      PinnedNone(slots, subs);
      while i < SLOTS
        invariant Valid() && i <= SLOTS
        invariant tasks + Snapshot(slots, e, subs, i) == Snapshot(slots, e, subs, 0)
        invariant Abs() == old(Abs()).(slots := PinnedBelow(slots, subs, i))
      {
        SlotsAt(records[..], i);
        PinnedStep(slots, subs, i);
        SnapshotStep(slots, e, subs, i, tasks);
        var r := records[i];
        if i in subs && r.active {
          PinOne(i);
          tasks := tasks + [Task(i, r.generation, r.handler, r.past.sub, e)];
        }
        i := i + 1;
      }
      PinnedAll(slots, subs);
      SnapshotEnd(slots, e, subs);
    }

    /** After each handler call of a synchronous publish. */
    method ReportDelivery(t: Task)
      requires Valid() && t.slot < SLOTS
      modifies this, records
      ensures Valid() && Abs() == SyncDelivered(old(Abs()), t)
    {
      hide SlotsOf, FlagsOk, Window;
      SlotsAt(records[..], t.slot);
      var r := records[t.slot];
      if r.generation == t.generation && r.inflight > 0 {
        SetRecord(t.slot, r.(inflight := r.inflight - 1));
      } else {
        faults := faults + 1;
      }
      metrics := metrics.(delivered := metrics.delivered + 1);
    }

    // ---- subscriptions ---------------------------------------------------------------------------

    method FindFree() returns (i: nat)
      requires Valid()
      ensures i == FirstFree(Abs().slots, 0)
    {
      i := 0;
      while i < SLOTS
        invariant i <= SLOTS && FirstFree(Abs().slots, i) == FirstFree(Abs().slots, 0)
      {
        SlotsAt(records[..], i);
        var r := records[i];
        if !r.active && r.inflight == 0 && r.handler == None && r.topic == None { return; }
        i := i + 1;
      }
    }

    /** Enter a slot in the directory; this fails only for a new topic when the directory is full. */
    method Enlist(topic: Option<Topic>, i: nat) returns (ok: bool)
      requires Valid() && i < SLOTS
      modifies topics.entries, `wildcard
      ensures Valid()
      ensures ok == !(topic.Some? && topic.value !in old(Abs()).dir && |old(Abs()).dir| >= TOPIC_CAPACITY)
      ensures Abs() == if !ok then old(Abs()) else old(Abs()).(
                dir := if topic.Some? then DirAdd(old(Abs()).dir, topic.value, i) else old(Abs()).dir,
                wildcard := if topic.Some? then old(Abs()).wildcard else old(Abs()).wildcard + {i})
    {
      hide SlotsOf, FlagsOk, Window;
      ghost var dir := topics.Map();
      if topic.Some? {
        var at := topics.Lookup(topic.value, true);
        if at.None? { return false; }
        topics.AddBit(at.value, i);
        assert topics.Map() == DirAdd(dir, topic.value, i);
      } else {
        wildcard := wildcard + {i};
      }
      ok := true;
    }

    /** Fill in the fields of a slot that has been handed out. */
    method Occupy(i: nat, topic: Option<Topic>, handler: nat, policy: Option<Policy>, capacity: nat)
      requires Valid() && i < SLOTS
      modifies records, `nextSub
      ensures Valid()
      ensures var c := old(Abs());
              Abs() == c.(slots := c.slots[i := NewSubscription(c, c.slots[i], topic, handler, policy, capacity)],
                          nextSub := c.nextSub + 1)
    {
      hide SlotsOf, FlagsOk, Window;
      SlotsAt(records[..], i);
      var r := records[i];
      var chosen := if policy.Some? then policy.value else BlockWithTimeout;
      var size := NormalizedCapacity(if capacity != 0 then capacity else defaultCapacity);
      SetRecord(i, r.(active := true, topic := topic, handler := Some(handler), policy := chosen,
                      capacity := size, past := History(nextSub, |log|, [], [], true)));
      nextSub := nextSub + 1;
    }

    method Subscribe(topic: Option<Topic>, handler: nat, policy: Option<Policy>, capacity: nat)
      returns (status: Status, handle: Handle)
      requires Valid()
      modifies this, records, topics.entries
      ensures Valid()
      ensures (status, handle, Abs()) == Bus.Subscribe(old(Abs()), topic, handler, policy, capacity)
    {
      hide SlotsOf, FlagsOk, Window, FirstFree, DirAdd, NewSubscription, Bus.Subscribe;
      ghost var c := Abs();
      SubscribeCases(c, c, topic, handler, policy, capacity);
      handle := Handle(0, 0);
      if shuttingDown { return Cancelled, handle; }
      var i := FindFree();
      if i == SLOTS { return LimitExceeded, handle; }
      SlotsAt(records[..], i);
      var ok := Enlist(topic, i);
      if !ok { return LimitExceeded, handle; }
      SubscribeCases(c, Abs(), topic, handler, policy, capacity);
      handle := Handle(i, records[i].generation);
      Occupy(i, topic, handler, policy, capacity);
      status := Ok;
    }

    /**
     The first half of unsubscribe, on a handle whose generation is current: leave the directory and the
     ring, drop the queued events.
     */
    method Deactivate(i: nat)
      requires Valid() && i < SLOTS
      modifies this, records, readyRing, topics.entries
      ensures Valid() && Abs() == Bus.Deactivate(old(Abs()), i)
    {
      hide SlotsOf, FlagsOk, Window, ReleaseAll, DirRemove, Without;
      SlotsAt(records[..], i);
      var r := records[i];
      if !r.active { return; }
      SetRecord(i, r.(active := false));
      wildcard := wildcard - {i};
      topics.RemoveSlot(i);
      ReadyRemoveSlot(i);
      ghost var c := Abs();
      SlotsAt(records[..], i);
      DrainMailbox(i);
      metrics := metrics.(discarded := metrics.discarded + r.count);
      DrainFrame(old(Abs()), c, SlotOf(r).mailbox);
    }

    /** Take the oldest envelope out of a mailbox and drop the reference to it. */
    method DropHead(i: nat)
      requires Valid() && i < SLOTS && records[i].count > 0
      modifies records, `envelopes, `faults
      ensures Valid() && old(Abs()).slots[i].mailbox != []
      ensures var c, s := old(Abs()), old(Abs()).slots[i];
              Abs() == Release(c, s.mailbox[0]).(slots := c.slots[i := s.(mailbox := s.mailbox[1..])])
      ensures records[i].count == old(records[i].count) - 1
    {
      hide SlotsOf, FlagsOk, Window, Bus.Release;
      ghost var c := Abs();
      var e := MailboxPop(i);
      EnvelopeRelease(e);
      ReleaseFrame(c, Abs().slots, e);
    }

    /** Empty the mailbox of slot i. */
    method DrainMailbox(i: nat)
      requires Valid() && i < SLOTS
      modifies records, `envelopes, `faults
      ensures Valid()
      ensures Abs() == ReleaseAll(old(Abs()), old(Abs()).slots[i].mailbox).(
                slots := old(Abs()).slots[i := old(Abs()).slots[i].(mailbox := [])])
    {
      hide SlotsOf, FlagsOk, Window, Bus.Release;
      ghost var c := Abs();
      ghost var s := c.slots[i];
      SlotsAt(records[..], i);
      assert c.slots == c.slots[i := s];
      while records[i].count > 0
        invariant Valid() && Abs().slots == c.slots[i := s.(mailbox := Abs().slots[i].mailbox)]
        invariant Abs() == c.(slots := Abs().slots, refs := Abs().refs, faults := Abs().faults)
        invariant |Abs().slots[i].mailbox| == records[i].count
        invariant ReleaseAll(Abs().(slots := c.slots), Abs().slots[i].mailbox) == ReleaseAll(c, s.mailbox)
        decreases records[i].count
      {
        ReleaseFrame(Abs(), c.slots, Abs().slots[i].mailbox[0]);
        DropHead(i);
        SlotsAt(records[..], i);
      }
    }

    /** The second half, once no delivery is in flight. */
    method Retire(i: nat)
      requires Valid() && i < SLOTS
      modifies records
      ensures Valid() && Abs() == Bus.Retire(old(Abs()), i)
    {
      var r := records[i];
      SetRecord(i, r.(topic := None, handler := None, generation := NextGeneration(r.generation)));
    }

    /** Unsubscribe up to its wait, or to its end when there is nothing to wait for. */
    method Unsubscribe(handle: Handle) returns (status: Status, wait: bool)
      requires Valid()
      modifies this, records, readyRing, topics.entries
      ensures Valid()
      ensures handle.slot >= SLOTS ==> status == InvalidArgument && !wait && Abs() == old(Abs())
      ensures handle.slot < SLOTS && old(Abs()).slots[handle.slot].generation != handle.generation ==>
                status == Status.NotFound && !wait && Abs() == old(Abs())
      ensures handle.slot < SLOTS && old(Abs()).slots[handle.slot].generation == handle.generation ==>
                var c := Bus.Deactivate(old(Abs()), handle.slot);
                status == Ok && |c.slots| == SLOTS && wait == (c.slots[handle.slot].inflight > 0)
                && Abs() == if wait then c else Bus.Retire(c, handle.slot)
    {
      hide SlotsOf, FlagsOk, Window, Bus.Deactivate, Bus.Retire;
      if handle.slot >= SLOTS { return InvalidArgument, false; }
      var i := handle.slot;
      SlotsAt(records[..], i);
      if records[i].generation != handle.generation { return Status.NotFound, false; }
      Deactivate(i);
      SlotsAt(records[..], i);
      status, wait := Ok, records[i].inflight > 0;
      if !wait { Retire(i); }
    }

    method Shutdown()
      requires Valid()
      modifies `shuttingDown
      ensures Valid() && Abs() == old(Abs()).(shuttingDown := true)
    {
      shuttingDown := true;
    }
  }

  /** Subscribe by cases; c1 is the state with the directory and the wildcard set brought up to date. */
  lemma SubscribeCases(c: Core, c1: Core, topic: Option<Topic>, handler: nat, policy: Option<Policy>, capacity: nat)
    ensures var i, full := FirstFree(c.slots, 0), topic.Some? && topic.value !in c.dir && |c.dir| >= TOPIC_CAPACITY;
            && (c.shuttingDown ==>
                  Bus.Subscribe(c, topic, handler, policy, capacity) == (Cancelled, Handle(0, 0), c))
            && (!c.shuttingDown && (i == |c.slots| || full) ==>
                  Bus.Subscribe(c, topic, handler, policy, capacity) == (LimitExceeded, Handle(0, 0), c))
            && (!c.shuttingDown && i < |c.slots| && !full
                && c1 == c.(dir := if topic.Some? then DirAdd(c.dir, topic.value, i) else c.dir,
                            wildcard := if topic.Some? then c.wildcard else c.wildcard + {i}) ==>
                  Bus.Subscribe(c, topic, handler, policy, capacity) ==
                    (Ok, Handle(i, c.slots[i].generation),
                     c1.(slots := c1.slots[i := NewSubscription(c1, c1.slots[i], topic, handler, policy, capacity)],
                         nextSub := c1.nextSub + 1)))
  {
    hide FirstFree, DirAdd;
  }

  /** The slots in which only the matching ones below i have been pinned. */
  function PinnedBelow(slots: seq<Slot>, subs: set<nat>, i: nat): (r: seq<Slot>)
    requires i <= |slots|
    ensures |r| == |slots|
  {
    seq(|slots|, j requires 0 <= j < |slots| =>
      if j < i && j in subs && slots[j].active then slots[j].(inflight := slots[j].inflight + 1) else slots[j])
  }

  lemma PinnedNone(slots: seq<Slot>, subs: set<nat>)
    ensures PinnedBelow(slots, subs, 0) == slots
  {
  }

  lemma PinnedAll(slots: seq<Slot>, subs: set<nat>)
    ensures PinnedBelow(slots, subs, |slots|) == Pin(slots, subs)
  {
  }

  lemma PinnedAt(slots: seq<Slot>, subs: set<nat>, i: nat, j: nat)
    requires i <= |slots| && j < |slots|
    ensures PinnedBelow(slots, subs, i)[j] ==
              if j < i && j in subs && slots[j].active then slots[j].(inflight := slots[j].inflight + 1) else slots[j]
  {
  }

  lemma PinnedStep(slots: seq<Slot>, subs: set<nat>, i: nat)
    requires i < |slots|
    ensures PinnedBelow(slots, subs, i)[i] == slots[i]
    ensures PinnedBelow(slots, subs, i + 1) == if i in subs && slots[i].active
              then PinnedBelow(slots, subs, i)[i := slots[i].(inflight := slots[i].inflight + 1)]
              else PinnedBelow(slots, subs, i)
  {
    hide PinnedBelow;
    forall j: nat | j < |slots|
      ensures PinnedBelow(slots, subs, i + 1)[j] == if j == i && i in subs && slots[i].active
                then slots[i].(inflight := slots[i].inflight + 1)
                else PinnedBelow(slots, subs, i)[j]
    {
      PinnedAt(slots, subs, i, j);
      PinnedAt(slots, subs, i + 1, j);
    }
    PinnedAt(slots, subs, i, i);
  }

  lemma SnapshotStep(slots: seq<Slot>, e: EnvId, subs: set<nat>, i: nat, tasks: seq<Task>)
    requires i < |slots|
    ensures tasks + Snapshot(slots, e, subs, i) == if i in subs && slots[i].active
              then tasks + [TaskOf(i, slots[i], e)] + Snapshot(slots, e, subs, i + 1)
              else tasks + Snapshot(slots, e, subs, i + 1)
  {
  }

  lemma SnapshotEnd(slots: seq<Slot>, e: EnvId, subs: set<nat>)
    ensures Snapshot(slots, e, subs, |slots|) == []
  {
  }

  lemma ReleaseFrame(c: Core, slots: seq<Slot>, e: EnvId)
    ensures Bus.Release(c, e).(slots := slots) == Bus.Release(c.(slots := slots), e)
  {
  }

  /** Dropping references neither reads nor writes anything but the reference counts. */
  lemma {:induction false} DrainFrame(a: Core, b: Core, es: seq<EnvId>)
    requires a.refs == b.refs && a.faults == b.faults
    ensures var r, t := ReleaseAll(a, es), ReleaseAll(b, es);
            r == a.(refs := t.refs, faults := t.faults) && t == b.(refs := t.refs, faults := t.faults)
    decreases |es|
  {
    if es != [] { DrainFrame(Bus.Release(a, es[0]), Bus.Release(b, es[0]), es[1..]); }
  }

  lemma TailFlags(rs: seq<Record>, ring: seq<nat>)
    requires FlagsOk(rs, ring) && ring != []
    ensures ring[0] < |rs|
    ensures FlagsOk(rs[ring[0] := rs[ring[0]].(ready := false)], ring[1..])
  {
    assert ring[0] in ring && ring == [ring[0]] + ring[1..];
    assert ring[0] !in ring[1..];
    assert forall i :: i in ring[1..] ==> i in ring && i != ring[0];
    assert forall i :: i in ring && i != ring[0] ==> i in ring[1..];
    assert Distinct(ring[1..]);
  }

  lemma WithoutFront(ring: seq<nat>, i: nat)
    ensures [] + Without(ring, i) == Without(ring, i)
    ensures ring == [] ==> Without(ring, i) == []
    ensures ring != [] ==>
              Without(ring, i) == (if ring[0] == i then [] else [ring[0]]) + Without(ring[1..], i)
  {
    if ring != [] && ring[0] == i { assert [] + Without(ring[1..], i) == Without(ring[1..], i); }
  }

  lemma {:induction false} WithoutIs(ring: seq<nat>, i: nat)
    requires Distinct(ring)
    ensures Distinct(Without(ring, i))
    ensures forall j :: j in Without(ring, i) <==> j in ring && j != i
  {
    if ring != [] {
      var rest := Without(ring[1..], i);
      WithoutIs(ring[1..], i);
      assert ring == [ring[0]] + ring[1..];
      if ring[0] != i { assert ring[0] !in rest; }
    }
  }

  lemma WithoutFlags(rs: seq<Record>, ring: seq<nat>, i: nat)
    requires FlagsOk(rs, ring) && i < |rs|
    ensures FlagsOk(rs[i := rs[i].(ready := false)], Without(ring, i))
  {
    WithoutIs(ring, i);
  }
}
