/**
 A publisher that had to sleep works from a selection that may be stale when it wakes up: a concrete run
 in which an event of topic "a" is queued for a subscriber of topic "b".
 */
module EventBusStale {
  import opened Common
  import opened EventBusCore
  import opened EventBusInvariant
  import opened EventBusWorld
  import opened EventBusTheorems

  const TOPIC_A: Topic := "a"
  const TOPIC_B: Topic := "b"
  const PUBLISHED: seq<Event> := [Event(TOPIC_A, "first"), Event(TOPIC_A, "second")]

  /** The slot table in which only the first two slots were ever used. */
  function Two(s0: Slot, s1: Slot): seq<Slot> {
    seq(SLOTS, i => if i == 0 then s0 else if i == 1 then s1 else FRESH_SLOT)
  }

  /** The first subscriber of topic "a", whose mailbox holds one event and makes publishers wait. */
  function Slow(box: seq<EnvId>, offered: seq<EnvId>, taken: seq<EnvId>, busy: bool): Slot {
    Slot(true, 1, Some(TOPIC_A), Some(10), BlockWithTimeout, 1, box, if busy then 1 else 0, busy, 0, 0, offered, taken, true)
  }

  function SecondA(box: seq<EnvId>, offered: seq<EnvId>): Slot {
    Slot(true, 1, Some(TOPIC_A), Some(11), DropNewest, 4, box, 0, false, 1, 0, offered, [], true)
  }

  function NewB(box: seq<EnvId>, offered: seq<EnvId>): Slot {
    Slot(true, 2, Some(TOPIC_B), Some(12), DropNewest, 4, box, 0, false, 2, 2, offered, [], true)
  }

  function State(slots: seq<Slot>, dir: map<Topic, set<nat>>, ring: seq<nat>, refs: map<EnvId, nat>, log: seq<Event>,
                 metrics: Metrics, nextSub: nat): Core
  {
    Core(Async, 16, slots, dir, {}, ring, refs, log, false, metrics, nextSub, 0)
  }

  const STAGE_1: World := World(
    State(Two(Slow([], [], [], false), SecondA([], [])), map[TOPIC_A := {0, 1}], [], map[], [],
          Metrics(0, 0, 0, 0, 0, 0, 0, 0), 2), [Idle], {}, {}, false)

  const STAGE_2: World := World(
    State(Two(Slow([0], [0], [], false), SecondA([0], [0])), map[TOPIC_A := {0, 1}], [0, 1], map[0 := 2], PUBLISHED[..1],
          Metrics(1, 2, 0, 0, 0, 0, 0, 0), 2), [Idle], {}, {}, false)

  const SLEEPER: Thread := Waiting(1, {0, 1}, Blocked(0, 1, 0, Ok))

  const STAGE_3: World := World(
    State(Two(Slow([0], [0], [], false), SecondA([0], [0])), map[TOPIC_A := {0, 1}], [0, 1], map[0 := 2, 1 := 1], PUBLISHED,
          Metrics(2, 3, 0, 0, 0, 0, 0, 0), 2), [Idle, SLEEPER], {}, {}, true)

  const STAGE_4: World := World(
    State(Two(Slow([0], [0], [], false), SecondA([], [0]).(active := false, topic := None, handler := None, generation := 2)),
          map[TOPIC_A := {0}], [0], map[0 := 1, 1 := 1], PUBLISHED, Metrics(2, 3, 0, 0, 0, 0, 1, 0), 2),
    [Idle, SLEEPER], {}, {1}, true)

  const STAGE_5: World := World(
    State(Two(Slow([0], [0], [], false), NewB([], [])), map[TOPIC_A := {0}, TOPIC_B := {1}], [0], map[0 := 1, 1 := 1], PUBLISHED,
          Metrics(2, 3, 0, 0, 0, 0, 1, 0), 3), [Idle, SLEEPER], {}, {1}, true)

  const STAGE_6: World := World(
    State(Two(Slow([], [0], [0], true), NewB([], [])), map[TOPIC_A := {0}, TOPIC_B := {1}], [], map[0 := 1, 1 := 1], PUBLISHED,
          Metrics(2, 3, 0, 0, 0, 0, 1, 0), 3), [Serving(Task(0, 1, Some(10), 0, 0)), SLEEPER], {}, {1}, true)

  const STAGE_7: World := World(
    State(Two(Slow([1], [0, 1], [0], true), NewB([1], [1])), map[TOPIC_A := {0}, TOPIC_B := {1}], [1], map[0 := 1, 1 := 2], PUBLISHED,
          Metrics(2, 4, 0, 0, 0, 0, 1, 0), 3), [Serving(Task(0, 1, Some(10), 0, 0)), Gone], {}, {1}, true)

  /** The loop passes over slots that are not selected or not active. */
  lemma {:induction false} PublishSkips(c: Core, e: EnvId, subs: set<nat>, i: nat, err: Status)
    requires i <= |c.slots| == SLOTS
    requires forall j :: i <= j < SLOTS ==> j !in subs || !c.slots[j].active
    ensures PublishFrom(c, e, subs, i, err) == (Release(c, e), Done(err))
    decreases SLOTS - i
  {
    if i < SLOTS { PublishSkips(c, e, subs, i + 1, err); }
  }

  lemma To1()
    ensures Next(Next(Init(Async, 1, 0), Step.Subscribe(Some(TOPIC_A), 10, None, 1)),
                 Step.Subscribe(Some(TOPIC_A), 11, Some(DropNewest), 4)) == STAGE_1
  {
    var w0 := Init(Async, 1, 0);
    assert w0.threads == [Idle];
    var w1 := Next(w0, Step.Subscribe(Some(TOPIC_A), 10, None, 1));
    assert FirstFree(w0.core.slots, 0) == 0;
    assert w1.core.slots == Two(Slow([], [], [], false), FRESH_SLOT);
    assert w1.core.dir == map[TOPIC_A := {0}];
    assert FirstFree(w1.core.slots, 1) == 1;
    assert FirstFree(w1.core.slots, 0) == 1;
    var w2 := Next(w1, Step.Subscribe(Some(TOPIC_A), 11, Some(DropNewest), 4));
    assert w2.core.slots == STAGE_1.core.slots;
    var one: set<nat> := {1};
    assert w1.core.dir[TOPIC_A] + one == {0, 1};
    assert w2.core.dir == map[TOPIC_A := {0, 1}];
  }

  lemma To2()
    ensures Next(STAGE_1, Publish(PUBLISHED[0])) == STAGE_2
  {
    var subs := Matching(STAGE_1.core, TOPIC_A);
    assert subs == {0, 1};
    var c := Announce(STAGE_1.core, PUBLISHED[0]);
    assert c.log == PUBLISHED[..1] && c.refs == map[0 := 1];
    var c1 := Accept(c.(metrics := c.metrics.(matched := 1)), 0, 0);
    var none: seq<EnvId> := [];
    assert none + [0] == [0];
    assert c1.slots[0] == Slow([0], [0], [], false);
    assert c1.slots == Two(Slow([0], [0], [], false), SecondA([], []));
    assert c1.refs == map[0 := 2] && c1.ring == [0];
    var c2 := Accept(c1.(metrics := c1.metrics.(matched := 2)), 1, 0);
    assert c2.slots == STAGE_2.core.slots;
    assert c2.refs == map[0 := 3] && c2.ring == [0, 1];
    PublishSkips(c2, 0, subs, 2, Ok);
    assert PublishFrom(c1, 0, subs, 1, Ok) == (Release(c2, 0), Done(Ok));
    assert Release(c2, 0).refs == map[0 := 2];
  }

  lemma To3()
    ensures Next(STAGE_2, Publish(PUBLISHED[1])) == STAGE_3
  {
    var subs := Matching(STAGE_2.core, TOPIC_A);
    assert subs == {0, 1};
    var c := Announce(STAGE_2.core, PUBLISHED[1]);
    assert c.log == PUBLISHED;
  }

  lemma To4()
    ensures Next(STAGE_3, Unsubscribe(Handle(1, 1), true)) == STAGE_4
  {
    var c := Deactivate(STAGE_3.core, 1);
    assert ReleaseAll(STAGE_3.core, [0]) == Release(STAGE_3.core, 0);
    assert Without([0, 1], 1) == [0] by { assert Without([1], 1) == []; }
    assert c.slots == Two(Slow([0], [0], [], false), SecondA([], [0]).(active := false));
    assert STAGE_3.core.dir[TOPIC_A] - {1} == {0};
    assert c.dir == map[TOPIC_A := {0}];
    assert Retire(c, 1).slots == STAGE_4.core.slots;
  }

  lemma To5()
    ensures Next(STAGE_4, Step.Subscribe(Some(TOPIC_B), 12, Some(DropNewest), 4)) == STAGE_5
  {
    assert FirstFree(STAGE_4.core.slots, 1) == 1;
    assert FirstFree(STAGE_4.core.slots, 0) == 1;
    assert TOPIC_A[0] != TOPIC_B[0];
    var w := Next(STAGE_4, Step.Subscribe(Some(TOPIC_B), 12, Some(DropNewest), 4));
    assert w.core.slots == STAGE_5.core.slots;
    assert w.core.dir == STAGE_5.core.dir;
  }

  lemma To6()
    ensures Next(STAGE_5, Poll(0)) == STAGE_6
  {
    var (t, c) := Take(STAGE_5.core);
    var none: seq<EnvId> := [];
    assert none + [0] == [0];
    assert c.slots[0] == Slow([], [0], [0], true);
    assert c.slots == STAGE_6.core.slots;
  }

  lemma To7()
    ensures Next(STAGE_6, PublishWake(1, false)) == STAGE_7
  {
    var c := STAGE_6.core;
    var c1 := Accept(c, 0, 1);
    var none: seq<EnvId> := [];
    assert none + [1] == [1];
    assert c.slots[0].offered + [1] == [0, 1];
    assert c1.slots[0] == Slow([1], [0, 1], [0], true);
    assert c1.slots == Two(Slow([1], [0, 1], [0], true), NewB([], []));
    assert c1.refs == map[0 := 1, 1 := 2] && c1.ring == [];
    var c2 := Accept(c1.(metrics := c1.metrics.(matched := 4)), 1, 1);
    assert c2.slots == STAGE_7.core.slots;
    assert c2.refs == map[0 := 1, 1 := 3] && c2.ring == [1];
    PublishSkips(c2, 1, {0, 1}, 2, Ok);
    assert PublishFrom(c1, 1, {0, 1}, 1, Ok) == (Release(c2, 1), Done(Ok));
    assert Release(c2, 1).refs == STAGE_7.core.refs;
  }

  lemma Chain(w: World, step: Step, w': World)
    requires Reachable(w) && Next(w, step) == w'
    ensures Reachable(w')
  {
    ReachableNext(w, step);
  }

  lemma Stage1Reachable()
    ensures Reachable(STAGE_1)
  {
    hide Next, Reachable;
    To1();
    var w0 := Init(Async, 1, 0);
    InitReachable();
    var w1 := Next(w0, Step.Subscribe(Some(TOPIC_A), 10, None, 1));
    Chain(w0, Step.Subscribe(Some(TOPIC_A), 10, None, 1), w1);
    Chain(w1, Step.Subscribe(Some(TOPIC_A), 11, Some(DropNewest), 4), STAGE_1);
  }

  lemma InitReachable()
    ensures Reachable(Init(Async, 1, 0))
  {
    assert Init(Async, 1, 0) == Run(Async, 1, 0, []);
  }

  lemma Stage3Reachable()
    ensures Reachable(STAGE_3)
  {
    hide Next, Reachable, Matching, Init;
    Stage1Reachable();
    To2();
    Chain(STAGE_1, Publish(PUBLISHED[0]), STAGE_2);
    To3();
    Chain(STAGE_2, Publish(PUBLISHED[1]), STAGE_3);
  }

  lemma Stage7Reachable()
    ensures Reachable(STAGE_7)
  {
    hide Next, Reachable, Matching, Init;
    Stage3Reachable();
    To4();
    Chain(STAGE_3, Unsubscribe(Handle(1, 1), true), STAGE_4);
    To5();
    Chain(STAGE_4, Step.Subscribe(Some(TOPIC_B), 12, Some(DropNewest), 4), STAGE_5);
    To6();
    Chain(STAGE_5, Poll(0), STAGE_6);
    To7();
    Chain(STAGE_6, PublishWake(1, false), STAGE_7);
  }

  /**
   The state at the end of the run is reachable, and in it a subscriber of topic "b" has been offered,
   and has in its mailbox, an event of topic "a".
   */
  lemma StaleSelection()
    ensures Reachable(STAGE_7)
    ensures exists i, e :: 0 <= i < SLOTS && e in STAGE_7.core.slots[i].mailbox && e < |STAGE_7.core.log|
              && STAGE_7.core.slots[i].active && !Wants(STAGE_7.core.slots[i].topic, STAGE_7.core.log[e])
  {
    hide Reachable;
    Stage7Reachable();
    assert TOPIC_A[0] != TOPIC_B[0];
    assert 1 in STAGE_7.core.slots[1].mailbox && !Wants(STAGE_7.core.slots[1].topic, STAGE_7.core.log[1]);
  }
}
