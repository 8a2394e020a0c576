/** What every locked region of the run queue keeps. */
module RunQueueInvariant {
  import opened Common
  import opened RunQueueCore

  /** The redundant counters are recounts of the list, and nothing submitted is lost. */
  ghost predicate CountersOk(jobs: seq<Job>, c: Counters) {
    && c.pending == Count(jobs, In(Pending))
    && c.inFlight == Count(jobs, In(Running))
    && c.completed == Count(jobs, In(Completed))
    && c.total == |jobs|
    && c.submitted == c.finished + c.pending + c.inFlight
    && c.cancelled <= c.finished
  }

  ghost predicate LanesOk(jobs: seq<Job>, lanes: seq<nat>, config: Config) {
    && |lanes| == LANES
    && forall l: nat :: l < |lanes| ==> lanes[l] == Count(jobs, RunningIn(l)) && lanes[l] <= LaneLimit(config, l)
  }

  predicate Tracked(sessions: seq<Session>, key: string) {
    exists s :: 0 <= s < |sessions| && sessions[s].key == key
  }

  ghost predicate SessionsOk(jobs: seq<Job>, sessions: seq<Session>, config: Config) {
    && |sessions| <= MAX_SESSIONS
    && (forall s, t :: 0 <= s < t < |sessions| ==> sessions[s].key != sessions[t].key)
    && (forall s :: 0 <= s < |sessions| ==>
          sessions[s].inFlight == Count(jobs, RunningOf(sessions[s].key))
          && sessions[s].inFlight <= Limit(config.perSession))
    && (forall k :: 0 <= k < |jobs| && jobs[k].state == Running ==> Tracked(sessions, jobs[k].session))
  }

  /** The list is in submission order, and ids identify jobs. */
  ghost predicate OrderOk(jobs: seq<Job>, submitted: nat) {
    && (forall k :: 0 <= k < |jobs| ==> jobs[k].serial < submitted && jobs[k].lane < LANES)
    && (forall k, l :: 0 <= k < l < |jobs| ==> jobs[k].serial < jobs[l].serial)
    && (forall k, l :: 0 <= k < l < |jobs| ==> jobs[k].id != jobs[l].id)
  }

  ghost predicate BackpressureOk(jobs: seq<Job>, config: Config) {
    && (config.maxTotal > 0 ==> |jobs| <= config.maxTotal)
    && (config.maxPending > 0 ==> forall key :: Count(jobs, PendingOf(key)) <= config.maxPending)
  }

  /** A steering or interrupting submission leaves no older job of its session pending or uncancelled. */
  ghost predicate SteerOk(jobs: seq<Job>) {
    forall k, l :: 0 <= k < l < |jobs| && jobs[k].session == jobs[l].session
                   && (jobs[l].action == Steer || jobs[l].action == Interrupt) ==>
                     jobs[k].state != Pending && (jobs[k].state == Running ==> jobs[k].cancelled)
  }

  /** A job completed while pending is neither pending nor running. */
  ghost predicate DroppedOk(jobs: seq<Job>, dropped: set<nat>, submitted: nat) {
    && (forall k :: 0 <= k < |jobs| && jobs[k].state != Completed ==> jobs[k].serial !in dropped)
    && (forall n :: n in dropped ==> n < submitted)
  }

  ghost predicate QueueInv(q: Queue) {
    && CountersOk(q.jobs, q.counters)
    && LanesOk(q.jobs, q.lanes, q.config)
    && SessionsOk(q.jobs, q.sessions, q.config)
    && OrderOk(q.jobs, q.counters.submitted)
    && BackpressureOk(q.jobs, q.config)
    && SteerOk(q.jobs)
    && DroppedOk(q.jobs, q.dropped, q.counters.submitted)
  }

  // ---- counting --------------------------------------------------------------------------------

  lemma {:induction false} CountUpdate(jobs: seq<Job>, f: Job -> bool, i: nat, j: Job)
    requires i < |jobs|
    ensures Count(jobs[i := j], f) + (if f(jobs[i]) then 1 else 0) == Count(jobs, f) + if f(j) then 1 else 0
  {
    var init := jobs[..|jobs| - 1];
    var upd := jobs[i := j];
    if i < |init| {
      assert upd[..|upd| - 1] == init[i := j];
      CountUpdate(init, f, i, j);
    } else {
      assert upd[..|upd| - 1] == init;
    }
  }

  lemma CountAppend(jobs: seq<Job>, f: Job -> bool, j: Job)
    ensures Count(jobs + [j], f) == Count(jobs, f) + if f(j) then 1 else 0
  {
    assert (jobs + [j])[..|jobs|] == jobs;
  }

  lemma {:induction false} CountDelete(jobs: seq<Job>, f: Job -> bool, i: nat)
    requires i < |jobs|
    ensures Count(jobs[..i] + jobs[i + 1..], f) + (if f(jobs[i]) then 1 else 0) == Count(jobs, f)
  {
    var init := jobs[..|jobs| - 1];
    var rest := jobs[..i] + jobs[i + 1..];
    if i < |init| {
      assert rest[..|rest| - 1] == init[..i] + init[i + 1..];
      CountDelete(init, f, i);
    } else {
      assert rest == init;
    }
  }

  lemma {:induction false} CountPositive(jobs: seq<Job>, f: Job -> bool, i: nat)
    requires i < |jobs| && f(jobs[i])
    ensures Count(jobs, f) > 0
  {
    if i < |jobs| - 1 { CountPositive(jobs[..|jobs| - 1], f, i); }
  }

  lemma {:induction false} CountZero(jobs: seq<Job>, f: Job -> bool)
    requires forall k :: 0 <= k < |jobs| ==> !f(jobs[k])
    ensures Count(jobs, f) == 0
  {
    if jobs != [] { CountZero(jobs[..|jobs| - 1], f); }
  }

  /** A predicate that is no larger afterwards is counted no more often. */
  lemma {:induction false} CountLess(jobs: seq<Job>, jobs': seq<Job>, f: Job -> bool)
    requires |jobs| == |jobs'| && forall k :: 0 <= k < |jobs| && f(jobs'[k]) ==> f(jobs[k])
    ensures Count(jobs', f) <= Count(jobs, f)
  {
    if jobs != [] { CountLess(jobs[..|jobs| - 1], jobs'[..|jobs| - 1], f); }
  }

  // ---- replacing one job by a later version of itself ------------------------------------------

  /** j' is j at a later time. */
  predicate Later(j: Job, j': Job) {
    && j'.id == j.id && j'.session == j.session && j'.lane == j.lane && j'.action == j.action
    && j'.serial == j.serial
    && (j'.state == Pending ==> j.state == Pending)
    && (j'.state == Running ==> (j.state == Running && (j.cancelled ==> j'.cancelled)) || j.state == Pending)
  }

  lemma OrderUpdate(jobs: seq<Job>, submitted: nat, i: nat, j: Job)
    requires OrderOk(jobs, submitted) && i < |jobs| && Later(jobs[i], j)
    ensures OrderOk(jobs[i := j], submitted)
  {
  }

  lemma SteerUpdate(jobs: seq<Job>, i: nat, j: Job)
    requires SteerOk(jobs) && i < |jobs| && Later(jobs[i], j)
    ensures SteerOk(jobs[i := j])
  {
  }

  lemma BackpressureUpdate(jobs: seq<Job>, config: Config, i: nat, j: Job)
    requires BackpressureOk(jobs, config) && i < |jobs| && Later(jobs[i], j)
    ensures BackpressureOk(jobs[i := j], config)
  {
    forall key
      ensures Count(jobs[i := j], PendingOf(key)) <= Count(jobs, PendingOf(key))
    {
      CountUpdate(jobs, PendingOf(key), i, j);
    }
  }

  lemma StateCounts(jobs: seq<Job>, i: nat, j: Job)
    requires i < |jobs|
    ensures Count(jobs[i := j], In(Pending)) + (if jobs[i].state == Pending then 1 else 0)
         == Count(jobs, In(Pending)) + (if j.state == Pending then 1 else 0)
    ensures Count(jobs[i := j], In(Running)) + (if jobs[i].state == Running then 1 else 0)
         == Count(jobs, In(Running)) + (if j.state == Running then 1 else 0)
    ensures Count(jobs[i := j], In(Completed)) + (if jobs[i].state == Completed then 1 else 0)
         == Count(jobs, In(Completed)) + (if j.state == Completed then 1 else 0)
    ensures Count(jobs, In(jobs[i].state)) > 0
  {
    CountUpdate(jobs, In(Pending), i, j);
    CountUpdate(jobs, In(Running), i, j);
    CountUpdate(jobs, In(Completed), i, j);
    CountPositive(jobs, In(jobs[i].state), i);
  }

  /** Lanes and sessions only see which jobs run. */
  lemma LanesSame(jobs: seq<Job>, lanes: seq<nat>, config: Config, i: nat, j: Job)
    requires LanesOk(jobs, lanes, config) && i < |jobs| && Later(jobs[i], j)
    requires (j.state == Running) == (jobs[i].state == Running)
    ensures LanesOk(jobs[i := j], lanes, config)
  {
    forall l: nat | l < |lanes|
      ensures lanes[l] == Count(jobs[i := j], RunningIn(l))
    {
      CountUpdate(jobs, RunningIn(l), i, j);
    }
  }

  lemma SessionsSame(jobs: seq<Job>, sessions: seq<Session>, config: Config, i: nat, j: Job)
    requires SessionsOk(jobs, sessions, config) && i < |jobs| && Later(jobs[i], j)
    requires (j.state == Running) == (jobs[i].state == Running)
    ensures SessionsOk(jobs[i := j], sessions, config)
  {
    forall s | 0 <= s < |sessions|
      ensures sessions[s].inFlight == Count(jobs[i := j], RunningOf(sessions[s].key))
    {
      CountUpdate(jobs, RunningOf(sessions[s].key), i, j);
    }
    var upd := jobs[i := j];
    forall k | 0 <= k < |upd| && upd[k].state == Running
      ensures Tracked(sessions, upd[k].session)
    {
      assert jobs[k].state == Running;
    }
  }

  // ---- the transitions -------------------------------------------------------------------------

  lemma InitInv(config: Config)
    ensures QueueInv(Init(config))
  {
    hide Count;
    CountEmpty();
  }

  lemma CountEmpty()
    ensures forall f :: Count([], f) == 0
  {
  }

  lemma CompletePendingInv(q: Queue, i: nat, now: nat)
    requires QueueInv(q) && i < |q.jobs|
    ensures QueueInv(CompletePending(q, i, now))
  {
    hide CountersOk, LanesOk, SessionsOk, OrderOk, BackpressureOk, SteerOk, DroppedOk, Count;
    if q.jobs[i].state == Pending {
      var j := q.jobs[i].(state := Completed, result := Cancelled, cancelled := true, completedAt := now);
      LanesSame(q.jobs, q.lanes, q.config, i, j);
      SessionsSame(q.jobs, q.sessions, q.config, i, j);
      OrderUpdate(q.jobs, q.counters.submitted, i, j);
      BackpressureUpdate(q.jobs, q.config, i, j);
      SteerUpdate(q.jobs, i, j);
      CompletedCounters(q, i, now);
      DroppedMore(q, i, now);
    }
  }

  lemma CompletedCounters(q: Queue, i: nat, now: nat)
    requires CountersOk(q.jobs, q.counters) && i < |q.jobs| && q.jobs[i].state == Pending
    ensures CountersOk(CompletePending(q, i, now).jobs, CompletePending(q, i, now).counters)
  {
    StateCounts(q.jobs, i, CompletePending(q, i, now).jobs[i]);
  }

  lemma DroppedMore(q: Queue, i: nat, now: nat)
    requires DroppedOk(q.jobs, q.dropped, q.counters.submitted) && OrderOk(q.jobs, q.counters.submitted)
    requires i < |q.jobs| && q.jobs[i].state == Pending
    ensures DroppedOk(CompletePending(q, i, now).jobs, CompletePending(q, i, now).dropped, q.counters.submitted)
  {
  }

  lemma CancelTokenInv(q: Queue, i: nat)
    requires QueueInv(q) && i < |q.jobs|
    ensures QueueInv(CancelToken(q, i))
  {
    FlagInv(q, i, q.jobs[i].(cancelled := true));
  }

  /** A change that touches no state: the cancel token, the abandoned mark. */
  lemma FlagInv(q: Queue, i: nat, j: Job)
    requires QueueInv(q) && i < |q.jobs| && Later(q.jobs[i], j) && j.state == q.jobs[i].state
    ensures QueueInv(q.(jobs := q.jobs[i := j]))
  {
    hide LanesOk, SessionsOk, OrderOk, BackpressureOk, SteerOk, Count;
    LanesSame(q.jobs, q.lanes, q.config, i, j);
    SessionsSame(q.jobs, q.sessions, q.config, i, j);
    OrderUpdate(q.jobs, q.counters.submitted, i, j);
    BackpressureUpdate(q.jobs, q.config, i, j);
    SteerUpdate(q.jobs, i, j);
    StateCounts(q.jobs, i, j);
  }

  lemma AbandonedCountInv(q: Queue, n: nat)
    requires QueueInv(q)
    ensures QueueInv(q.(counters := q.counters.(abandoned := n)))
  {
  }

  lemma GenerationInv(q: Queue, s: nat)
    requires QueueInv(q) && s < |q.sessions|
    ensures QueueInv(q.(sessions := q.sessions[s := q.sessions[s].(generation := q.sessions[s].generation + 1)]))
  {
    hide Count, CountersOk, LanesOk, OrderOk, BackpressureOk, SteerOk, DroppedOk;
    var sessions := q.sessions[s := q.sessions[s].(generation := q.sessions[s].generation + 1)];
    forall k | 0 <= k < |q.jobs| && q.jobs[k].state == Running
      ensures Tracked(sessions, q.jobs[k].session)
    {
      var t :| 0 <= t < |q.sessions| && q.sessions[t].key == q.jobs[k].session;
      assert sessions[t].key == q.jobs[k].session;
    }
  }

  // ---- starting --------------------------------------------------------------------------------

  lemma TrackInv(q: Queue, key: string)
    requires QueueInv(q)
    ensures QueueInv(Track(q, key))
    ensures Track(q, key) == q.(sessions := Track(q, key).sessions)
  {
    hide CountersOk, LanesOk, OrderOk, BackpressureOk, SteerOk, DroppedOk;
    if Track(q, key) != q { TrackSessions(q.jobs, q.sessions, q.config, key); }
  }

  lemma TrackSessions(jobs: seq<Job>, sessions: seq<Session>, config: Config, key: string)
    requires SessionsOk(jobs, sessions, config) && |sessions| < MAX_SESSIONS
    requires FindSession(sessions, key, 0) == |sessions|
    ensures SessionsOk(jobs, sessions + [Session(key, 0, 0)], config)
  {
    var more := sessions + [Session(key, 0, 0)];
    forall k | 0 <= k < |jobs| && jobs[k].state == Running
      ensures Tracked(more, jobs[k].session) && jobs[k].session != key
    {
      var s :| 0 <= s < |sessions| && sessions[s].key == jobs[k].session;
      assert more[s].key == jobs[k].session;
    }
    CountZero(jobs, RunningOf(key));
  }

  lemma StartInv(q: Queue, i: nat, s: nat)
    requires QueueInv(q) && i < |q.jobs| && q.jobs[i].state == Pending
    requires s < |q.sessions| && q.sessions[s].key == q.jobs[i].session && q.jobs[i].lane < |q.lanes|
    requires CanRun(q, s, q.jobs[i].lane)
    ensures QueueInv(Start(q, i, s))
  {
    hide CountersOk, LanesOk, SessionsOk, OrderOk, BackpressureOk, SteerOk, Count;
    var j := q.jobs[i].(state := Running);
    StartLanes(q, i, s);
    StartSessions(q, i, s);
    StartCounters(q, i, s);
    OrderUpdate(q.jobs, q.counters.submitted, i, j);
    BackpressureUpdate(q.jobs, q.config, i, j);
    SteerUpdate(q.jobs, i, j);
  }

  lemma StartCounters(q: Queue, i: nat, s: nat)
    requires CountersOk(q.jobs, q.counters) && i < |q.jobs| && q.jobs[i].state == Pending
    requires s < |q.sessions| && q.jobs[i].lane < |q.lanes|
    ensures CountersOk(Start(q, i, s).jobs, Start(q, i, s).counters)
  {
    StateCounts(q.jobs, i, q.jobs[i].(state := Running));
  }

  lemma StartLanes(q: Queue, i: nat, s: nat)
    requires LanesOk(q.jobs, q.lanes, q.config) && i < |q.jobs| && q.jobs[i].state == Pending
    requires s < |q.sessions| && q.jobs[i].lane < |q.lanes| && CanRun(q, s, q.jobs[i].lane)
    ensures LanesOk(Start(q, i, s).jobs, Start(q, i, s).lanes, q.config)
  {
    var r := Start(q, i, s);
    forall l: nat | l < |r.lanes|
      ensures r.lanes[l] == Count(r.jobs, RunningIn(l)) && r.lanes[l] <= LaneLimit(q.config, l)
    {
      assert q.lanes[l] == Count(q.jobs, RunningIn(l));
      CountUpdate(q.jobs, RunningIn(l), i, r.jobs[i]);
    }
  }

  lemma StartSessions(q: Queue, i: nat, s: nat)
    requires SessionsOk(q.jobs, q.sessions, q.config) && i < |q.jobs| && q.jobs[i].state == Pending
    requires s < |q.sessions| && q.sessions[s].key == q.jobs[i].session
    requires q.jobs[i].lane < |q.lanes| && CanRun(q, s, q.jobs[i].lane)
    ensures SessionsOk(Start(q, i, s).jobs, Start(q, i, s).sessions, q.config)
  {
    var r := Start(q, i, s);
    forall t | 0 <= t < |r.sessions|
      ensures r.sessions[t].inFlight == Count(r.jobs, RunningOf(r.sessions[t].key))
      ensures r.sessions[t].inFlight <= Limit(q.config.perSession)
    {
      assert q.sessions[t].inFlight == Count(q.jobs, RunningOf(q.sessions[t].key));
      CountUpdate(q.jobs, RunningOf(q.sessions[t].key), i, r.jobs[i]);
    }
    forall k | 0 <= k < |r.jobs| && r.jobs[k].state == Running
      ensures Tracked(r.sessions, r.jobs[k].session)
    {
      if k == i {
        assert r.sessions[s].key == r.jobs[k].session;
      } else {
        assert q.jobs[k].state == Running;
        var t :| 0 <= t < |q.sessions| && q.sessions[t].key == q.jobs[k].session;
        assert r.sessions[t].key == r.jobs[k].session;
      }
    }
  }

  // ---- finishing -------------------------------------------------------------------------------

  lemma FinishRunningInv(q: Queue, i: nat, result: Status, now: nat)
    requires QueueInv(q) && i < |q.jobs| && q.jobs[i].state == Running
    ensures QueueInv(FinishRunning(q, i, result, now))
  {
    hide CountersOk, LanesOk, SessionsOk, OrderOk, BackpressureOk, SteerOk, Count, LeaveSession;
    var j := q.jobs[i].(state := Completed, result := result, completedAt := now);
    FinishLanes(q, i, result, now);
    FinishSessions(q.jobs, q.sessions, q.config, i, j);
    FinishCounters(q, i, result, now);
    OrderUpdate(q.jobs, q.counters.submitted, i, j);
    BackpressureUpdate(q.jobs, q.config, i, j);
    SteerUpdate(q.jobs, i, j);
  }

  lemma FinishCounters(q: Queue, i: nat, result: Status, now: nat)
    requires CountersOk(q.jobs, q.counters) && i < |q.jobs| && q.jobs[i].state == Running
    ensures CountersOk(FinishRunning(q, i, result, now).jobs, FinishRunning(q, i, result, now).counters)
  {
    StateCounts(q.jobs, i, FinishRunning(q, i, result, now).jobs[i]);
  }

  lemma FinishLanes(q: Queue, i: nat, result: Status, now: nat)
    requires LanesOk(q.jobs, q.lanes, q.config) && i < |q.jobs| && q.jobs[i].state == Running
    ensures LanesOk(FinishRunning(q, i, result, now).jobs, FinishRunning(q, i, result, now).lanes, q.config)
  {
    hide LeaveSession;
    var r := FinishRunning(q, i, result, now);
    forall l: nat | l < |r.lanes|
      ensures r.lanes[l] == Count(r.jobs, RunningIn(l)) && r.lanes[l] <= LaneLimit(q.config, l)
    {
      assert q.lanes[l] == Count(q.jobs, RunningIn(l));
      CountUpdate(q.jobs, RunningIn(l), i, r.jobs[i]);
    }
  }

  /** The entry of the finished job's session is decremented, and dropped when it becomes idle. */
  lemma FinishSessions(jobs: seq<Job>, sessions: seq<Session>, config: Config, i: nat, j: Job)
    requires SessionsOk(jobs, sessions, config) && i < |jobs| && jobs[i].state == Running
    requires Later(jobs[i], j) && j.state == Completed
    ensures SessionsOk(jobs[i := j], LeaveSession(sessions, j.session), config)
  {
    hide RemoveIdle;
    assert Tracked(sessions, jobs[i].session);
    var s := FindSession(sessions, j.session, 0);
    CountPositive(jobs, RunningOf(j.session), i);
    var left := sessions[s := sessions[s].(inFlight := Dec(sessions[s].inFlight))];
    forall t | 0 <= t < |left|
      ensures left[t].inFlight == Count(jobs[i := j], RunningOf(left[t].key))
    {
      CountUpdate(jobs, RunningOf(sessions[t].key), i, j);
    }
    forall k | 0 <= k < |jobs| && jobs[i := j][k].state == Running
      ensures Tracked(left, jobs[k].session)
    {
      assert jobs[k].state == Running;
      var t :| 0 <= t < |sessions| && sessions[t].key == jobs[k].session;
      assert left[t].key == jobs[k].session;
    }
    RemoveIdleOk(jobs[i := j], left, config, s);
  }

  lemma RemoveIdleOk(jobs: seq<Job>, sessions: seq<Session>, config: Config, s: nat)
    requires SessionsOk(jobs, sessions, config) && s < |sessions|
    ensures SessionsOk(jobs, RemoveIdle(sessions, s), config)
  {
    if sessions[s].inFlight == 0 {
      var rest := RemoveIdle(sessions, s);
      var last := |sessions| - 1;
      forall k | 0 <= k < |jobs| && jobs[k].state == Running
        ensures Tracked(rest, jobs[k].session)
      {
        var t :| 0 <= t < |sessions| && sessions[t].key == jobs[k].session;
        if t == s { CountPositive(jobs, RunningOf(sessions[s].key), k); }
        assert rest[if t == last then s else t].key == jobs[k].session;
      }
    }
  }

  // ---- the list itself -------------------------------------------------------------------------

  lemma RemoveInv(q: Queue, i: nat)
    requires QueueInv(q) && i < |q.jobs| && q.jobs[i].state == Completed
    ensures QueueInv(Remove(q, i))
  {
    hide CountersOk, LanesOk, SessionsOk, OrderOk, BackpressureOk, SteerOk, DroppedOk, Count;
    RemoveCounters(q, i);
    RemoveLanes(q.jobs, q.lanes, q.config, i);
    RemoveSessions(q.jobs, q.sessions, q.config, i);
    RemoveBackpressure(q.jobs, q.config, i);
    RemoveOrder(q.jobs, q.counters.submitted, q.dropped, i);
  }

  lemma RemoveCounters(q: Queue, i: nat)
    requires CountersOk(q.jobs, q.counters) && i < |q.jobs| && q.jobs[i].state == Completed
    ensures CountersOk(Remove(q, i).jobs, Remove(q, i).counters)
  {
    CountDelete(q.jobs, In(Pending), i);
    CountDelete(q.jobs, In(Running), i);
    CountDelete(q.jobs, In(Completed), i);
  }

  lemma RemoveLanes(jobs: seq<Job>, lanes: seq<nat>, config: Config, i: nat)
    requires LanesOk(jobs, lanes, config) && i < |jobs| && jobs[i].state == Completed
    ensures LanesOk(jobs[..i] + jobs[i + 1..], lanes, config)
  {
    forall l: nat | l < |lanes|
      ensures lanes[l] == Count(jobs[..i] + jobs[i + 1..], RunningIn(l))
    {
      CountDelete(jobs, RunningIn(l), i);
    }
  }

  lemma RemoveSessions(jobs: seq<Job>, sessions: seq<Session>, config: Config, i: nat)
    requires SessionsOk(jobs, sessions, config) && i < |jobs| && jobs[i].state == Completed
    ensures SessionsOk(jobs[..i] + jobs[i + 1..], sessions, config)
  {
    var rest := jobs[..i] + jobs[i + 1..];
    forall s | 0 <= s < |sessions|
      ensures sessions[s].inFlight == Count(rest, RunningOf(sessions[s].key))
    {
      CountDelete(jobs, RunningOf(sessions[s].key), i);
    }
    forall k | 0 <= k < |rest| && rest[k].state == Running
      ensures Tracked(sessions, rest[k].session)
    {
      assert rest[k] == jobs[if k < i then k else k + 1];
    }
  }

  lemma RemoveBackpressure(jobs: seq<Job>, config: Config, i: nat)
    requires BackpressureOk(jobs, config) && i < |jobs|
    ensures BackpressureOk(jobs[..i] + jobs[i + 1..], config)
  {
    forall key
      ensures Count(jobs[..i] + jobs[i + 1..], PendingOf(key)) <= Count(jobs, PendingOf(key))
    {
      CountDelete(jobs, PendingOf(key), i);
    }
  }

  lemma RemoveOrder(jobs: seq<Job>, submitted: nat, dropped: set<nat>, i: nat)
    requires OrderOk(jobs, submitted) && SteerOk(jobs) && DroppedOk(jobs, dropped, submitted) && i < |jobs|
    ensures OrderOk(jobs[..i] + jobs[i + 1..], submitted)
    ensures SteerOk(jobs[..i] + jobs[i + 1..])
    ensures DroppedOk(jobs[..i] + jobs[i + 1..], dropped, submitted)
  {
    var rest := jobs[..i] + jobs[i + 1..];
    assert forall k :: 0 <= k < |rest| ==> rest[k] == jobs[if k < i then k else k + 1];
  }

  /** What the head of submit has established about the queue when the new job is appended. */
  ghost predicate Admits(q: Queue, id: nat, r: Request) {
    && r.lane < LANES
    && FindJob(q.jobs, id, 0) == |q.jobs|
    && (q.config.maxTotal > 0 ==> |q.jobs| < q.config.maxTotal)
    && (q.config.maxPending > 0 ==> Count(q.jobs, PendingOf(r.session)) < q.config.maxPending)
    && (r.action == Steer || r.action == Interrupt ==>
          forall k :: 0 <= k < |q.jobs| && q.jobs[k].session == r.session ==>
            q.jobs[k].state != Pending && (q.jobs[k].state == Running ==> q.jobs[k].cancelled))
  }

  lemma AppendInv(q: Queue, id: nat, r: Request)
    requires QueueInv(q) && Admits(q, id, r)
    ensures QueueInv(Append(q, id, r))
  {
    hide CountersOk, LanesOk, SessionsOk, BackpressureOk, SteerOk, Count;
    var j := Append(q, id, r).jobs[|q.jobs|];
    AppendCounters(q, id, r);
    AppendLanes(q.jobs, q.lanes, q.config, j);
    AppendSessions(q.jobs, q.sessions, q.config, j);
    AppendBackpressure(q, id, r);
    AppendSteer(q, id, r);
  }

  lemma AppendCounters(q: Queue, id: nat, r: Request)
    requires CountersOk(q.jobs, q.counters)
    ensures CountersOk(Append(q, id, r).jobs, Append(q, id, r).counters)
  {
    var j := Append(q, id, r).jobs[|q.jobs|];
    CountAppend(q.jobs, In(Pending), j);
    CountAppend(q.jobs, In(Running), j);
    CountAppend(q.jobs, In(Completed), j);
  }

  lemma AppendLanes(jobs: seq<Job>, lanes: seq<nat>, config: Config, j: Job)
    requires LanesOk(jobs, lanes, config) && j.state == Pending
    ensures LanesOk(jobs + [j], lanes, config)
  {
    forall l: nat | l < |lanes|
      ensures lanes[l] == Count(jobs + [j], RunningIn(l))
    {
      CountAppend(jobs, RunningIn(l), j);
    }
  }

  lemma AppendSessions(jobs: seq<Job>, sessions: seq<Session>, config: Config, j: Job)
    requires SessionsOk(jobs, sessions, config) && j.state == Pending
    ensures SessionsOk(jobs + [j], sessions, config)
  {
    forall s | 0 <= s < |sessions|
      ensures sessions[s].inFlight == Count(jobs + [j], RunningOf(sessions[s].key))
    {
      CountAppend(jobs, RunningOf(sessions[s].key), j);
    }
  }

  lemma AppendBackpressure(q: Queue, id: nat, r: Request)
    requires BackpressureOk(q.jobs, q.config) && Admits(q, id, r)
    ensures BackpressureOk(Append(q, id, r).jobs, q.config)
  {
    var j := Append(q, id, r).jobs[|q.jobs|];
    forall key
      ensures Count(q.jobs + [j], PendingOf(key)) == Count(q.jobs, PendingOf(key)) + if key == r.session then 1 else 0
    {
      CountAppend(q.jobs, PendingOf(key), j);
    }
  }

  lemma AppendSteer(q: Queue, id: nat, r: Request)
    requires SteerOk(q.jobs) && Admits(q, id, r)
    ensures SteerOk(Append(q, id, r).jobs)
  {
  }
}
