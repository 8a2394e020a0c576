/**
 A run of the default configuration in which a job is cancelled although its lane is free and its session
 has nothing in flight. The scheduler registers the session of every pending job it looks at, even when
 the lane makes the job wait; the entry goes away only when a job of that session finishes. Sessions whose
 waiting jobs were interrupted therefore keep their entries, and 128 of them fill the table.
 */
module RunQueueStarvation {
  import opened Common
  import Core = RunQueueCore
  import opened RunQueueCore
  import opened RunQueueInvariant
  import opened RunQueueWorld
  import opened RunQueueTheorems

  const DEFAULT_CONFIG: Config := Config([1, 1, 1, 1], 1, 2, 256, 300000)
  const DEFAULT_WORKERS: nat := 4

  function Key(k: nat): string {
    seq(k, i => 'x')
  }

  /** One job runs in the main lane; k more sessions are tracked without any job. */
  ghost predicate Leaky(w: World, k: nat) {
    && w.q.config == DEFAULT_CONFIG && w.q.lanes == [1, 0, 0, 0] && !w.q.shuttingDown
    && |w.q.jobs| == 1 && w.q.jobs[0].id == 1 && w.q.jobs[0].state == Running && w.q.jobs[0].session == Key(0)
    && w.q.counters.total == 1
    && |w.q.sessions| == k + 1
    && (forall i :: 0 <= i < |w.q.sessions| ==> w.q.sessions[i].key == Key(i))
    && w.workers == [Claimed(0), Idle, Idle, Idle]
  }

  lemma KeyUntracked(sessions: seq<Session>, k: nat)
    requires |sessions| <= k && forall i :: 0 <= i < |sessions| ==> sessions[i].key == Key(i)
    ensures FindSession(sessions, Key(k), 0) == |sessions|
  {
    var s := FindSession(sessions, Key(k), 0);
    assert s < |sessions| ==> |Key(s)| == |Key(k)|;
  }

  /** A follow-up for a fresh session is appended behind the running job. */
  lemma SubmitFresh(q: Queue, r: Request, now: nat)
    requires q.config == DEFAULT_CONFIG && !q.shuttingDown && |q.jobs| == 1 && q.counters.total == 1
    requires q.jobs[0].id == 1 && q.jobs[0].state == Running && r.action == Followup && r.lane < LANES
    ensures Core.Submit(q, r, [2], now) == (Ok, 2, Append(q, 2, r))
  {
    assert PurgeFrom(q, now, 0) == PurgeFrom(q, now, 1) == q;
    assert Count(q.jobs, PendingOf(r.session)) == 0 by { CountZero(q.jobs, PendingOf(r.session)); }
    assert FindJob(q.jobs, 2, 0) == FindJob(q.jobs, 2, 1) == 1;
    assert CancelFrom(q, Some(r.session), false, false, now, 0)
        == CancelFrom(q, Some(r.session), false, false, now, 1) == q;
  }

  /** The scan registers the new session and leaves its job waiting for the lane. */
  lemma ScanRegisters(q: Queue, now: nat, k: nat)
    requires q.config == DEFAULT_CONFIG && q.lanes == [1, 0, 0, 0] && |q.jobs| == 2 && |q.sessions| == k + 1 < MAX_SESSIONS
    requires q.jobs[0].state == Running && q.jobs[1].state == Pending && q.jobs[1].lane == 0
    requires q.jobs[1].session == Key(k + 1)
    requires forall i :: 0 <= i < |q.sessions| ==> q.sessions[i].key == Key(i)
    ensures ScanFrom(q, now, 0) == (None, q.(sessions := q.sessions + [Session(Key(k + 1), 0, 0)]))
  {
    KeyUntracked(q.sessions, k + 1);
    var t := Track(q, Key(k + 1));
    var s := FindSession(t.sessions, Key(k + 1), 0);
    assert t.sessions[k + 1].key == Key(k + 1);
    assert !CanRun(t, s, 0);
    assert ScanFrom(q, now, 0) == ScanFrom(q, now, 1) == ScanFrom(t, now, 2) == (None, t);
  }

  lemma Forget(q: Queue, now: nat)
    requires |q.jobs| == 2 && q.jobs[0].id == 1 && q.jobs[1].id == 2 && q.jobs[1].state == Pending
    ensures Core.InterruptRun(q, 2, now).1 == CompletePending(q, 1, now)
    ensures CollectOnce(CompletePending(q, 1, now), 2).1 == Remove(CompletePending(q, 1, now), 1)
  {
    assert FindJob(q.jobs, 2, 0) == FindJob(q.jobs, 2, 1) == 1;
    var jobs := CompletePending(q, 1, now).jobs;
    assert FindJob(jobs, 2, 0) == FindJob(jobs, 2, 1) == 1;
  }

  /** Submit, schedule, interrupt, collect: one more idle session. */
  lemma LeakOne(w: World, k: nat) returns (w': World)
    requires Reachable(w) && Leaky(w, k) && k + 1 < MAX_SESSIONS
    ensures Reachable(w') && Leaky(w', k + 1)
  {
    hide Reachable, Core.Submit, ScanFrom, Core.InterruptRun, CollectOnce, FindSession, Key, Distinct;
    var r := Request(Key(k + 1), 0, Followup);
    var s0, s1, s2, s3 := Step(Submit(r, [2]), 0), Step(Poll(1), 0), Step(InterruptRun(2), 0), Step(Look(2), 0);
    var w1 := Next(w, s0);
    SubmitFresh(w.q, r, w.clock);
    assert w1.q == Append(w.q, 2, r);
    var w2 := Next(w1, s1);
    ScanRegisters(w1.q, w1.clock, k);
    assert w2.q == w1.q.(sessions := w1.q.sessions + [Session(Key(k + 1), 0, 0)]) && w2.workers == w.workers;
    var w3 := Next(w2, s2);
    Forget(w2.q, w2.clock);
    w' := Next(w3, s3);
    assert w'.q.jobs == w.q.jobs;
    ReachableNext(w, s0);
    ReachableNext(w1, s1);
    ReachableNext(w2, s2);
    ReachableNext(w3, s3);
  }

  lemma FirstSubmit(q: Queue, r: Request, now: nat)
    requires q == Core.Init(DEFAULT_CONFIG) && r.action == Followup && r.lane < LANES
    ensures Core.Submit(q, r, [1], now) == (Ok, 1, Append(q, 1, r))
  {
    assert PurgeFrom(q, now, 0) == q;
    assert CancelFrom(q, Some(r.session), false, false, now, 0) == q;
  }

  lemma FirstScan(q: Queue, r: Request, now: nat)
    requires q == Append(Core.Init(DEFAULT_CONFIG), 1, r) && r.lane == 0
    ensures ScanFrom(q, now, 0) == (Some(0), Start(q.(sessions := [Session(r.session, 0, 0)]), 0, 0))
  {
    var t := Track(q, r.session);
    assert t.sessions == [Session(r.session, 0, 0)];
    assert CanRun(t, 0, 0);
  }

  lemma LeakStart() returns (w: World)
    ensures Reachable(w) && Leaky(w, 0)
  {
    hide Core.Submit, ScanFrom, Reachable;
    var w0 := RunQueueWorld.Init(DEFAULT_CONFIG, DEFAULT_WORKERS);
    assert Reachable(w0) by { StartReachable(); }
    var r := Request(Key(0), 0, Followup);
    var s0, s1 := Step(Submit(r, [1]), 0), Step(Poll(0), 0);
    FirstSubmit(w0.q, r, w0.clock);
    var w1 := Next(w0, s0);
    FirstScan(w1.q, r, w1.clock);
    w := Next(w1, s1);
    ReachableNext(w0, s0);
    ReachableNext(w1, s1);
  }

  lemma StartReachable()
    ensures Reachable(RunQueueWorld.Init(DEFAULT_CONFIG, DEFAULT_WORKERS))
  {
    assert Run(DEFAULT_CONFIG, DEFAULT_WORKERS, []) == RunQueueWorld.Init(DEFAULT_CONFIG, DEFAULT_WORKERS);
  }

  lemma {:induction false} LeakMany(k: nat) returns (w: World)
    requires k < MAX_SESSIONS
    ensures Reachable(w) && Leaky(w, k)
  {
    if k == 0 {
      w := LeakStart();
    } else {
      w := LeakMany(k - 1);
      w := LeakOne(w, k - 1);
    }
  }

  /** The scan cannot register a session once 128 others are registered. */
  lemma ScanCancels(q: Queue, now: nat)
    requires |q.lanes| == LANES && |q.jobs| == 2 && |q.sessions| == MAX_SESSIONS
    requires q.jobs[0].state == Running && q.jobs[1].state == Pending && q.jobs[1].lane == 1
    requires q.jobs[1].session == Key(MAX_SESSIONS)
    requires forall i :: 0 <= i < |q.sessions| ==> q.sessions[i].key == Key(i)
    ensures ScanFrom(q, now, 0) == (None, CompletePending(q, 1, now))
  {
    KeyUntracked(q.sessions, MAX_SESSIONS);
    var c := CompletePending(q, 1, now);
    assert ScanFrom(q, now, 0) == ScanFrom(q, now, 1) == ScanFrom(c, now, 2) == (None, c);
  }

  /**
   In a reachable state a pending job has a free lane and a session with nothing in flight, one job runs in
   all, and yet the next scan cancels the pending job instead of starting it.
   */
  lemma IdleSessionsStarve() returns (w: World, i: nat)
    ensures Reachable(w) && w.q.config == DEFAULT_CONFIG && w.q.counters.inFlight == 1
    ensures |w.workers| == DEFAULT_WORKERS && w.workers[1] == Idle
    ensures i < |w.q.jobs| && w.q.jobs[i].state == Pending && w.q.jobs[i].lane < |w.q.lanes|
    ensures w.q.lanes[w.q.jobs[i].lane] == 0 && Count(w.q.jobs, RunningOf(w.q.jobs[i].session)) == 0
    ensures var w' := Next(w, Step(Poll(1), 0));
            i < |w'.q.jobs| && w'.q.jobs[i].serial == w.q.jobs[i].serial
            && w'.q.jobs[i].state == Completed && w'.q.jobs[i].result == Cancelled
  {
    hide Reachable, Core.Submit, ScanFrom, FindSession, Key;
    var w0 := LeakMany(MAX_SESSIONS - 1);
    var r := Request(Key(MAX_SESSIONS), 1, Followup);
    var s := Step(Submit(r, [2]), 0);
    SubmitFresh(w0.q, r, w0.clock);
    ReachableNext(w0, s);
    w, i := Next(w0, s), 1;
    assert w.q == Append(w0.q, 2, r);
    ScanCancels(w.q, w.clock);
    KeyLength(0);
    KeyLength(MAX_SESSIONS);
    CountZero(w.q.jobs, RunningOf(r.session));
    InFlightIsOne(w);
  }

  lemma KeyLength(k: nat)
    ensures |Key(k)| == k
  {
  }

  lemma InFlightIsOne(w: World)
    requires Reachable(w) && |w.q.jobs| == 2 && w.q.jobs[0].state == Running && w.q.jobs[1].state == Pending
    ensures w.q.counters.inFlight == 1
  {
    hide Reachable;
    Accounting(w);
    assert w.q.jobs == [w.q.jobs[0]] + [w.q.jobs[1]];
    CountAppend([w.q.jobs[0]], In(Running), w.q.jobs[1]);
    CountAppend([], In(Running), w.q.jobs[0]);
    assert [] + [w.q.jobs[0]] == [w.q.jobs[0]];
  }
}
