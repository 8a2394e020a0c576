/**
 What one scan of the scheduler does, read off the state in which it begins: which job it starts, and which
 jobs it cancels because their session finds no place in the session table.
 */
module RunQueueScan {
  import opened Common
  import opened RunQueueCore
  import opened RunQueueInvariant
  import opened RunQueueWorld
  import opened RunQueueTheorems

  // ---- the state before the scan ------------------------------------------------------------------

  /** The sessions that the scan meets for the first time among the pending jobs before position i. */
  function Newcomers(q: Queue, i: nat): set<string>
    requires i <= |q.jobs|
  {
    if i == 0 then {}
    else
      var j := q.jobs[i - 1];
      Newcomers(q, i - 1) + if j.state == Pending && !Tracked(q.sessions, j.session) then {j.session} else {}
  }

  /** The position of the first pending job of a session, or the length of the list. */
  function FirstPending(jobs: seq<Job>, key: string, i: nat): (r: nat)
    requires i <= |jobs|
    ensures i <= r <= |jobs|
    ensures r < |jobs| ==> jobs[r].state == Pending && jobs[r].session == key
    ensures forall k :: i <= k < r ==> jobs[k].state != Pending || jobs[k].session != key
    decreases |jobs| - i
  {
    if i == |jobs| || (jobs[i].state == Pending && jobs[i].session == key) then i else FirstPending(jobs, key, i + 1)
  }

  /** The session has no entry, and by its first pending job the table is full. */
  predicate Crowded(q: Queue, key: string) {
    !Tracked(q.sessions, key) && |q.sessions| + |Newcomers(q, FirstPending(q.jobs, key, 0))| >= 128
  }

  function SessionLoad(sessions: seq<Session>, key: string): nat {
    var s := FindSession(sessions, key, 0);
    if s < |sessions| then sessions[s].inFlight else 0
  }

  /** Both limits leave room for the job. */
  predicate Fits(q: Queue, j: Job) {
    j.lane < |q.lanes| && SessionLoad(q.sessions, j.session) < Limit(q.config.perSession)
    && q.lanes[j.lane] < LaneLimit(q.config, j.lane)
  }

  predicate Startable(q: Queue, j: Job) {
    j.state == Pending && !Crowded(q, j.session) && Fits(q, j)
  }

  function Dropped(j: Job, now: nat): Job {
    j.(state := Completed, result := Cancelled, cancelled := true, completedAt := now)
  }

  /** What a scan that passes the job makes of it. */
  function Outcome(q: Queue, j: Job, now: nat): Job {
    if j.state == Pending && Crowded(q, j.session) then Dropped(j, now) else j
  }

  // ---- the session table during the scan ----------------------------------------------------------

  lemma {:induction false} NewcomersGrow(q: Queue, i: nat, k: nat)
    requires i <= k <= |q.jobs|
    ensures Newcomers(q, i) <= Newcomers(q, k) && |Newcomers(q, i)| <= |Newcomers(q, k)|
    decreases k
  {
    if i < k {
      NewcomersGrow(q, i, k - 1);
      SetBigger(Newcomers(q, i), Newcomers(q, k));
    }
  }

  lemma SetBigger(a: set<string>, b: set<string>)
    requires a <= b
    ensures |a| <= |b|
  {
    assert b == a + (b - a);
  }

  lemma {:induction false} NewcomersAre(q: Queue, i: nat, key: string)
    requires i <= |q.jobs|
    ensures key in Newcomers(q, i) <==> !Tracked(q.sessions, key) && FirstPending(q.jobs, key, 0) < i
    decreases i
  {
    if i > 0 { NewcomersAre(q, i - 1, key); }
  }

  /** The session has an entry when the scan has passed the jobs before position i. */
  predicate Entered(q: Queue, key: string, i: nat)
    requires i <= |q.jobs|
  {
    Tracked(q.sessions, key) || (FirstPending(q.jobs, key, 0) < i && !Crowded(q, key))
  }

  /** The table after the jobs before position i: the old entries, and one for every newcomer that finds a place. */
  ghost predicate TableAt(q: Queue, sessions: seq<Session>, i: nat)
    requires i <= |q.jobs|
  {
    && (forall key :: Tracked(sessions, key) <==> Entered(q, key, i))
    && (forall key :: SessionLoad(sessions, key) == SessionLoad(q.sessions, key))
    && |sessions| == Min(MAX_SESSIONS, |q.sessions| + |Newcomers(q, i)|)
  }

  function Min(a: nat, b: nat): nat {
    if a <= b then a else b
  }

  lemma FoundIsTracked(sessions: seq<Session>, key: string)
    ensures FindSession(sessions, key, 0) < |sessions| <==> Tracked(sessions, key)
  {
    var s := FindSession(sessions, key, 0);
    if s < |sessions| { assert sessions[s].key == key; }
  }

  /** A job that brings no newcomer leaves the table as it is. */
  lemma TableSame(q: Queue, sessions: seq<Session>, i: nat)
    requires i < |q.jobs| && TableAt(q, sessions, i)
    requires Newcomers(q, i + 1) == Newcomers(q, i)
    ensures TableAt(q, sessions, i + 1)
  {
    hide Tracked, SessionLoad, Newcomers, Crowded, FirstPending;
    forall key
      ensures Entered(q, key, i + 1) <==> Entered(q, key, i)
    {
      NewcomersAre(q, i, key);
      NewcomersAre(q, i + 1, key);
    }
  }

  /** A pending job finds its session's entry, gets a new one, or is crowded out. */
  lemma TableStep(q: Queue, sessions: seq<Session>, i: nat)
    requires i < |q.jobs| && TableAt(q, sessions, i) && q.jobs[i].state == Pending && |q.sessions| <= MAX_SESSIONS
    ensures var key := q.jobs[i].session;
            var table := if !Tracked(sessions, key) && |sessions| < MAX_SESSIONS then sessions + [Session(key, 0, 0)]
                         else sessions;
            && TableAt(q, table, i + 1)
            && (Tracked(table, key) <==> !Crowded(q, key))
  {
    hide TableAt, Crowded, SessionLoad, Tracked, FirstPending;
    var key := q.jobs[i].session;
    var first := FirstPending(q.jobs, key, 0);
    assert first <= i;
    TableFacts(q, sessions, i, key);
    NewcomersAre(q, i, key);
    NewcomersGrow(q, first, i);
    CrowdedIs(q, key);
    if Tracked(q.sessions, key) || first < i {
      NewcomersAgain(q, i);
      TableSame(q, sessions, i);
      TableFacts(q, sessions, i + 1, key);
      if !Tracked(sessions, key) { TableFull(q, sessions, i, first); }
    } else {
      assert Newcomers(q, i + 1) == Newcomers(q, i) + {key};
      if |sessions| < MAX_SESSIONS {
        TableGrows(q, sessions, i);
      } else {
        TableStays(q, sessions, i);
      }
    }
  }

  lemma CrowdedIs(q: Queue, key: string)
    ensures Crowded(q, key) <==>
              !Tracked(q.sessions, key) && |q.sessions| + |Newcomers(q, FirstPending(q.jobs, key, 0))| >= 128
  {
  }

  lemma TableFacts(q: Queue, sessions: seq<Session>, i: nat, key: string)
    requires i <= |q.jobs| && TableAt(q, sessions, i)
    ensures Tracked(sessions, key) <==>
              Tracked(q.sessions, key) || (FirstPending(q.jobs, key, 0) < i && !Crowded(q, key))
    ensures |sessions| == Min(MAX_SESSIONS, |q.sessions| + |Newcomers(q, i)|)
  {
    hide Tracked, Crowded, FirstPending, Newcomers, SessionLoad;
  }

  lemma NewcomersAgain(q: Queue, i: nat)
    requires i < |q.jobs| && q.jobs[i].state == Pending
    requires Tracked(q.sessions, q.jobs[i].session) || FirstPending(q.jobs, q.jobs[i].session, 0) < i
    ensures Newcomers(q, i + 1) == Newcomers(q, i)
  {
    hide Tracked, FirstPending;
    NewcomersAre(q, i, q.jobs[i].session);
  }

  /** Where a session was crowded out, the table is and stays full. */
  lemma TableFull(q: Queue, sessions: seq<Session>, i: nat, first: nat)
    requires first <= i <= |q.jobs| && TableAt(q, sessions, i)
    requires |q.sessions| + |Newcomers(q, first)| >= MAX_SESSIONS
    ensures |sessions| == MAX_SESSIONS
  {
    hide Tracked, Crowded, FirstPending, Newcomers, SessionLoad;
    NewcomersGrow(q, first, i);
  }

  lemma TableGrows(q: Queue, sessions: seq<Session>, i: nat)
    requires i < |q.jobs| && TableAt(q, sessions, i) && q.jobs[i].state == Pending
    requires var key := q.jobs[i].session;
             && !Tracked(q.sessions, key) && FirstPending(q.jobs, key, 0) == i
             && Newcomers(q, i + 1) == Newcomers(q, i) + {key} && key !in Newcomers(q, i)
    requires |sessions| < MAX_SESSIONS
    ensures var key := q.jobs[i].session;
            TableAt(q, sessions + [Session(key, 0, 0)], i + 1) && !Crowded(q, key)
            && Tracked(sessions + [Session(key, 0, 0)], key)
  {
    hide FirstPending, Newcomers, Tracked, SessionLoad, Crowded;
    var key := q.jobs[i].session;
    var table := sessions + [Session(key, 0, 0)];
    CrowdedIs(q, key);
    TableFacts(q, sessions, i, key);
    forall k
      ensures Tracked(table, k) <==> Entered(q, k, i + 1)
      ensures SessionLoad(table, k) == SessionLoad(q.sessions, k)
    {
      Entry(sessions, key, k);
      TableFacts(q, sessions, i, k);
      AtOnce(q, i, k);
    }
  }

  lemma AtOnce(q: Queue, i: nat, k: string)
    requires i < |q.jobs|
    ensures k != q.jobs[i].session ==> (FirstPending(q.jobs, k, 0) < i + 1 <==> FirstPending(q.jobs, k, 0) < i)
  {
  }

  lemma Entry(sessions: seq<Session>, key: string, k: string)
    requires !Tracked(sessions, key)
    ensures var table := sessions + [Session(key, 0, 0)];
            && (Tracked(table, k) <==> Tracked(sessions, k) || k == key)
            && SessionLoad(table, k) == SessionLoad(sessions, k)
  {
    var x := Session(key, 0, 0);
    var table := sessions + [x];
    FindStable(sessions, x, k, 0);
    FoundIsTracked(sessions, k);
    assert table[|sessions|].key == key;
    assert forall s :: 0 <= s < |sessions| ==> table[s] == sessions[s];
    if Tracked(table, k) {
      var s :| 0 <= s < |table| && table[s].key == k;
    }
    if Tracked(sessions, k) {
      var s :| 0 <= s < |sessions| && sessions[s].key == k;
      assert table[s].key == k;
    }
    FoundIsTracked(table, k);
  }

  lemma TableStays(q: Queue, sessions: seq<Session>, i: nat)
    requires i < |q.jobs| && TableAt(q, sessions, i) && q.jobs[i].state == Pending && |q.sessions| <= MAX_SESSIONS
    requires var key := q.jobs[i].session;
             && !Tracked(q.sessions, key) && FirstPending(q.jobs, key, 0) == i
             && Newcomers(q, i + 1) == Newcomers(q, i) + {key} && key !in Newcomers(q, i)
    requires |sessions| >= MAX_SESSIONS
    ensures TableAt(q, sessions, i + 1) && Crowded(q, q.jobs[i].session) && !Tracked(sessions, q.jobs[i].session)
  {
    hide FirstPending, Newcomers, Tracked, SessionLoad, Crowded;
    var key := q.jobs[i].session;
    CrowdedIs(q, key);
    TableFacts(q, sessions, i, key);
    forall k
      ensures Tracked(sessions, k) <==> Entered(q, k, i + 1)
    {
      TableFacts(q, sessions, i, k);
      AtOnce(q, i, k);
    }
  }

  // ---- the scan -----------------------------------------------------------------------------------

  /** The state when the scan that began in q has passed the jobs before position i. */
  ghost predicate ScanAt(q: Queue, c: Queue, now: nat, i: nat) {
    && i <= |q.jobs| == |c.jobs|
    && c.config == q.config && c.lanes == q.lanes
    && TableAt(q, c.sessions, i)
    && (forall j :: 0 <= j < i ==> c.jobs[j] == Outcome(q, q.jobs[j], now))
    && (forall j :: i <= j < |q.jobs| ==> c.jobs[j] == q.jobs[j])
  }

  /** The scan goes on to the next job and leaves the table alone or, at a pending job, brought up to date. */
  lemma ScanMoves(q: Queue, c: Queue, c': Queue, now: nat, i: nat)
    requires ScanAt(q, c, now, i) && i < |q.jobs| && TableAt(q, c'.sessions, i + 1)
    requires c'.config == c.config && c'.lanes == c.lanes
    requires c'.jobs == c.jobs[i := Outcome(q, q.jobs[i], now)]
    ensures ScanAt(q, c', now, i + 1)
  {
    hide TableAt, Outcome;
  }

  lemma TrackIs(c: Queue, key: string)
    ensures Track(c, key) == c.(sessions := if !Tracked(c.sessions, key) && |c.sessions| < MAX_SESSIONS
                                            then c.sessions + [Session(key, 0, 0)] else c.sessions)
  {
    hide FindSession;
    FoundIsTracked(c.sessions, key);
  }

  lemma FitsIs(q: Queue, c: Queue, t: Queue, now: nat, i: nat, s: nat)
    requires ScanAt(q, c, now, i) && i < |q.jobs| && t == c.(sessions := t.sessions) && TableAt(q, t.sessions, i + 1)
    requires s == FindSession(t.sessions, q.jobs[i].session, 0) < |t.sessions| && q.jobs[i].lane < |q.lanes|
    ensures CanRun(t, s, q.jobs[i].lane) <==> Fits(q, q.jobs[i])
  {
    hide FindSession, Tracked, Newcomers, Entered;
    assert SessionLoad(t.sessions, q.jobs[i].session) == SessionLoad(q.sessions, q.jobs[i].session);
  }

  /** The outcome of the rest of a scan. */
  ghost predicate ScanDone(q: Queue, k: Option<nat>, r: Queue, now: nat, i: nat)
    requires i <= |q.jobs|
  {
    && |r.jobs| == |q.jobs|
    && (k.Some? ==> i <= k.value < |q.jobs| && Startable(q, q.jobs[k.value])
                    && r.jobs[k.value] == q.jobs[k.value].(state := Running))
    && var end := if k.Some? then k.value else |q.jobs|;
       && (forall j :: i <= j < end ==> !Startable(q, q.jobs[j]))
       && (forall j :: 0 <= j < end ==> r.jobs[j] == Outcome(q, q.jobs[j], now))
       && (forall j :: end < j < |q.jobs| ==> r.jobs[j] == q.jobs[j])
  }

  lemma DoneBefore(q: Queue, k: Option<nat>, r: Queue, now: nat, i: nat)
    requires i < |q.jobs| && !Startable(q, q.jobs[i]) && ScanDone(q, k, r, now, i + 1)
    ensures ScanDone(q, k, r, now, i)
  {
    hide Startable, Outcome;
  }

  lemma {:induction false} ScanIs(q: Queue, c: Queue, now: nat, i: nat)
    requires ScanAt(q, c, now, i) && |q.sessions| <= MAX_SESSIONS
    requires forall j :: 0 <= j < |q.jobs| ==> q.jobs[j].lane < |q.lanes|
    ensures ScanDone(q, ScanFrom(c, now, i).0, ScanFrom(c, now, i).1, now, i)
    decreases |q.jobs| - i
  {
    hide ScanAt, TableAt, Startable, Outcome, ScanDone, CompletePending, Start, Track, CanRun, FindSession, Crowded;
    ScanSize(q, c, now, i);
    if i == |q.jobs| {
      ScanEnds(q, c, now);
    } else if q.jobs[i].state != Pending {
      PassIdle(q, c, now, i);
      ScanIs(q, c, now, i + 1);
      DoneBefore(q, ScanFrom(c, now, i).0, ScanFrom(c, now, i).1, now, i);
    } else {
      var key := q.jobs[i].session;
      var t := Track(c, key);
      var s := FindSession(t.sessions, key, 0);
      ScanTracks(q, c, now, i);
      if s == |t.sessions| {
        ScanIs(q, CompletePending(t, i, now), now, i + 1);
        DoneBefore(q, ScanFrom(c, now, i).0, ScanFrom(c, now, i).1, now, i);
      } else if CanRun(t, s, q.jobs[i].lane) {
        assert ScanFrom(c, now, i) == (Some(i), Start(t, i, s));
      } else {
        ScanIs(q, t, now, i + 1);
        DoneBefore(q, ScanFrom(c, now, i).0, ScanFrom(c, now, i).1, now, i);
      }
    }
  }

  lemma ScanSize(q: Queue, c: Queue, now: nat, i: nat)
    requires ScanAt(q, c, now, i)
    ensures i <= |q.jobs| == |c.jobs| && c.lanes == q.lanes && (i < |q.jobs| ==> c.jobs[i] == q.jobs[i])
  {
    hide TableAt, Outcome;
  }

  lemma ScanEnds(q: Queue, c: Queue, now: nat)
    requires ScanAt(q, c, now, |q.jobs|)
    ensures ScanDone(q, None, c, now, |q.jobs|)
  {
    hide TableAt, Outcome, Startable;
  }

  lemma PassIdle(q: Queue, c: Queue, now: nat, i: nat)
    requires ScanAt(q, c, now, i) && i < |q.jobs| && q.jobs[i].state != Pending
    ensures ScanAt(q, c, now, i + 1) && !Startable(q, q.jobs[i])
  {
    hide TableAt, Crowded, Fits;
    assert Newcomers(q, i + 1) == Newcomers(q, i);
    TableSame(q, c.sessions, i);
    assert c.jobs == c.jobs[i := Outcome(q, q.jobs[i], now)];
    ScanMoves(q, c, c, now, i);
  }

  /** A pending job: cancelled if it is crowded out, started if it fits, and otherwise passed. */
  lemma ScanTracks(q: Queue, c: Queue, now: nat, i: nat)
    requires ScanAt(q, c, now, i) && i < |q.jobs| && q.jobs[i].state == Pending && |q.sessions| <= MAX_SESSIONS
    requires q.jobs[i].lane < |q.lanes|
    ensures var t := Track(c, q.jobs[i].session);
            var s := FindSession(t.sessions, q.jobs[i].session, 0);
            && |t.jobs| == |q.jobs| && t.lanes == q.lanes && t.jobs[i] == q.jobs[i]
            && (s == |t.sessions| ==>
                  ScanAt(q, CompletePending(t, i, now), now, i + 1) && !Startable(q, q.jobs[i]))
            && (s < |t.sessions| && CanRun(t, s, q.jobs[i].lane) ==> ScanDone(q, Some(i), Start(t, i, s), now, i))
            && (s < |t.sessions| && !CanRun(t, s, q.jobs[i].lane) ==>
                  ScanAt(q, t, now, i + 1) && !Startable(q, q.jobs[i]))
  {
    hide ScanAt, TableAt, Crowded, Track, FindSession, CanRun, CompletePending, Start, Outcome, Startable, ScanDone;
    var key := q.jobs[i].session;
    TrackIs(c, key);
    var t := Track(c, key);
    var s := FindSession(t.sessions, key, 0);
    ScanSize(q, c, now, i);
    TableStep(q, c.sessions, i) by { ScanTable(q, c, now, i); }
    FoundIsTracked(t.sessions, key);
    OutcomeIs(q, q.jobs[i], now);
    if s == |t.sessions| {
      CompleteIs(t, i, now);
      ScanMoves(q, c, CompletePending(t, i, now), now, i);
    } else {
      FitsIs(q, c, t, now, i, s);
      assert c.jobs == c.jobs[i := Outcome(q, q.jobs[i], now)];
      if CanRun(t, s, q.jobs[i].lane) { ScanStarts(q, c, t, now, i, s); } else { ScanMoves(q, c, t, now, i); }
    }
  }

  lemma ScanTable(q: Queue, c: Queue, now: nat, i: nat)
    requires ScanAt(q, c, now, i)
    ensures TableAt(q, c.sessions, i)
  {
    hide TableAt, Outcome;
  }

  lemma OutcomeIs(q: Queue, j: Job, now: nat)
    requires j.state == Pending
    ensures Outcome(q, j, now) == if Crowded(q, j.session) then Dropped(j, now) else j
    ensures Startable(q, j) <==> !Crowded(q, j.session) && Fits(q, j)
  {
    hide Crowded, Fits;
  }

  lemma CompleteIs(t: Queue, i: nat, now: nat)
    requires i < |t.jobs| && t.jobs[i].state == Pending
    ensures var c := CompletePending(t, i, now);
            c.jobs == t.jobs[i := Dropped(t.jobs[i], now)] && c.sessions == t.sessions
            && c.config == t.config && c.lanes == t.lanes
  {
  }

  lemma ScanStarts(q: Queue, c: Queue, t: Queue, now: nat, i: nat, s: nat)
    requires ScanAt(q, c, now, i) && i < |q.jobs| && t == c.(sessions := t.sessions) && Startable(q, q.jobs[i])
    requires s < |t.sessions| && q.jobs[i].lane < |q.lanes|
    ensures |t.jobs| == |q.jobs| && t.lanes == q.lanes && t.jobs[i] == q.jobs[i]
    ensures ScanDone(q, Some(i), Start(t, i, s), now, i)
  {
    hide TableAt, Outcome, Startable;
  }

  lemma ScanBegins(q: Queue, now: nat)
    requires |q.sessions| <= MAX_SESSIONS
    ensures ScanAt(q, q, now, 0)
  {
    hide Crowded, Tracked;
  }

  /**
   One scan in terms of the state before it. It starts the first pending job that has room in both limits and
   is not crowded out of the session table, if there is one. Of the jobs in front of it, or of all jobs, it
   cancels exactly the pending ones whose session is crowded out, and leaves the others as they are.
   */
  lemma WorkConserving(w: World, now: nat, j: nat)
    requires Reachable(w) && j < |w.q.jobs|
    ensures var (k, r) := ScanFrom(w.q, now, 0);
            var job := w.q.jobs[j];
            && |r.jobs| == |w.q.jobs|
            && (k.Some? ==> k.value < |w.q.jobs| && Startable(w.q, w.q.jobs[k.value]))
            && (k.None? || j < k.value ==>
                  && !Startable(w.q, job)
                  && (r.jobs[j] != job <==> job.state == Pending && Crowded(w.q, job.session))
                  && (r.jobs[j] != job ==> r.jobs[j] == Dropped(job, now)))
            && (k.Some? && j == k.value ==> r.jobs[j] == job.(state := Running))
            && (k.Some? && j > k.value ==> r.jobs[j] == job)
  {
    hide ScanFrom, Crowded, Fits, WorkersOk, ExecutedOk, CountersOk, BackpressureOk, SteerOk, DroppedOk;
    ReachableInv(w);
    ScanBegins(w.q, now);
    ScanIs(w.q, w.q, now, 0);
  }
}
