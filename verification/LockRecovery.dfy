/** What a crash costs, and for how long.

    A crashed window says no goodbye, so others go on deferring to the record they have of it.
    Under the timing of `LockTimed` such a record is gone 8000 ms after its last renewal, and then
    every wanted session has an owner again. */
module LockRecovery {
  import opened Wrappers
  import opened WindowOrder
  import opened SessionLock
  import opened LockProtocol
  import opened LockTheorems
  import opened LockTermination
  import opened LockTiming
  import opened LockTimed

  ghost predicate TimedReachable(x: Timed) {
    exists run :: TimedRun(Begin, run) && EndOf(Begin, run) == x
  }

  /** No record comes from the future, or was stale at its holder's last beat. */
  ghost predicate Tended(x: Timed, w: WindowId)
    requires w in x.s.nodes
  {
    var peers := x.s.nodes[w].win.peers;
    forall p | p in peers :: peers[p].lastSeen <= x.s.now && Beat(x, w) <= peers[p].lastSeen + STALE_MS
  }

  ghost predicate AllTended(x: Timed) {
    forall w | IsLive(x.s, w) :: Tended(x, w)
  }

  /** A beat leaves only records that are not stale. */
  lemma BeatTends(w: Window, now: nat, p: WindowId)
    requires p in Heartbeat(w, now).win.peers
    ensures now <= Heartbeat(w, now).win.peers[p].lastSeen + STALE_MS
  {
    var gone := Stale(w.peers, now);
    assert p in w.peers && p !in gone;
  }

  lemma StepKeepsTended(x: Timed, t: Step, w: WindowId)
    requires TimedInv(x) && Goes(x, t) && w in x.s.nodes && IsLive(x.s, w) && Tended(x, w)
    requires w in NextTimed(x, t).s.nodes
    ensures Tended(NextTimed(x, t), w)
  {
    var x', o := NextTimed(x, t), x.s.nodes[w].win.peers;
    assert StampOk(x, w);
    ClockAndBeat(x, t, w);
    forall p | p in x'.s.nodes[w].win.peers
      ensures var r := x'.s.nodes[w].win.peers[p]; r.lastSeen <= x'.s.now && Beat(x', w) <= r.lastSeen + STALE_MS
    {
      RecordsMove(x.s, t, p, w);
      if t == DoHeartbeat(w) { BeatTends(x.s.nodes[w].win, x.s.now, p); }
    }
  }

  lemma StepKeepsAllTended(x: Timed, t: Step)
    requires TimedInv(x) && AllTended(x) && Goes(x, t)
    ensures AllTended(NextTimed(x, t))
  {
    var x' := NextTimed(x, t);
    forall w | IsLive(x'.s, w) ensures Tended(x', w) {
      if w in x.s.nodes {
        LogsGrow(x.s, t, w);
        StepKeepsTended(x, t, w);
      } else {
        OpensAlone(x.s, t, w);
      }
    }
  }

  lemma {:induction false} RunKeepsTended(x: Timed, run: seq<Step>)
    requires TimedInv(x) && AllTended(x) && TimedRun(x, run)
    ensures AllTended(EndOf(x, run))
    decreases |run|
  {
    if run != [] {
      StepKeepsTimedInv(x, run[0]);
      StepKeepsAllTended(x, run[0]);
      RunKeepsTended(NextTimed(x, run[0]), run[1..]);
    }
  }

  lemma {:induction false} TimedReachableInv(x: Timed)
    requires TimedReachable(x)
    ensures TimedInv(x) && AllTended(x) && Reachable(x.s)
  {
    var run :| TimedRun(Begin, run) && EndOf(Begin, run) == x;
    InitialInv();
    TimedRunsAreRuns(Begin, run);
    RunKeepsTended(Begin, run);
  }

  lemma TendedIsRecent(x: Timed, w: WindowId, p: WindowId)
    requires StampsOk(x) && AllTended(x) && IsLive(x.s, w) && Knows(x.s, w, p)
    ensures x.s.now <= x.s.nodes[w].win.peers[p].lastSeen + 8000
  {
    assert StampOk(x, w) && Tended(x, w);
  }

  /** In every timed run, whatever a live window remembers was heard in the last 8000 ms. */
  lemma {:induction false} RememberedIsRecent(x: Timed, w: WindowId, p: WindowId)
    requires TimedReachable(x) && IsLive(x.s, w) && Knows(x.s, w, p)
    ensures x.s.now <= x.s.nodes[w].win.peers[p].lastSeen + 8000
  {
    TimedReachableInv(x);
    TendedIsRecent(x, w, p);
  }

  /** Everything p posted has reached every live window. */
  ghost predicate AllHeard(s: State, p: WindowId) {
    forall w | IsLive(s, w) && w != p :: !InFlight(s, p, w)
  }

  /** p is gone and all heard, and nobody has a record of it from after `since`. */
  ghost predicate SilentSince(s: State, p: WindowId, since: nat) {
    && p in s.nodes && !IsLive(s, p) && AllHeard(s, p)
    && forall w | IsLive(s, w) && Knows(s, w, p) :: s.nodes[w].win.peers[p].lastSeen <= since
  }

  lemma StepKeepsSilent(s: State, t: Step, p: WindowId, since: nat)
    requires Inv(s) && Enabled(s, t) && SilentSince(s, p, since)
    ensures SilentSince(Next(s, t), p, since)
  {
    var s' := Next(s, t);
    LogsGrow(s, t, p);
    forall w | IsLive(s', w) && w != p
      ensures !InFlight(s', p, w) && (Knows(s', w, p) ==> s'.nodes[w].win.peers[p].lastSeen <= since)
    {
      if w in s.nodes {
        LogsGrow(s, t, w);
        ReadsMove(s, t, p, w);
        if Knows(s', w, p) { RecordsMove(s, t, p, w); }
      } else {
        StartsAtTheEnd(s, t, p, w);
      }
    }
  }

  lemma StartsAtTheEnd(s: State, t: Step, p: WindowId, w: WindowId)
    requires Enabled(s, t) && p in s.nodes && w !in s.nodes && w in Next(s, t).nodes
    ensures !InFlight(Next(s, t), p, w) && !Knows(Next(s, t), w, p)
  {
  }

  lemma {:induction false} RunKeepsSilent(x: Timed, run: seq<Step>, p: WindowId, since: nat)
    requires TimedInv(x) && TimedRun(x, run) && SilentSince(x.s, p, since)
    ensures SilentSince(EndOf(x, run).s, p, since)
    decreases |run|
  {
    if run != [] {
      StepKeepsTimedInv(x, run[0]);
      StepKeepsSilent(x.s, run[0], p, since);
      RunKeepsSilent(NextTimed(x, run[0]), run[1..], p, since);
    }
  }

  /** A window that is gone, however it went, and whose last message has arrived everywhere, is
      forgotten by every window 8000 ms later, whatever else goes on. */
  lemma {:induction false} GoneIsForgotten(x: Timed, run: seq<Step>, p: WindowId, w: WindowId)
    requires TimedReachable(x) && TimedRun(x, run)
    requires p in x.s.nodes && !IsLive(x.s, p) && AllHeard(x.s, p)
    requires EndOf(x, run).s.now > x.s.now + 8000 && IsLive(EndOf(x, run).s, w)
    ensures !Knows(EndOf(x, run).s, w, p)
  {
    var e := EndOf(x, run);
    TimedReachableInv(x);
    forall v | IsLive(x.s, v) && Knows(x.s, v, p) ensures x.s.nodes[v].win.peers[p].lastSeen <= x.s.now {
      assert Tended(x, v);
    }
    RunKeepsSilent(x, run, p, x.s.now);
    TimedRunsAreRuns(x, run);
    RunKeepsTended(x, run);
    if Knows(e.s, w, p) { TendedIsRecent(e, w, p); }
  }

  lemma {:induction false} CrashedBefore(s: State, run: seq<Step>, p: WindowId)
    requires ValidRun(s, run) && forall i | 0 <= i < |run| :: !run[i].Crash?
    requires p in RunTo(s, run).nodes && RunTo(s, run).nodes[p].phase.Crashed?
    ensures p in s.nodes && s.nodes[p].phase.Crashed?
    decreases |run|
  {
    if run != [] {
      assert forall i | 0 <= i < |run[1..]| :: run[1..][i] == run[i + 1];
      CrashedBefore(Next(s, run[0]), run[1..], p);
      CrashesAreSteps(s, run[0], p);
    }
  }

  lemma CrashesAreSteps(s: State, t: Step, p: WindowId)
    requires Enabled(s, t) && t != Crash(p) && p in Next(s, t).nodes && Next(s, t).nodes[p].phase.Crashed?
    ensures p in s.nodes && s.nodes[p].phase.Crashed?
  {
  }

  /** So a crash leaves sessions unowned for a while only.  Once the crashed windows have been silent
      for 8000 ms and nothing is left to deliver, every session somebody wants has exactly one
      owner, its highest-ranked wanter, whatever happened before. */
  lemma {:induction false} OwnersComeBack(x: Timed, run: seq<Step>, v: WindowId, sid: SessionId)
    returns (owner: WindowId)
    requires TimedReachable(x) && TimedRun(x, run)
    requires forall p | p in x.s.nodes && x.s.nodes[p].phase.Crashed? :: AllHeard(x.s, p)
    requires forall i | 0 <= i < |run| :: !run[i].Crash?
    requires EndOf(x, run).s.now > x.s.now + 8000
    requires !CanDeliver(EndOf(x, run).s) && Wants(EndOf(x, run).s, v, sid)
    ensures TopWanter(EndOf(x, run).s, owner, sid)
    ensures forall w :: Owns(EndOf(x, run).s, w, sid) <==> w == owner
  {
    var e := EndOf(x, run);
    TimedReachableInv(x);
    TimedRunsAreRuns(x, run);
    ReachableOn(x.s, run);
    StuckMeansDelivered(e.s);
    owner := ExactlyOneOwner(e.s, v, sid);
    forall p | p in e.s.nodes[owner].win.peers ensures IsLive(e.s, p) {
      if !IsLive(e.s, p) {
        GoneRecordIsTrue(e.s, owner, p);
        CrashedBefore(x.s, run, p);
        GoneIsForgotten(x, run, p, owner);
      }
    }
  }
}
