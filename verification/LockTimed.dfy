/** The protocol under real time.

    `LockProtocol` lets a heartbeat happen only when no live window looks stale.  Here that is not
    assumed but derived: if every live window beats at least every 2000 ms and every message
    between live windows arrives within 4000 ms, then in any run, of any number of windows, the
    premise holds at every heartbeat.  A timed run is therefore a run of the protocol. */
module LockTimed {
  import opened WindowOrder
  import opened SessionLock
  import opened LockProtocol
  import opened LockTiming

  /** `posted` has the time of every entry of a window's log, `beat` when it opened or last beat. */
  datatype Timed = Timed(s: State, posted: map<WindowId, seq<nat>>, beat: map<WindowId, nat>)

  const Begin := Timed(Empty, map[], map[])

  function Stamps(x: Timed, a: WindowId): seq<nat> {
    if a in x.posted then x.posted[a] else []
  }

  function Beat(x: Timed, a: WindowId): nat {
    Get(x.beat, a)
  }

  /** Nothing is late if the clock goes on to `to`: not a beat, and not a message between live windows. */
  ghost predicate OnTime(x: Timed, to: nat) {
    && (forall a | IsLive(x.s, a) :: to <= Beat(x, a) + 2000)
    && (forall a, b | IsLive(x.s, a) && IsLive(x.s, b) && a != b :: Prompt(Stamps(x, a), Get(x.s.nodes[b].read, a), to))
  }

  /** Everything from position `from` on was posted at most MAX_DELAY_MS before `at`. */
  predicate Prompt(stamps: seq<nat>, from: nat, at: nat) {
    forall i | from <= i < |stamps| :: at <= stamps[i] + MAX_DELAY_MS
  }

  /** What the environment may do: a live window's heartbeat may always happen. */
  ghost predicate MayHappen(x: Timed, t: Step) {
    match t
    case DoHeartbeat(w) => IsLive(x.s, w)
    case Tick(to) => x.s.now <= to && OnTime(x, to)
    case _ => Enabled(x.s, t)
  }

  ghost function Stepped(s: State, t: Step): State
    requires if t.DoHeartbeat? then IsLive(s, t.w) else Enabled(s, t)
  {
    if t.DoHeartbeat? then Put(s, t.w, Acted(s.nodes[t.w], Heartbeat(s.nodes[t.w].win, s.now))) else Next(s, t)
  }

  function Extended(stamps: seq<nat>, n: nat, now: nat): seq<nat> {
    seq(n, i => if 0 <= i < |stamps| then stamps[i] else now)
  }

  ghost function NextTimed(x: Timed, t: Step): Timed
    requires MayHappen(x, t)
  {
    var s' := Stepped(x.s, t);
    Timed(s', map a | a in s'.nodes :: Extended(Stamps(x, a), |s'.nodes[a].log|, x.s.now),
          match t
          case Join(id, _, _) => x.beat[id := x.s.now]
          case DoHeartbeat(w) => x.beat[w := x.s.now]
          case _ => x.beat)
  }

  ghost predicate TimedRun(x: Timed, run: seq<Step>)
    decreases |run|
  {
    run == [] || (MayHappen(x, run[0]) && TimedRun(NextTimed(x, run[0]), run[1..]))
  }

  ghost function EndOf(x: Timed, run: seq<Step>): Timed
    requires TimedRun(x, run)
    decreases |run|
  {
    if run == [] then x else EndOf(NextTimed(x, run[0]), run[1..])
  }

  // ---------------------------------------------------------------------------------------
  // What timing keeps

  /** Posts are in order and never more than a heartbeat apart. */
  predicate Paced(stamps: seq<nat>, now: nat) {
    && (forall i | 0 <= i < |stamps| :: stamps[i] <= now)
    && (forall i | 0 < i < |stamps| :: stamps[i - 1] <= stamps[i] <= stamps[i - 1] + HEARTBEAT_MS)
  }

  /** A live window has posted at its last beat or later, and the next beat is not overdue. */
  predicate Beating(stamps: seq<nat>, beat: nat, now: nat) {
    stamps != [] && beat <= stamps[|stamps| - 1] && now <= beat + HEARTBEAT_MS
  }

  /** A record is at least as recent as the post it came from. */
  predicate SeenSince(b: Node, a: WindowId, stamps: seq<nat>) {
    a in b.win.peers ==>
      var rd := Get(b.read, a);
      0 < rd <= |stamps| && stamps[rd - 1] <= b.win.peers[a].lastSeen
  }

  ghost predicate StampOk(x: Timed, a: WindowId)
    requires a in x.s.nodes
  {
    && |Stamps(x, a)| == |x.s.nodes[a].log| && Paced(Stamps(x, a), x.s.now)
    && (IsLive(x.s, a) ==> Beating(Stamps(x, a), Beat(x, a), x.s.now))
  }

  ghost predicate StampsOk(x: Timed) {
    x.posted.Keys <= x.s.nodes.Keys && forall a | a in x.s.nodes :: StampOk(x, a)
  }

  ghost predicate SeenOk(x: Timed) {
    forall a, b | a in x.s.nodes && b in x.s.nodes :: SeenSince(x.s.nodes[b], a, Stamps(x, a))
  }

  ghost predicate PromptOk(x: Timed) {
    forall a, b | IsLive(x.s, a) && IsLive(x.s, b) && a != b ::
      Prompt(Stamps(x, a), Get(x.s.nodes[b].read, a), x.s.now)
  }

  ghost predicate TimedInv(x: Timed) {
    Inv(x.s) && StampsOk(x) && SeenOk(x) && PromptOk(x)
  }

  /** A live window was heard within STALE_MS by every live window that knows it. */
  lemma LiveIsFresh(b: Node, a: WindowId, stamps: seq<nat>, beat: nat, now: nat)
    requires a in b.win.peers && SeenSince(b, a, stamps) && Paced(stamps, now) && Beating(stamps, beat, now)
    requires Prompt(stamps, Get(b.read, a), now)
    ensures now <= b.win.peers[a].lastSeen + 6000
  {
    var rd := Get(b.read, a);
    if rd < |stamps| {
      assert stamps[rd] <= stamps[rd - 1] + HEARTBEAT_MS && now <= stamps[rd] + MAX_DELAY_MS;
    } else {
      assert rd - 1 == |stamps| - 1;
    }
  }

  /** The protocol's premise at a heartbeat. */
  lemma HeartbeatIsEnabled(x: Timed, w: WindowId)
    requires TimedInv(x) && IsLive(x.s, w)
    ensures Enabled(x.s, DoHeartbeat(w))
  {
    var n := x.s.nodes[w];
    assert NodeOk(w, n, x.s.now);
    forall p | p in Stale(n.win.peers, x.s.now) ensures !IsLive(x.s, p) {
      if IsLive(x.s, p) {
        assert SeenSince(n, p, Stamps(x, p));
        LiveIsFresh(n, p, Stamps(x, p), Beat(x, p), x.s.now);
      }
    }
  }

  lemma MayHappenIsEnabled(x: Timed, t: Step)
    requires TimedInv(x) && MayHappen(x, t)
    ensures Enabled(x.s, t) && NextTimed(x, t).s == Next(x.s, t)
  {
    if t.DoHeartbeat? { HeartbeatIsEnabled(x, t.w); }
  }

  // ---------------------------------------------------------------------------------------
  // Every step keeps it

  /** Logs only grow, and only those of live windows do. */
  lemma LogsGrow(s: State, t: Step, a: WindowId)
    requires Enabled(s, t) && a in s.nodes
    ensures a in Next(s, t).nodes && s.nodes[a].log <= Next(s, t).nodes[a].log
    ensures Next(s, t).nodes[a].log != s.nodes[a].log ==> IsLive(s, a)
    ensures IsLive(Next(s, t), a) ==> IsLive(s, a)
    ensures t == DoHeartbeat(a) ==> |s.nodes[a].log| < |Next(s, t).nodes[a].log|
  {
  }

  /** A receiver's place in a sender's log moves only by a delivery. */
  lemma ReadsMove(s: State, t: Step, a: WindowId, b: WindowId)
    requires Enabled(s, t) && b in s.nodes
    ensures b in Next(s, t).nodes
    ensures Get(Next(s, t).nodes[b].read, a) == Get(s.nodes[b].read, a) + (if t == Deliver(b, a) then 1 else 0)
  {
  }

  /** A record is an old one, or was made by a delivery just now. */
  lemma RecordsMove(s: State, t: Step, a: WindowId, b: WindowId)
    requires NodesOk(s) && Enabled(s, t) && b in s.nodes && a in Next(s, t).nodes[b].win.peers
    ensures var p := Next(s, t).nodes[b].win.peers[a];
      if t == Deliver(b, a) then p.lastSeen == s.now else a in s.nodes[b].win.peers && s.nodes[b].win.peers[a] == p
  {
    if t.Deliver? && t.to_ == b {
      assert NodeOk(t.from, s.nodes[t.from], s.now) && NodeOk(b, s.nodes[b], s.now);
      DeliveredRecords(s, b, t.from, a);
    } else {
      ActsKeepRecords(s, t, a, b);
    }
  }

  lemma DeliveredRecords(s: State, b: WindowId, from: WindowId, a: WindowId)
    requires Enabled(s, Deliver(b, from)) && s.nodes[b].win.id == b && a in Next(s, Deliver(b, from)).nodes[b].win.peers
    requires forall i | 0 <= i < |s.nodes[from].log| :: s.nodes[from].log[i].windowId == from
    ensures var p := Next(s, Deliver(b, from)).nodes[b].win.peers[a];
      if from == a then p.lastSeen == s.now else a in s.nodes[b].win.peers && s.nodes[b].win.peers[a] == p
  {
    var m := s.nodes[from].log[Get(s.nodes[b].read, from)];
    ReceivedRecords(s.nodes[b].win, m, s.now, a);
  }

  lemma ReceivedRecords(w: Window, m: LockMsg, now: nat, a: WindowId)
    requires m.windowId != w.id && a in Receive(w, m, now).win.peers
    ensures var p := Receive(w, m, now).win.peers[a];
      if m.windowId == a then p.lastSeen == now else a in w.peers && w.peers[a] == p
  {
  }

  lemma ActsKeepRecords(s: State, t: Step, a: WindowId, b: WindowId)
    requires Enabled(s, t) && b in s.nodes && !(t.Deliver? && t.to_ == b) && a in Next(s, t).nodes[b].win.peers
    ensures a in s.nodes[b].win.peers && s.nodes[b].win.peers[a] == Next(s, t).nodes[b].win.peers[a]
  {
  }

  lemma ExtendedKeepsPace(stamps: seq<nat>, n: nat, beat: nat, now: nat)
    requires Paced(stamps, now) && |stamps| <= n && (|stamps| < n ==> Beating(stamps, beat, now))
    ensures var more := Extended(stamps, n, now);
      && stamps <= more && |more| == n && Paced(more, now)
      && (|stamps| < n ==> more[n - 1] == now)
  {
    var more := Extended(stamps, n, now);
    assert forall i | 0 <= i < |stamps| :: more[i] == stamps[i];
    forall i | 0 < i < |more| ensures more[i - 1] <= more[i] <= more[i - 1] + HEARTBEAT_MS {
      if i < |stamps| { assert stamps[i - 1] <= stamps[i]; }
    }
  }

  /** What a step posts is stamped with the present time. */
  predicate Stamped(old_: seq<nat>, more: seq<nat>, now: nat) {
    old_ <= more && forall i | |old_| <= i < |more| :: more[i] == now
  }

  /** A step that may happen and that the protocol allows. */
  ghost predicate Goes(x: Timed, t: Step) {
    MayHappen(x, t) && Enabled(x.s, t) && NextTimed(x, t).s == Next(x.s, t)
  }

  lemma StepKeepsStamps(x: Timed, t: Step, a: WindowId)
    requires Goes(x, t) && StampsOk(x) && a in NextTimed(x, t).s.nodes
    ensures StampOk(NextTimed(x, t), a) && Stamped(Stamps(x, a), Stamps(NextTimed(x, t), a), x.s.now)
  {
    if a in x.s.nodes {
      assert StampOk(x, a);
      StampsGrow(x, t, a);
    } else {
      OpensWithAPost(x, t, a);
    }
  }

  lemma StampsGrow(x: Timed, t: Step, a: WindowId)
    requires Goes(x, t)
    requires a in x.s.nodes && a in NextTimed(x, t).s.nodes && StampOk(x, a)
    ensures StampOk(NextTimed(x, t), a) && Stamped(Stamps(x, a), Stamps(NextTimed(x, t), a), x.s.now)
  {
    var n := |NextTimed(x, t).s.nodes[a].log|;
    LogsGrow(x.s, t, a);
    ExtendedKeepsPace(Stamps(x, a), n, Beat(x, a), x.s.now);
    ClockAndBeat(x, t, a);
  }

  /** The clock stands still except at a tick, and a beat is noted when it happens. */
  lemma ClockAndBeat(x: Timed, t: Step, a: WindowId)
    requires MayHappen(x, t) && a in x.s.nodes
    ensures var x' := NextTimed(x, t);
      && x.s.now <= x'.s.now && (t.Tick? || x'.s.now == x.s.now)
      && (t.Tick? ==> x'.s.nodes == x.s.nodes && (IsLive(x.s, a) ==> x'.s.now <= Beat(x, a) + HEARTBEAT_MS))
      && Beat(x', a) == (if t == DoHeartbeat(a) then x.s.now else Beat(x, a))
  {
  }

  lemma OpensWithAPost(x: Timed, t: Step, a: WindowId)
    requires MayHappen(x, t) && a !in x.s.nodes && a in NextTimed(x, t).s.nodes && Stamps(x, a) == []
    ensures var x' := NextTimed(x, t);
      && Stamps(x', a) == [x.s.now] && |x'.s.nodes[a].log| == 1 && Beat(x', a) == x.s.now == x'.s.now
  {
  }

  lemma StepKeepsSeen(x: Timed, t: Step, a: WindowId, b: WindowId)
    requires Goes(x, t) && NodesOk(x.s) && a in NextTimed(x, t).s.nodes && b in NextTimed(x, t).s.nodes
    requires a in x.s.nodes ==> StampOk(x, a)
    requires a in x.s.nodes && b in x.s.nodes ==> SeenSince(x.s.nodes[b], a, Stamps(x, a))
    requires Stamped(Stamps(x, a), Stamps(NextTimed(x, t), a), x.s.now)
    ensures SeenSince(NextTimed(x, t).s.nodes[b], a, Stamps(NextTimed(x, t), a))
  {
    if a in Next(x.s, t).nodes[b].win.peers {
      if b !in x.s.nodes { OpensAlone(x.s, t, b); }
      KnownIsOld(x.s, t, a, b);
      SeenMoves(x, t, a, b);
    }
  }

  /** A window that opens knows nobody. */
  lemma OpensAlone(s: State, t: Step, b: WindowId)
    requires Enabled(s, t) && b !in s.nodes && b in Next(s, t).nodes
    ensures Next(s, t).nodes[b].win.peers == map[]
  {
  }

  lemma SeenMoves(x: Timed, t: Step, a: WindowId, b: WindowId)
    requires Goes(x, t) && NodesOk(x.s)
    requires a in x.s.nodes && b in x.s.nodes && a in Next(x.s, t).nodes[b].win.peers
    requires SeenSince(x.s.nodes[b], a, Stamps(x, a)) && StampOk(x, a)
    requires Stamped(Stamps(x, a), Stamps(NextTimed(x, t), a), x.s.now)
    ensures SeenSince(Next(x.s, t).nodes[b], a, Stamps(NextTimed(x, t), a))
  {
    RecordsMove(x.s, t, a, b);
    ReadsMove(x.s, t, a, b);
    StillSeen(x.s.nodes[b], Next(x.s, t).nodes[b], a, Stamps(x, a), Stamps(NextTimed(x, t), a),
              t == Deliver(b, a), x.s.now);
  }

  lemma StillSeen(b: Node, b': Node, a: WindowId, stamps: seq<nat>, stamps': seq<nat>, delivered: bool, now: nat)
    requires SeenSince(b, a, stamps) && Paced(stamps, now) && stamps <= stamps' && a in b'.win.peers
    requires Get(b'.read, a) == Get(b.read, a) + (if delivered then 1 else 0)
    requires if delivered then b'.win.peers[a].lastSeen == now && Get(b.read, a) < |stamps|
             else a in b.win.peers && b.win.peers[a] == b'.win.peers[a]
    ensures SeenSince(b', a, stamps')
  {
    assert forall i | 0 <= i < |stamps| :: stamps[i] == stamps'[i];
  }

  /** Nobody has heard of a window that has only just opened. */
  lemma KnownIsOld(s: State, t: Step, a: WindowId, b: WindowId)
    requires NodesOk(s) && Enabled(s, t) && b in s.nodes && a in Next(s, t).nodes[b].win.peers
    ensures a in s.nodes
  {
    RecordsMove(s, t, a, b);
  }

  lemma StepKeepsPrompt(x: Timed, t: Step, a: WindowId, b: WindowId)
    requires Goes(x, t) && StampsOk(x) && PromptOk(x) && a != b
    requires IsLive(NextTimed(x, t).s, a) && IsLive(NextTimed(x, t).s, b)
    ensures var x' := NextTimed(x, t); Prompt(Stamps(x', a), Get(x'.s.nodes[b].read, a), x'.s.now)
  {
    StepKeepsStamps(x, t, a);
    if a in x.s.nodes && b in x.s.nodes {
      LogsGrow(x.s, t, a);
      LogsGrow(x.s, t, b);
      assert StampOk(x, a);
      PromptMoves(x, t, a, b);
    } else if b in x.s.nodes {
      assert Stamps(x, a) == [];
      ClockAndBeat(x, t, b);
    } else {
      NewcomerStartsAtTheEnd(x, t, a, b);
    }
  }

  lemma PromptMoves(x: Timed, t: Step, a: WindowId, b: WindowId)
    requires Goes(x, t)
    requires IsLive(x.s, a) && IsLive(x.s, b) && a != b && b in Next(x.s, t).nodes
    requires StampOk(x, a) && Prompt(Stamps(x, a), Get(x.s.nodes[b].read, a), x.s.now)
    requires Stamped(Stamps(x, a), Stamps(NextTimed(x, t), a), x.s.now)
    ensures var x' := NextTimed(x, t); Prompt(Stamps(x', a), Get(x'.s.nodes[b].read, a), x'.s.now)
  {
    ReadsMove(x.s, t, a, b);
    ClockAndBeat(x, t, a);
    if t.Tick? {
      assert Prompt(Stamps(x, a), Get(x.s.nodes[b].read, a), t.to);
      assert Stamps(NextTimed(x, t), a) == Stamps(x, a) by { assert |Next(x.s, t).nodes[a].log| == |x.s.nodes[a].log|; }
    } else {
      StillPrompt(Stamps(x, a), Stamps(NextTimed(x, t), a), Get(x.s.nodes[b].read, a),
                  Get(Next(x.s, t).nodes[b].read, a), x.s.now);
    }
  }

  lemma StillPrompt(stamps: seq<nat>, more: seq<nat>, from: nat, later: nat, now: nat)
    requires Prompt(stamps, from, now) && Stamped(stamps, more, now) && from <= later
    ensures Prompt(more, later, now)
  {
    assert forall i | 0 <= i < |stamps| :: stamps[i] == more[i];
  }

  lemma NewcomerStartsAtTheEnd(x: Timed, t: Step, a: WindowId, b: WindowId)
    requires MayHappen(x, t) && a in x.s.nodes && b !in x.s.nodes && b in NextTimed(x, t).s.nodes
    ensures var x' := NextTimed(x, t); a in x'.s.nodes && |Stamps(x', a)| == Get(x'.s.nodes[b].read, a)
  {
  }

  lemma StepKeepsTimedInv(x: Timed, t: Step)
    requires TimedInv(x) && MayHappen(x, t)
    ensures TimedInv(NextTimed(x, t)) && Enabled(x.s, t) && NextTimed(x, t).s == Next(x.s, t)
  {
    var x' := NextTimed(x, t);
    MayHappenIsEnabled(x, t);
    StepKeepsInv(x.s, t);
    forall a | a in x'.s.nodes ensures StampOk(x', a) { StepKeepsStamps(x, t, a); }
    forall a, b | a in x'.s.nodes && b in x'.s.nodes ensures SeenSince(x'.s.nodes[b], a, Stamps(x', a)) {
      StepKeepsStamps(x, t, a);
      StepKeepsSeen(x, t, a, b);
    }
    forall a, b | IsLive(x'.s, a) && IsLive(x'.s, b) && a != b
      ensures Prompt(Stamps(x', a), Get(x'.s.nodes[b].read, a), x'.s.now)
    {
      StepKeepsPrompt(x, t, a, b);
    }
  }

  /** Every timed run is a run of the protocol, to the same state: all its theorems apply, and no
      heartbeat ever forgets a live window. */
  lemma {:induction false} TimedRunsAreRuns(x: Timed, run: seq<Step>)
    requires TimedInv(x) && TimedRun(x, run)
    ensures ValidRun(x.s, run) && EndOf(x, run).s == RunTo(x.s, run) && TimedInv(EndOf(x, run))
    decreases |run|
  {
    if run != [] {
      StepKeepsTimedInv(x, run[0]);
      TimedRunsAreRuns(NextTimed(x, run[0]), run[1..]);
    }
  }

  /** So under these delays, from the first window on: no live window is stale to a live one that
      knows it, at any moment. */
  lemma {:induction false} NoLiveWindowIsStale(run: seq<Step>, w: WindowId, p: WindowId)
    requires TimedRun(Begin, run)
    ensures ValidRun(Empty, run)
    ensures var s := RunTo(Empty, run);
      IsLive(s, w) && IsLive(s, p) && p in s.nodes[w].win.peers ==> p !in Stale(s.nodes[w].win.peers, s.now)
  {
    InitialInv();
    TimedRunsAreRuns(Begin, run);
    var e := EndOf(Begin, run);
    if IsLive(e.s, w) { HeartbeatIsEnabled(e, w); }
  }
}
