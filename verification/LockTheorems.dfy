/** What the session lock is for, over every reachable state of the protocol. */
module LockTheorems {
  import opened Wrappers
  import opened WindowOrder
  import opened SessionLock
  import opened LockProtocol

  ghost predicate Reachable(s: State) {
    exists run :: ValidRun(Empty, run) && RunTo(Empty, run) == s
  }

  lemma ReachableInv(s: State)
    requires Reachable(s)
    ensures Inv(s)
  {
    var run :| ValidRun(Empty, run) && RunTo(Empty, run) == s;
    InitialInv();
    RunKeepsInv(Empty, run);
  }

  predicate Wants(s: State, w: WindowId, sid: SessionId) {
    IsLive(s, w) && sid in s.nodes[w].win.claimed
  }

  predicate Owns(s: State, w: WindowId, sid: SessionId) {
    IsLive(s, w) && sid in s.nodes[w].win.owned
  }

  predicate RanksAbove(s: State, b: WindowId, a: WindowId)
    requires a in s.nodes && b in s.nodes
  {
    Outranks(s.nodes[b].win.focusTs, b, s.nodes[a].win.focusTs, a)
  }

  /** Once everything b posted has reached a, a's record of b, if it has one, is b's true state. */
  lemma DeliveredRecordIsTrue(s: State, a: WindowId, b: WindowId)
    requires Inv(s) && IsLive(s, a) && IsLive(s, b) && a != b && !InFlight(s, b, a) && Knows(s, a, b)
    ensures var r, w := s.nodes[a].win.peers[b], s.nodes[b].win; r.focusTs == w.focusTs && r.sessions == w.claimed
  {
  }

  /** Two live windows want the same session and b ranks higher: a owns it only while b's latest
      presence has not reached a, or neither window has heard of the other and a's greeting,
      which b will answer, has not reached b. */
  lemma LowerOwnerOnlyWhileNewsTravels(s: State, a: WindowId, b: WindowId, sid: SessionId)
    requires Reachable(s) && Wants(s, a, sid) && Wants(s, b, sid) && a != b && RanksAbove(s, b, a)
    ensures Owns(s, a, sid) ==> InFlight(s, b, a) || (!Knows(s, a, b) && !Knows(s, b, a) && InFlight(s, a, b))
  {
    ReachableInv(s);
    if !InFlight(s, b, a) && Owns(s, a, sid) {
      assert Introduced(s, a, b);
      assert NodeOk(a, s.nodes[a], s.now);
      if Knows(s, a, b) {
        DeliveredRecordIsTrue(s, a, b);
        assert Beaten(a, s.nodes[a].win.focusTs, sid, s.nodes[a].win.peers);
      }
    }
  }

  ghost predicate LiveQueuesEmpty(s: State) {
    forall a, b | IsLive(s, a) && IsLive(s, b) && a != b :: !InFlight(s, a, b)
  }

  /** With nothing in flight between live windows, no session has two owners. */
  lemma AtMostOneOwner(s: State, a: WindowId, b: WindowId, sid: SessionId)
    requires Reachable(s) && LiveQueuesEmpty(s) && Owns(s, a, sid) && Owns(s, b, sid)
    ensures a == b
  {
    ReachableInv(s);
    if a != b {
      assert NodeOk(a, s.nodes[a], s.now) && NodeOk(b, s.nodes[b], s.now);
      OutranksTotal(s.nodes[a].win.focusTs, a, s.nodes[b].win.focusTs, b);
      if RanksAbove(s, b, a) {
        LowerOwnerOnlyWhileNewsTravels(s, a, b, sid);
      } else {
        LowerOwnerOnlyWhileNewsTravels(s, b, a, sid);
      }
    }
  }

  /** A live window remembers one that is gone only if that one crashed, or its goodbye is still
      under way. */
  lemma GoodbyesLeaveNoGhost(s: State, b: WindowId, p: WindowId)
    requires Reachable(s) && IsLive(s, b) && p in s.nodes[b].win.peers && !IsLive(s, p)
    ensures p in s.nodes && (s.nodes[p].phase.Crashed? || InFlight(s, p, b))
  {
    ReachableInv(s);
    assert NodeOk(b, s.nodes[b], s.now);
    assert PairOk(s.nodes[b], p, s.nodes[p]);
    assert NodeOk(p, s.nodes[p], s.now);
  }

  /** `w` wants the session and every other live window that wants it ranks below. */
  ghost predicate TopWanter(s: State, w: WindowId, sid: SessionId) {
    Wants(s, w, sid) && forall v | Wants(s, v, sid) && v != w :: RanksAbove(s, w, v)
  }

  /** w remembers a window that is gone, which wanted the session and ranks above w. */
  ghost predicate Haunted(s: State, w: WindowId, sid: SessionId)
    requires w in s.nodes
  {
    var n := s.nodes[w].win;
    exists p | p in n.peers && !IsLive(s, p) ::
      sid in n.peers[p].sessions && Outranks(n.peers[p].focusTs, p, n.focusTs, w)
  }

  lemma TopWanterOwnsIff(s: State, w: WindowId, sid: SessionId)
    requires Inv(s) && LiveQueuesEmpty(s) && TopWanter(s, w, sid)
    ensures Owns(s, w, sid) <==> !Haunted(s, w, sid)
  {
    var n := s.nodes[w].win;
    assert NodeOk(w, s.nodes[w], s.now);
    forall p | p in n.peers && sid in n.peers[p].sessions && IsLive(s, p)
      ensures !Outranks(n.peers[p].focusTs, p, n.focusTs, w)
    {
      DeliveredRecordIsTrue(s, w, p);
      assert Wants(s, p, sid);
      OutranksTotal(n.focusTs, w, n.peers[p].focusTs, p);
    }
  }

  lemma OwnerRanksTop(s: State, w: WindowId, sid: SessionId)
    requires Reachable(s) && LiveQueuesEmpty(s) && Owns(s, w, sid)
    ensures TopWanter(s, w, sid)
  {
    ReachableInv(s);
    assert NodeOk(w, s.nodes[w], s.now);
    forall v | Wants(s, v, sid) && v != w ensures RanksAbove(s, w, v) {
      OutranksTotal(s.nodes[w].win.focusTs, w, s.nodes[v].win.focusTs, v);
      if RanksAbove(s, v, w) { LowerOwnerOnlyWhileNewsTravels(s, w, v, sid); }
    }
  }

  /** With nothing in flight between live windows, ownership is exactly being the top wanter and
      remembering no window that is gone and would rank higher still. */
  lemma OwnerIsTopWanter(s: State, w: WindowId, sid: SessionId)
    requires Reachable(s) && LiveQueuesEmpty(s)
    ensures Owns(s, w, sid) <==> TopWanter(s, w, sid) && !Haunted(s, w, sid)
  {
    ReachableInv(s);
    if Owns(s, w, sid) { OwnerRanksTop(s, w, sid); }
    if TopWanter(s, w, sid) { TopWanterOwnsIff(s, w, sid); }
  }

  /** Among finitely many windows one ranks above all the others. */
  lemma {:induction false} TopExists(s: State, ws: set<WindowId>) returns (top: WindowId)
    requires ws != {} && ws <= s.nodes.Keys
    ensures top in ws && forall v | v in ws && v != top :: RanksAbove(s, top, v)
    decreases ws
  {
    var w :| w in ws;
    top := w;
    if ws != {w} {
      var t := TopExists(s, ws - {w});
      OutranksTotal(s.nodes[w].win.focusTs, w, s.nodes[t].win.focusTs, t);
      assert t != w;
      if RanksAbove(s, t, w) {
        top := t;
      } else {
        forall v | v in ws && v != w ensures RanksAbove(s, w, v) {
          if v != t {
            assert RanksAbove(s, t, v);
            OutranksTransitive(s.nodes[w].win.focusTs, w, s.nodes[t].win.focusTs, t, s.nodes[v].win.focusTs, v);
          }
        }
      }
    }
  }

  /** With nothing in flight between live windows, a session somebody wants has one owner, the top
      wanter, exactly if that one is not haunted; if it is, nobody owns the session. */
  lemma ExactlyOneOwner(s: State, x: WindowId, sid: SessionId) returns (top: WindowId)
    requires Reachable(s) && LiveQueuesEmpty(s) && Wants(s, x, sid)
    ensures TopWanter(s, top, sid)
    ensures forall w :: Owns(s, w, sid) <==> w == top && !Haunted(s, top, sid)
  {
    var wanters := set w | w in s.nodes && Wants(s, w, sid);
    assert x in wanters;
    top := TopExists(s, wanters);
    OwnerIsTopWanter(s, top, sid);
    forall w ensures Owns(s, w, sid) <==> w == top && !Haunted(s, top, sid) {
      OwnerIsTopWanter(s, w, sid);
      if TopWanter(s, w, sid) && w != top { OneTop(s, w, top, sid); }
    }
  }

  lemma OneTop(s: State, a: WindowId, b: WindowId, sid: SessionId)
    requires TopWanter(s, a, sid) && TopWanter(s, b, sid)
    ensures a == b
  {
    OutranksTotal(s.nodes[a].win.focusTs, a, s.nodes[b].win.focusTs, b);
  }

  // ---------------------------------------------------------------------------------------
  // A crash can leave a session without an owner

  lemma {:induction false} RunConcat(s: State, r1: seq<Step>, r2: seq<Step>)
    requires ValidRun(s, r1) && ValidRun(RunTo(s, r1), r2)
    ensures ValidRun(s, r1 + r2) && RunTo(s, r1 + r2) == RunTo(RunTo(s, r1), r2)
    decreases |r1|
  {
    if r1 == [] {
      assert r1 + r2 == r2;
    } else {
      assert (r1 + r2)[1..] == r1[1..] + r2;
      RunConcat(Next(s, r1[0]), r1[1..], r2);
    }
  }

  lemma {:induction false} ReachableOn(s: State, run: seq<Step>)
    requires Reachable(s) && ValidRun(s, run)
    ensures Reachable(RunTo(s, run))
  {
    var r0 :| ValidRun(Empty, r0) && RunTo(Empty, r0) == s;
    RunConcat(Empty, r0, run);
  }

  lemma {:induction false} RunOne(s: State, t: Step)
    requires Enabled(s, t)
    ensures ValidRun(s, [t]) && RunTo(s, [t]) == Next(s, t)
  {
    assert [t][1..] == [];
  }

  lemma {:induction false} RunSnoc(s: State, run: seq<Step>, t: Step)
    requires ValidRun(s, run) && Enabled(RunTo(s, run), t)
    ensures ValidRun(s, run + [t]) && RunTo(s, run + [t]) == Next(RunTo(s, run), t)
  {
    RunOne(RunTo(s, run), t);
    RunConcat(s, run, [t]);
  }

  /** Two windows want a session. */
  function BothOpen(a: WindowId, b: WindowId, sid: SessionId): seq<Step> {
    [Tick(1), Join(a, {sid}, true), Tick(2), Join(b, {sid}, true)]
  }

  /** The one focused later crashes when its greeting has arrived. */
  function CrashRun(a: WindowId, b: WindowId, sid: SessionId): seq<Step> {
    BothOpen(a, b, sid) + [Deliver(a, b)] + [Crash(b)]
  }

  lemma {:induction false} BothOpenState(a: WindowId, b: WindowId, sid: SessionId)
    requires a != b
    ensures ValidRun(Empty, BothOpen(a, b, sid))
    ensures var s := RunTo(Empty, BothOpen(a, b, sid));
      && s.now == 2 && s.nodes.Keys == {a, b} && InFlight(s, b, a) && s.nodes[b].phase.Live?
      && s.nodes[a] == Node(Window(a, 1, {sid}, {sid}, map[]), Live, [Presence(a, 1, {sid})], map[], map[])
      && s.nodes[b].log == [Presence(b, 2, {sid})]
  {
    var none: seq<Step> := [];
    RunSnoc(Empty, none, Tick(1));
    RunSnoc(Empty, none + [Tick(1)], Join(a, {sid}, true));
    RunSnoc(Empty, none + [Tick(1)] + [Join(a, {sid}, true)], Tick(2));
    RunSnoc(Empty, none + [Tick(1)] + [Join(a, {sid}, true)] + [Tick(2)], Join(b, {sid}, true));
    assert BothOpen(a, b, sid) == none + [Tick(1)] + [Join(a, {sid}, true)] + [Tick(2)] + [Join(b, {sid}, true)];
  }

  /** After that run nothing is in flight between live windows, one window wants the session, and
      nobody owns it, until the crashed window is forgotten. */
  lemma {:induction false} CrashLeavesNoOwner(a: WindowId, b: WindowId, sid: SessionId)
    requires a != b
    ensures ValidRun(Empty, CrashRun(a, b, sid))
    ensures var s := RunTo(Empty, CrashRun(a, b, sid));
      && Reachable(s) && LiveQueuesEmpty(s) && TopWanter(s, a, sid) && Haunted(s, a, sid)
      && forall w :: !Owns(s, w, sid)
  {
    BothOpenState(a, b, sid);
    RunSnoc(Empty, BothOpen(a, b, sid), Deliver(a, b));
    RunSnoc(Empty, BothOpen(a, b, sid) + [Deliver(a, b)], Crash(b));
    var s := RunTo(Empty, CrashRun(a, b, sid));
    assert s.nodes[a].win.peers == map[b := PeerRecord(2, {sid}, 2)];
    assert Outranks(s.nodes[a].win.peers[b].focusTs, b, s.nodes[a].win.focusTs, a);
    assert Haunted(s, a, sid);
    assert Reachable(s);
    OwnerIsTopWanter(s, a, sid);
  }

  // ---------------------------------------------------------------------------------------
  // Taking focus

  /** Peers never look more recently focused than they are. */
  lemma RecordsNeverAhead(s: State, b: WindowId, p: WindowId)
    requires Inv(s) && b in s.nodes && p in s.nodes[b].win.peers
    ensures p in s.nodes && p != b && s.nodes[b].win.peers[p].focusTs <= s.nodes[p].win.focusTs
  {
  }

  /** Live window w ranks above every other window there ever was. */
  ghost predicate RanksFirst(s: State, w: WindowId) {
    IsLive(s, w) && forall v | v in s.nodes && v != w :: RanksAbove(s, w, v)
  }

  lemma FirstOwnsAll(s: State, w: WindowId)
    requires Inv(s) && RanksFirst(s, w)
    ensures s.nodes[w].win.owned == s.nodes[w].win.claimed
  {
    var n := s.nodes[w].win;
    assert NodeOk(w, s.nodes[w], s.now);
    forall p | p in n.peers ensures !Outranks(n.peers[p].focusTs, p, n.focusTs, w) {
      RecordsNeverAhead(s, w, p);
      OutranksTotal(n.focusTs, w, s.nodes[p].win.focusTs, p);
    }
  }

  /** A focus gain that ranks above every other one wins all the window's sessions at once, without
      waiting for any message. */
  lemma TakeFocusOwnsAllAtOnce(s: State, w: WindowId)
    requires Reachable(s) && IsLive(s, w)
    requires forall v | v in s.nodes && v != w :: Outranks(s.now, w, s.nodes[v].win.focusTs, v)
    ensures var s' := Next(s, DoFocus(w)); RanksFirst(s', w) && s'.nodes[w].win.owned == s'.nodes[w].win.claimed
  {
    ReachableInv(s);
    StepKeepsInv(s, DoFocus(w));
    FirstOwnsAll(Next(s, DoFocus(w)), w);
  }

  /** Only deliveries. */
  ghost predicate DeliveryRun(s: State, run: seq<Step>) {
    ValidRun(s, run) && forall i | 0 <= i < |run| :: run[i].Deliver?
  }

  /** Deliveries change what windows know, never what they want or when they focused. */
  ghost predicate SameWants(s: State, t: State) {
    && s.nodes.Keys == t.nodes.Keys
    && forall w | w in s.nodes ::
         && s.nodes[w].phase == t.nodes[w].phase
         && s.nodes[w].win.focusTs == t.nodes[w].win.focusTs && s.nodes[w].win.claimed == t.nodes[w].win.claimed
         && s.nodes[w].start == t.nodes[w].start && |s.nodes[w].log| <= |t.nodes[w].log|
  }

  lemma DeliverKeepsWants(s: State, b: WindowId, a: WindowId)
    requires Enabled(s, Deliver(b, a))
    ensures SameWants(s, Next(s, Deliver(b, a)))
  {
  }

  lemma SameWantsTransitive(s: State, t: State, u: State)
    requires SameWants(s, t) && SameWants(t, u)
    ensures SameWants(s, u)
  {
  }

  lemma {:induction false} DeliveriesKeepWants(s: State, run: seq<Step>)
    requires DeliveryRun(s, run)
    ensures SameWants(s, RunTo(s, run))
    decreases |run|
  {
    if run != [] {
      var s1 := Next(s, run[0]);
      DeliverKeepsWants(s, run[0].to_, run[0].from);
      assert forall i | 0 <= i < |run[1..]| :: run[1..][i] == run[i + 1];
      DeliveriesKeepWants(s1, run[1..]);
      SameWantsTransitive(s, s1, RunTo(s1, run[1..]));
    }
  }

  /** No other window gains focus; one that opens does so hidden, with focus time 0. */
  predicate Undisturbing(t: Step, w: WindowId, since: nat) {
    && (t.DoFocus? ==> t.w == w)
    && (t.Join? ==> !t.visible && Outranks(since, w, 0, t.id))
  }

  ghost predicate Undisturbed(run: seq<Step>, w: WindowId, since: nat) {
    forall i | 0 <= i < |run| :: Undisturbing(run[i], w, since)
  }

  /** What one step leaves as it is: places in logs, and all focus times but one. */
  lemma StepKeepsFocus(s: State, t: Step, v: WindowId)
    requires Enabled(s, t) && v in s.nodes
    ensures var s' := Next(s, t);
      && v in s'.nodes && s'.nodes[v].start == s.nodes[v].start && s.nodes[v].log <= s'.nodes[v].log
      && s'.nodes[v].win.focusTs == (if t == DoFocus(v) then s.now else s.nodes[v].win.focusTs)
      && (IsLive(s', v) ==> IsLive(s, v))
  {
  }

  lemma StepKeepsFirst(s: State, t: Step, w: WindowId, since: nat)
    requires Inv(s) && RanksFirst(s, w) && Enabled(s, t) && Undisturbing(t, w, since)
    requires since <= s.nodes[w].win.focusTs && IsLive(Next(s, t), w)
    ensures RanksFirst(Next(s, t), w) && since <= Next(s, t).nodes[w].win.focusTs
  {
    var s' := Next(s, t);
    assert NodeOk(w, s.nodes[w], s.now);
    StepKeepsFocus(s, t, w);
    forall v | v in s'.nodes && v != w ensures RanksAbove(s', w, v) {
      if v in s.nodes {
        StepKeepsFocus(s, t, v);
        assert RanksAbove(s, w, v);
      } else {
        assert t.Join? && t.id == v && s'.nodes[v].win.focusTs == 0;
      }
    }
  }

  lemma {:induction false} FirstStaysFirst(s: State, run: seq<Step>, w: WindowId, since: nat)
    requires Inv(s) && ValidRun(s, run) && Undisturbed(run, w, since) && IsLive(RunTo(s, run), w) && w in s.nodes
    requires RanksFirst(s, w) && since <= s.nodes[w].win.focusTs
    ensures RanksFirst(RunTo(s, run), w)
    decreases |run|
  {
    if run != [] {
      var s1, rest := Next(s, run[0]), run[1..];
      StepKeepsInv(s, run[0]);
      StepKeepsFocus(s, run[0], w);
      RunKeepsPlaces(s1, rest, w);
      assert Undisturbing(run[0], w, since) && forall i | 0 <= i < |rest| :: rest[i] == run[i + 1];
      StepKeepsFirst(s, run[0], w, since);
      FirstStaysFirst(s1, rest, w, since);
    }
  }

  lemma {:induction false} RunKeepsPlaces(s: State, run: seq<Step>, v: WindowId)
    requires ValidRun(s, run) && v in s.nodes
    ensures var t := RunTo(s, run);
      && v in t.nodes && t.nodes[v].start == s.nodes[v].start && s.nodes[v].log <= t.nodes[v].log
      && (IsLive(t, v) ==> IsLive(s, v))
    decreases |run|
  {
    if run != [] {
      StepKeepsFocus(s, run[0], v);
      RunKeepsPlaces(Next(s, run[0]), run[1..], v);
    }
  }

  /** After a focus gain that ranks above all others, and any run in which no other window gains
      focus: the window owns everything it claims by then, and every window that has heard all its
      news has let go of those sessions, or opened meanwhile and still has its greeting on its way. */
  lemma {:induction false} TakeoverCompletes(s: State, w: WindowId, run: seq<Step>, b: WindowId)
    requires Reachable(s) && IsLive(s, w)
    requires forall v | v in s.nodes && v != w :: Outranks(s.now, w, s.nodes[v].win.focusTs, v)
    requires ValidRun(Next(s, DoFocus(w)), run) && Undisturbed(run, w, s.now)
    requires var t := RunTo(Next(s, DoFocus(w)), run);
      IsLive(t, w) && IsLive(t, b) && b != w && !InFlight(t, w, b)
    ensures var t := RunTo(Next(s, DoFocus(w)), run);
      && t.nodes[w].win.owned == t.nodes[w].win.claimed
      && (b in s.nodes || Knows(t, w, b) || !InFlight(t, b, w) ==> t.nodes[b].win.owned !! t.nodes[w].win.claimed)
  {
    var s1 := Next(s, DoFocus(w));
    var t := RunTo(s1, run);
    TakeFocusOwnsAllAtOnce(s, w);
    RunOne(s, DoFocus(w));
    ReachableOn(s, [DoFocus(w)]);
    ReachableInv(s);
    StepKeepsInv(s, DoFocus(w));
    ReachableOn(s1, run);
    ReachableInv(t);
    FirstStaysFirst(s1, run, w, s.now);
    FirstOwnsAll(t, w);
    if b in s.nodes { HeardNewsKnows(s, s1, run, b, w); }
    forall sid | sid in t.nodes[w].win.claimed && sid in t.nodes[b].win.owned
      ensures !(b in s.nodes || Knows(t, w, b) || !InFlight(t, b, w))
    {
      assert NodeOk(b, t.nodes[b], t.now);
      LowerOwnerOnlyWhileNewsTravels(t, b, w, sid);
    }
  }

  /** w posted something that has reached b, so b knows w. */
  lemma {:induction false} HeardNewsKnows(s: State, s1: State, run: seq<Step>, b: WindowId, w: WindowId)
    requires IsLive(s, w) && b in s.nodes && b != w && s1 == Next(s, DoFocus(w)) && ValidRun(s1, run)
    requires PairsOk(s) && PairsOk(RunTo(s1, run)) && IsLive(RunTo(s1, run), w) && !InFlight(RunTo(s1, run), w, b)
    ensures Knows(RunTo(s1, run), b, w)
  {
    FocusPosts(s, b, w);
    RunKeepsPlaces(s1, run, b);
    RunKeepsPlaces(s1, run, w);
    ReachedKnows(s, RunTo(s1, run), b, w);
  }

  lemma FocusPosts(s: State, b: WindowId, w: WindowId)
    requires IsLive(s, w) && b in s.nodes && b != w
    ensures var s1 := Next(s, DoFocus(w));
      |s.nodes[w].log| < |s1.nodes[w].log| && b in s1.nodes && s1.nodes[b] == s.nodes[b]
  {
  }

  lemma ReachedKnows(s: State, t: State, b: WindowId, w: WindowId)
    requires PairsOk(s) && PairsOk(t) && w in s.nodes && b in s.nodes && b != w && b in t.nodes && IsLive(t, w)
    requires t.nodes[b].start == s.nodes[b].start && |s.nodes[w].log| < |t.nodes[w].log| && !InFlight(t, w, b)
    ensures Knows(t, b, w)
  {
    assert PairOk(s.nodes[b], w, s.nodes[w]) && PairOk(t.nodes[b], w, t.nodes[w]);
  }
}
