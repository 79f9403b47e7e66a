/** Reply traffic dies out: without user actions or heartbeats only finitely many messages can
    be delivered, although a first contact is answered by a broadcast. */
module LockTermination {
  import opened Wrappers
  import opened WindowOrder
  import opened SessionLock
  import opened LockProtocol
  import opened LockTheorems
  import opened MapSum

  type Pair = (WindowId, WindowId)     // (receiver, sender)

  /** What delivering `msgs` can cost among n windows: a goodbye may make a peer unknown again. */
  function Weight(msgs: seq<LockMsg>, n: nat): nat {
    if msgs == [] then 0 else (if msgs[0].Bye? then n + 1 else 1) + Weight(msgs[1..], n)
  }

  lemma {:induction false} WeightAppend(msgs: seq<LockMsg>, m: LockMsg, n: nat)
    ensures Weight(msgs + [m], n) == Weight(msgs, n) + (if m.Bye? then n + 1 else 1)
  {
    if msgs == [] {
    } else {
      assert (msgs + [m])[1..] == msgs[1..] + [m];
      WeightAppend(msgs[1..], m, n);
    }
  }

  /** Receivers and the senders they can hear. */
  ghost function Pairs(s: State): set<Pair> {
    set b, a | b in s.nodes && a in s.nodes && IsLive(s, b) && a != b :: (b, a)
  }

  function Pending(s: State, b: WindowId, a: WindowId): seq<LockMsg>
    requires a in s.nodes && b in s.nodes
  {
    var k := Get(s.nodes[b].read, a);
    if k <= |s.nodes[a].log| then s.nodes[a].log[k..] else []
  }

  function Cost(s: State, b: WindowId, a: WindowId): nat
    requires a in s.nodes && b in s.nodes
  {
    (if Knows(s, b, a) then 0 else |s.nodes|) + Weight(Pending(s, b, a), |s.nodes|)
  }

  ghost function Costs(s: State): map<Pair, nat> {
    map p: Pair | p in Pairs(s) :: Cost(s, p.0, p.1)
  }

  /** N for every pair that has not met, one for every presence and N + 1 for every goodbye on its way. */
  ghost function Measure(s: State): nat {
    Sum(Costs(s))
  }

  /** Everyone a reply from b goes to. */
  ghost function Audience(s: State, b: WindowId): set<Pair> {
    set p: Pair | p in Pairs(s) && p.1 == b
  }

  lemma {:induction false} TaggedCard(ws: set<WindowId>, b: WindowId)
    ensures |set c | c in ws :: (c, b)| == |ws|
    decreases ws
  {
    var tagged: set<Pair> := set c | c in ws :: (c, b);
    if ws == {} {
      assert tagged == {};
    } else {
      var w :| w in ws;
      TaggedCard(ws - {w}, b);
      var rest: set<Pair> := set c | c in ws - {w} :: (c, b);
      assert tagged == rest + {(w, b)};
      assert (w, b) !in rest;
    }
  }

  lemma SubsetCard<T>(a: set<T>, b: set<T>)
    requires a <= b
    ensures |a| <= |b|
  {
    assert b == a + (b - a);
  }

  lemma AudienceSmall(s: State, b: WindowId)
    requires b in s.nodes
    ensures |Audience(s, b)| < |s.nodes|
  {
    var others: set<Pair> := set c | c in s.nodes.Keys - {b} :: (c, b);
    assert Audience(s, b) <= others;
    SubsetCard(Audience(s, b), others);
    TaggedCard(s.nodes.Keys - {b}, b);
    assert |s.nodes.Keys - {b}| == |s.nodes| - 1;
  }

  /** What one delivery does to the pair it serves. */
  lemma ServedPair(s: State, b: WindowId, a: WindowId)
    requires Enabled(s, Deliver(b, a)) && b == s.nodes[b].win.id
    requires s.nodes[a].log[Get(s.nodes[b].read, a)].windowId == a
    ensures var s', k := Next(s, Deliver(b, a)), Get(s.nodes[b].read, a);
      var replies := s.nodes[a].log[k].Presence? && !Knows(s, b, a);
      Cost(s', b, a) + (if replies then |s.nodes| + 1 else 1) <= Cost(s, b, a)
  {
    var s', k := Next(s, Deliver(b, a)), Get(s.nodes[b].read, a);
    SameNumber(s, b, a);
    assert Pending(s, b, a)[1..] == Pending(s', b, a) && Pending(s, b, a)[0] == s.nodes[a].log[k];
  }

  lemma SameNumber(s: State, b: WindowId, a: WindowId)
    requires Enabled(s, Deliver(b, a))
    ensures Next(s, Deliver(b, a)).nodes.Keys == s.nodes.Keys && |Next(s, Deliver(b, a)).nodes| == |s.nodes|
  {
    assert |Next(s, Deliver(b, a)).nodes.Keys| == |s.nodes.Keys|;
  }

  /** What it does to every other pair: at most one more message, and only from b. */
  lemma OtherPair(s: State, b: WindowId, a: WindowId, p: Pair)
    requires Inv(s) && Enabled(s, Deliver(b, a)) && p in Pairs(s) && p != (b, a)
    ensures var s', k := Next(s, Deliver(b, a)), Get(s.nodes[b].read, a);
      var replies := s.nodes[a].log[k].Presence? && !Knows(s, b, a);
      Cost(s', p.0, p.1) <= Cost(s, p.0, p.1) + (if replies && p.1 == b then 1 else 0)
  {
    assert NodeOk(b, s.nodes[b], s.now) && NodeOk(a, s.nodes[a], s.now);
    if p.1 == b {
      assert PairOk(s.nodes[p.0], b, s.nodes[b]);
      ReaderOfReceiver(s, b, a, p.0);
    } else {
      OtherSender(s, b, a, p.0, p.1);
    }
  }

  lemma ReaderOfReceiver(s: State, b: WindowId, a: WindowId, c: WindowId)
    requires Enabled(s, Deliver(b, a)) && c in s.nodes && c != b && Get(s.nodes[c].read, b) <= |s.nodes[b].log|
    requires s.nodes[b].win.id == b && s.nodes[a].log[Get(s.nodes[b].read, a)].windowId == a
    ensures var s', k := Next(s, Deliver(b, a)), Get(s.nodes[b].read, a);
      Cost(s', c, b) <= Cost(s, c, b) + (if s.nodes[a].log[k].Presence? && !Knows(s, b, a) then 1 else 0)
  {
    SameNumber(s, b, a);
    PostCost(s, Next(s, Deliver(b, a)), c, b);
  }

  lemma OtherSender(s: State, b: WindowId, a: WindowId, c: WindowId, d: WindowId)
    requires Enabled(s, Deliver(b, a)) && c in s.nodes && d in s.nodes && d != b && (c, d) != (b, a)
    requires s.nodes[b].win.id == b && s.nodes[a].log[Get(s.nodes[b].read, a)].windowId == a
    ensures Cost(Next(s, Deliver(b, a)), c, d) <= Cost(s, c, d)
  {
    SameNumber(s, b, a);
    QuietPair(s, Next(s, Deliver(b, a)), c, d);
  }

  /** A pair whose sender posts nothing and whose receiver hears nothing of it costs no more. */
  lemma QuietPair(s: State, s': State, c: WindowId, d: WindowId)
    requires c in s.nodes && d in s.nodes && c in s'.nodes && d in s'.nodes && |s'.nodes| == |s.nodes|
    requires s'.nodes[d].log == s.nodes[d].log && Get(s'.nodes[c].read, d) == Get(s.nodes[c].read, d)
    requires Knows(s, c, d) ==> Knows(s', c, d)
    ensures Cost(s', c, d) <= Cost(s, c, d)
  {
  }

  lemma PostCost(s: State, s': State, c: WindowId, b: WindowId)
    requires c in s.nodes && b in s.nodes && c in s'.nodes && b in s'.nodes && |s'.nodes| == |s.nodes|
    requires s'.nodes[c] == s.nodes[c]
    requires Get(s.nodes[c].read, b) <= |s.nodes[b].log|
    requires s'.nodes[b].log == s.nodes[b].log
          || exists m: LockMsg :: m.Presence? && s'.nodes[b].log == s.nodes[b].log + [m]
    ensures Cost(s', c, b) <= Cost(s, c, b) + |s'.nodes[b].log| - |s.nodes[b].log|
  {
    if s'.nodes[b].log != s.nodes[b].log {
      var m: LockMsg :| m.Presence? && s'.nodes[b].log == s.nodes[b].log + [m];
      assert Pending(s', c, b) == Pending(s, c, b) + [m];
      WeightAppend(Pending(s, c, b), m, |s.nodes|);
    }
  }

  /** How the sum moves when one entry drops and the entries in `bumped` grow by at most one. */
  lemma {:induction false} CostsDecrease(m: map<Pair, nat>, m': map<Pair, nat>, k: Pair, bumped: set<Pair>, drop: nat)
    requires m.Keys == m'.Keys && k in m && m'[k] + drop <= m[k] && |bumped| < drop
    requires forall p | p in m && p != k :: m'[p] <= m[p] + (if p in bumped then 1 else 0)
    ensures Sum(m') < Sum(m)
  {
    SumBump(m[k := m'[k]], m', bumped);
    SumUpdate(m, k, m'[k]);
  }

  /** Every delivery makes the measure smaller. */
  lemma DeliveryDecreases(s: State, b: WindowId, a: WindowId)
    requires Inv(s) && Enabled(s, Deliver(b, a))
    ensures Measure(Next(s, Deliver(b, a))) < Measure(s)
  {
    var s' := Next(s, Deliver(b, a));
    var replies := s.nodes[a].log[Get(s.nodes[b].read, a)].Presence? && !Knows(s, b, a);
    var bumped := if replies then Audience(s, b) else {};
    assert NodeOk(b, s.nodes[b], s.now) && NodeOk(a, s.nodes[a], s.now);
    SamePairs(s, b, a);
    forall p | p in Costs(s) && p != (b, a)
      ensures Costs(s')[p] <= Costs(s)[p] + (if p in bumped then 1 else 0)
    {
      OtherPair(s, b, a, p);
    }
    ServedPair(s, b, a);
    AudienceSmall(s, b);
    CostsDecrease(Costs(s), Costs(s'), (b, a), bumped, if replies then |s.nodes| + 1 else 1);
  }

  lemma SamePairs(s: State, b: WindowId, a: WindowId)
    requires Enabled(s, Deliver(b, a))
    ensures Pairs(Next(s, Deliver(b, a))) == Pairs(s) && (b, a) in Pairs(s)
  {
  }

  lemma DeliveryStep(s: State, t: Step)
    requires Inv(s) && Enabled(s, t) && t.Deliver?
    ensures Inv(Next(s, t)) && Measure(Next(s, t)) < Measure(s)
  {
    StepKeepsInv(s, t);
    DeliveryDecreases(s, t.to_, t.from);
  }

  lemma DeliveryRunTail(s: State, run: seq<Step>)
    requires DeliveryRun(s, run) && run != []
    ensures Enabled(s, run[0]) && run[0].Deliver? && DeliveryRun(Next(s, run[0]), run[1..])
  {
  }

  /** The measure bounds how many deliveries can follow one another. */
  lemma {:induction false} DeliveriesAreBounded(s: State, run: seq<Step>)
    requires Inv(s) && DeliveryRun(s, run)
    ensures |run| + Measure(RunTo(s, run)) <= Measure(s)
    decreases |run|
  {
    if run != [] {
      DeliveryRunTail(s, run);
      DeliveryStep(s, run[0]);
      DeliveriesAreBounded(Next(s, run[0]), run[1..]);
    }
  }

  ghost predicate CanDeliver(s: State) {
    exists b, a :: Enabled(s, Deliver(b, a))
  }

  /** And such a run always exists. */
  lemma {:induction false} SettlingRun(s: State) returns (run: seq<Step>)
    requires Inv(s)
    ensures DeliveryRun(s, run) && !CanDeliver(RunTo(s, run))
    decreases Measure(s)
  {
    run := [];
    if CanDeliver(s) {
      var b, a :| Enabled(s, Deliver(b, a));
      DeliveryStep(s, Deliver(b, a));
      var rest := SettlingRun(Next(s, Deliver(b, a)));
      run := [Deliver(b, a)] + rest;
      DeliveryRunCons(s, Deliver(b, a), rest);
    }
  }

  lemma {:induction false} DeliveryRunCons(s: State, t: Step, rest: seq<Step>)
    requires Enabled(s, t) && t.Deliver? && DeliveryRun(Next(s, t), rest)
    ensures DeliveryRun(s, [t] + rest) && RunTo(s, [t] + rest) == RunTo(Next(s, t), rest)
  {
  }

  lemma StuckMeansDelivered(t: State)
    requires !CanDeliver(t)
    ensures LiveQueuesEmpty(t) && forall a, b | IsLive(t, b) && a != b :: !InFlight(t, a, b)
  {
    forall a, b | IsLive(t, b) && a != b ensures !InFlight(t, a, b) {
      assert !Enabled(t, Deliver(b, a));
    }
  }

  /** w remembers p, or will when all of p's messages have arrived. */
  ghost predicate WillKnow(s: State, w: WindowId, p: WindowId) {
    Knows(s, w, p) || InFlight(s, p, w)
  }

  lemma ReceiveKnows(w: Window, m: LockMsg, now: nat, p: WindowId)
    requires m.windowId != w.id && (m.windowId == p ==> m.Presence?)
    ensures p in Receive(w, m, now).win.peers <==> p in w.peers || p == m.windowId
  {
  }

  /** The receiver's side: what it knows of p, and whether it has more of p's log to hear. */
  lemma HearingKeepsWillKnow(n: Node, a: WindowId, m: LockMsg, now: nat, p: WindowId, posted: nat)
    requires m.windowId == a != n.win.id && (a == p ==> m.Presence? && Get(n.read, a) < posted)
    ensures var n' := Acted(n, Receive(n.win, m, now)).(read := n.read[a := Get(n.read, a) + 1]);
      p in n'.win.peers || Get(n'.read, p) < posted <==> p in n.win.peers || Get(n.read, p) < posted
  {
    ReceiveKnows(n.win, m, now, p);
  }

  lemma DeliverKeepsWillKnow(s: State, b: WindowId, a: WindowId, w: WindowId, p: WindowId)
    requires NodesOk(s) && Enabled(s, Deliver(b, a)) && w in s.nodes && p in s.nodes && s.nodes[p].phase.Crashed?
    ensures WillKnow(Next(s, Deliver(b, a)), w, p) <==> WillKnow(s, w, p)
    ensures Next(s, Deliver(b, a)).nodes[p] == s.nodes[p]
  {
    if w == b {
      assert NodeOk(a, s.nodes[a], s.now) && NodeOk(b, s.nodes[b], s.now);
      HearingKeepsWillKnow(s.nodes[b], a, s.nodes[a].log[Get(s.nodes[b].read, a)], s.now, p, |s.nodes[p].log|);
    }
  }

  lemma {:induction false} DeliveriesKeepWillKnow(s: State, run: seq<Step>, w: WindowId, p: WindowId)
    requires Inv(s) && DeliveryRun(s, run) && w in s.nodes && p in s.nodes && s.nodes[p].phase.Crashed?
    ensures var t := RunTo(s, run);
      && w in t.nodes && p in t.nodes && t.nodes[p] == s.nodes[p]
      && (WillKnow(t, w, p) <==> WillKnow(s, w, p))
    decreases |run|
  {
    if run != [] {
      DeliveryRunTail(s, run);
      DeliveryStep(s, run[0]);
      DeliverKeepsWillKnow(s, run[0].to_, run[0].from, w, p);
      DeliveriesKeepWillKnow(Next(s, run[0]), run[1..], w, p);
    }
  }

  /** p has crashed, w remembers it or will, and p wanted the session and ranks above w. */
  ghost predicate Haunts(s: State, p: WindowId, w: WindowId, sid: SessionId) {
    && p in s.nodes && w in s.nodes && s.nodes[p].phase.Crashed? && WillKnow(s, w, p)
    && sid in s.nodes[p].win.claimed && RanksAbove(s, p, w)
  }

  /** With everything delivered, a record of a window that is gone is a crashed window's last state. */
  lemma GoneRecordIsTrue(t: State, w: WindowId, p: WindowId)
    requires Inv(t) && IsLive(t, w) && Knows(t, w, p) && !IsLive(t, p) && !InFlight(t, p, w)
    ensures p in t.nodes && p != w && t.nodes[p].phase.Crashed?
    ensures var r, n := t.nodes[w].win.peers[p], t.nodes[p].win; r.focusTs == n.focusTs && r.sessions == n.claimed
  {
    assert NodeOk(w, t.nodes[w], t.now);
    assert p in t.nodes && PairOk(t.nodes[w], p, t.nodes[p]);
    assert NodeOk(p, t.nodes[p], t.now);
  }

  /** Who is haunted when all is delivered can be told before. */
  lemma {:induction false} HauntedIffCrashed(s: State, run: seq<Step>, w: WindowId, sid: SessionId)
    requires Inv(s) && DeliveryRun(s, run) && !CanDeliver(RunTo(s, run)) && IsLive(RunTo(s, run), w)
    ensures Haunted(RunTo(s, run), w, sid) <==> exists p :: Haunts(s, p, w, sid)
  {
    var t := RunTo(s, run);
    RunKeepsInv(s, run);
    DeliveriesKeepWants(s, run);
    StuckMeansDelivered(t);
    var n := t.nodes[w].win;
    assert NodeOk(w, t.nodes[w], t.now);
    if Haunted(t, w, sid) {
      var p :| p in n.peers && !IsLive(t, p) && sid in n.peers[p].sessions
            && Outranks(n.peers[p].focusTs, p, n.focusTs, w);
      GoneRecordIsTrue(t, w, p);
      DeliveriesKeepWillKnow(s, run, w, p);
      assert Haunts(s, p, w, sid);
    }
    if p :| Haunts(s, p, w, sid) {
      DeliveriesKeepWillKnow(s, run, w, p);
      GoneRecordIsTrue(t, w, p);
    }
  }

  /** Deliveries that go on until none is left number at most Measure(s), and leave no session
      with two owners. */
  lemma {:induction false} SettledIsExclusive(s: State, run: seq<Step>, a: WindowId, b: WindowId, sid: SessionId)
    requires Reachable(s) && DeliveryRun(s, run) && !CanDeliver(RunTo(s, run))
    requires Owns(RunTo(s, run), a, sid) && Owns(RunTo(s, run), b, sid)
    ensures |run| <= Measure(s) && a == b
  {
    ReachableInv(s);
    DeliveriesAreBounded(s, run);
    ReachableOn(s, run);
    StuckMeansDelivered(RunTo(s, run));
    AtMostOneOwner(RunTo(s, run), a, b, sid);
  }

  /** And every session somebody wants ends up with the window that ranked highest when they began,
      unless a crashed window haunts that one; then nobody owns the session. */
  lemma {:induction false} SettledHasTopOwner(s: State, run: seq<Step>, x: WindowId, sid: SessionId)
    returns (top: WindowId)
    requires Reachable(s) && DeliveryRun(s, run) && !CanDeliver(RunTo(s, run)) && Wants(s, x, sid)
    ensures TopWanter(s, top, sid)
    ensures forall w :: Owns(RunTo(s, run), w, sid) <==> w == top && !exists p :: Haunts(s, p, top, sid)
  {
    var t := RunTo(s, run);
    ReachableInv(s);
    ReachableOn(s, run);
    DeliveriesKeepWants(s, run);
    StuckMeansDelivered(t);
    top := ExactlyOneOwner(t, x, sid);
    HauntedIffCrashed(s, run, top, sid);
    SameTop(s, t, top, sid);
  }

  lemma SameTop(s: State, t: State, owner: WindowId, sid: SessionId)
    requires SameWants(s, t) && TopWanter(t, owner, sid)
    ensures TopWanter(s, owner, sid)
  {
    forall v | Wants(s, v, sid) && v != owner ensures RanksAbove(s, owner, v) {
      assert Wants(t, v, sid);
    }
  }
}
