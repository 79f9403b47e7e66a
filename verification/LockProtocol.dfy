/** The session lock as a distributed protocol: any finite set of windows on one
    BroadcastChannel.

    A broadcast is the same message to every other window, and each ordered pair of windows
    is a FIFO queue.  So a sender keeps the list of everything it has posted, and a receiver
    keeps, per sender, how much of that list it has been handed; the queue from `a` to `b` is
    the rest.  A window that opens its channel late starts at the end of the existing lists.
    Every step of the protocol changes the node of exactly one window. */
module LockProtocol {
  import opened Wrappers
  import opened WindowOrder
  import opened SessionLock

  datatype Phase = Live | Closed | Crashed

  datatype Node = Node(win: Window, phase: Phase, log: seq<LockMsg>,
                       start: map<WindowId, nat>, read: map<WindowId, nat>)

  datatype State = State(nodes: map<WindowId, Node>, now: nat)

  function Get(m: map<WindowId, nat>, k: WindowId): nat {
    if k in m then m[k] else 0
  }

  predicate IsLive(s: State, w: WindowId) {
    w in s.nodes && s.nodes[w].phase.Live?
  }

  /** The queue from a to b still holds something. */
  predicate InFlight(s: State, a: WindowId, b: WindowId) {
    a in s.nodes && b in s.nodes && Get(s.nodes[b].read, a) < |s.nodes[a].log|
  }

  // ---------------------------------------------------------------------------------------
  // Steps

  ghost function Acted(n: Node, e: Effect): Node {
    n.(win := e.win, log := n.log + e.posts)
  }

  /** A window opens: it may hold claims already, knows nobody, and runs its one init. */
  ghost function Joined(s: State, id: WindowId, claims: set<SessionId>, visible: bool): Node {
    var e := Init(Window(id, 0, claims, claims, map[]), visible, s.now);
    var ends := map a | a in s.nodes :: |s.nodes[a].log|;
    Node(e.win, Live, e.posts, ends, ends)
  }

  ghost function Delivered(s: State, b: WindowId, a: WindowId): Node
    requires InFlight(s, a, b)
  {
    var n, k := s.nodes[b], Get(s.nodes[b].read, a);
    Acted(n, Receive(n.win, s.nodes[a].log[k], s.now)).(read := n.read[a := k + 1])
  }

  datatype Step =
    | Tick(to: nat)
    | Join(id: WindowId, claims: set<SessionId>, visible: bool)
    | DoClaim(w: WindowId, sid: SessionId)
    | DoRelease(w: WindowId, sid: SessionId)
    | DoFocus(w: WindowId)
    | DoHeartbeat(w: WindowId)
    | Deliver(to_: WindowId, from: WindowId)
    | Close(w: WindowId, extra: nat)
    | Crash(w: WindowId)

  /** What the environment may do.  The clock never goes back; ids are fresh; only a window that
      is really gone is stale when a heartbeat looks for stale peers. */
  ghost predicate Enabled(s: State, t: Step) {
    match t
    case Tick(to) => s.now <= to
    case Join(id, _, _) => id !in s.nodes
    case DoClaim(w, _) => IsLive(s, w)
    case DoRelease(w, _) => IsLive(s, w)
    case DoFocus(w) => IsLive(s, w)
    case DoHeartbeat(w) => IsLive(s, w) && forall p | p in Stale(s.nodes[w].win.peers, s.now) :: !IsLive(s, p)
    case Deliver(b, a) => IsLive(s, b) && a != b && InFlight(s, a, b)
    case Close(w, _) => IsLive(s, w)
    case Crash(w) => IsLive(s, w)
  }

  ghost function Next(s: State, t: Step): State
    requires Enabled(s, t)
  {
    match t
    case Tick(to) => s.(now := to)
    case Join(id, claims, visible) => s.(nodes := s.nodes[id := Joined(s, id, claims, visible)])
    case DoClaim(w, sid) => Put(s, w, Acted(s.nodes[w], Claim(s.nodes[w].win, sid)))
    case DoRelease(w, sid) => Put(s, w, Acted(s.nodes[w], Release(s.nodes[w].win, sid)))
    case DoFocus(w) => Put(s, w, Acted(s.nodes[w], TakeFocus(s.nodes[w].win, s.now)))
    case DoHeartbeat(w) => Put(s, w, Acted(s.nodes[w], Heartbeat(s.nodes[w].win, s.now)))
    case Deliver(b, a) => Put(s, b, Delivered(s, b, a))
    // beforeunload, pagehide and the teardown may each say goodbye
    case Close(w, extra) =>
      Put(s, w, s.nodes[w].(phase := Closed, log := s.nodes[w].log + seq(extra + 1, _ => Bye(w))))
    case Crash(w) => Put(s, w, s.nodes[w].(phase := Crashed))
  }

  ghost function Put(s: State, w: WindowId, n: Node): State {
    s.(nodes := s.nodes[w := n])
  }

  ghost predicate ValidRun(s: State, run: seq<Step>)
    decreases |run|
  {
    run == [] || (Enabled(s, run[0]) && ValidRun(Next(s, run[0]), run[1..]))
  }

  ghost function RunTo(s: State, run: seq<Step>): State
    requires ValidRun(s, run)
    decreases |run|
  {
    if run == [] then s else RunTo(Next(s, run[0]), run[1..])
  }

  const Empty := State(map[], 0)

  // ---------------------------------------------------------------------------------------
  // The invariant

  /** What a node promises on its own. */
  ghost predicate NodeOk(id: WindowId, n: Node, now: nat) {
    && n.win.id == id
    && Coherent(n.win)
    && id !in n.win.peers
    && n.win.focusTs <= now
    && (forall i | 0 <= i < |n.log| :: n.log[i].windowId == id
          && (n.log[i].Presence? ==> n.log[i].focusTs <= n.win.focusTs))
    && n.log != []
    && (!n.phase.Closed? ==> n.log[|n.log| - 1] == PresenceOf(n.win))
    && (!n.phase.Closed? ==> forall i | 0 <= i < |n.log| :: n.log[i].Presence?)
    && (n.phase.Closed? ==> n.log[|n.log| - 1] == Bye(id))
  }

  /** A record of a sender is what the last delivered message said. */
  ghost predicate Recorded(w: Window, a: WindowId, m: LockMsg) {
    a in w.peers && m.Presence? && w.peers[a].focusTs == m.focusTs && w.peers[a].sessions == m.sessions
  }

  /** What b holds about a. */
  ghost predicate PairOk(b: Node, a: WindowId, na: Node) {
    var st, rd := Get(b.start, a), Get(b.read, a);
    && st <= rd <= |na.log|
    && (a in b.win.peers ==> st < rd && Recorded(b.win, a, na.log[rd - 1]))
    && (na.phase.Live? && st < rd ==> a in b.win.peers)
  }

  ghost predicate NodesOk(s: State) {
    && (forall w | w in s.nodes :: NodeOk(w, s.nodes[w], s.now))
    && (forall w | w in s.nodes :: s.nodes[w].win.peers.Keys <= s.nodes.Keys
          && s.nodes[w].read.Keys <= s.nodes.Keys && s.nodes[w].start.Keys <= s.nodes.Keys)
  }

  ghost predicate PairsOk(s: State) {
    forall a, b | a in s.nodes && b in s.nodes && a != b :: PairOk(s.nodes[b], a, s.nodes[a])
  }

  predicate Knows(s: State, b: WindowId, a: WindowId) {
    b in s.nodes && a in s.nodes[b].win.peers
  }

  /** First contact: if b has not heard of a, then news from a is under way, or a has not heard
      of b either and will answer b's greeting, which is under way. */
  ghost predicate Introduced(s: State, b: WindowId, a: WindowId) {
    Knows(s, b, a) || InFlight(s, a, b) || (!Knows(s, a, b) && InFlight(s, b, a))
  }

  ghost predicate IntroducedAll(s: State) {
    forall a, b | IsLive(s, a) && IsLive(s, b) && a != b :: Introduced(s, b, a)
  }

  ghost predicate Inv(s: State) {
    NodesOk(s) && PairsOk(s) && IntroducedAll(s)
  }

  // ---------------------------------------------------------------------------------------
  // Every step keeps the invariant

  lemma InitialInv()
    ensures Inv(Empty)
  {
  }

  /** The sender went on posting, or stopped: what the receiver holds is still right. */
  lemma SenderMoves(b: Node, a: WindowId, o: Node, n: Node)
    requires PairOk(b, a, o) && o.log <= n.log && (n.phase.Live? ==> o.phase.Live?)
    ensures PairOk(b, a, n)
  {
  }

  /** The receiver dropped no live peer and learned nothing. */
  ghost predicate Forgets(o: Node, n: Node) {
    && n.start == o.start && n.read == o.read
    && forall p | p in n.win.peers :: p in o.win.peers && n.win.peers[p] == o.win.peers[p]
  }

  lemma ReceiverMoves(o: Node, n: Node, a: WindowId, na: Node)
    requires PairOk(o, a, na) && Forgets(o, n)
    requires na.phase.Live? && a in o.win.peers ==> a in n.win.peers
    ensures PairOk(n, a, na)
  {
  }

  ghost predicate FitsPairs(s: State, w: WindowId, n: Node) {
    && (forall a | a in s.nodes && a != w :: PairOk(n, a, s.nodes[a]))
    && (forall b | b in s.nodes && b != w :: PairOk(s.nodes[b], w, n))
  }

  lemma PutKeepsPairs(s: State, w: WindowId, n: Node)
    requires PairsOk(s) && FitsPairs(s, w, n)
    ensures PairsOk(Put(s, w, n))
  {
  }

  ghost predicate FitsNodes(s: State, w: WindowId, n: Node) {
    && NodeOk(w, n, s.now)
    && n.win.peers.Keys <= s.nodes.Keys && n.read.Keys <= s.nodes.Keys && n.start.Keys <= s.nodes.Keys
  }

  lemma PutKeepsNodes(s: State, w: WindowId, n: Node)
    requires NodesOk(s) && FitsNodes(s, w, n)
    ensures NodesOk(Put(s, w, n))
  {
  }

  /** A live window that posts, and drops no live peer. */
  ghost predicate LocalAct(s: State, w: WindowId, n: Node)
    requires w in s.nodes
  {
    var o := s.nodes[w];
    && FitsNodes(s, w, n)
    && n.phase == o.phase && o.log <= n.log
    && Forgets(o, n)
    && (forall p | p in o.win.peers && IsLive(s, p) :: p in n.win.peers)
  }

  lemma LocalActFitsPairs(s: State, w: WindowId, n: Node)
    requires PairsOk(s) && IsLive(s, w) && LocalAct(s, w, n)
    ensures FitsPairs(s, w, n)
  {
    forall a | a in s.nodes && a != w ensures PairOk(n, a, s.nodes[a]) {
      ReceiverMoves(s.nodes[w], n, a, s.nodes[a]);
    }
    forall b | b in s.nodes && b != w ensures PairOk(s.nodes[b], w, n) {
      SenderMoves(s.nodes[b], w, s.nodes[w], n);
    }
  }

  lemma LocalActIntroduced(s: State, w: WindowId, n: Node)
    requires IntroducedAll(s) && IsLive(s, w) && LocalAct(s, w, n)
    ensures IntroducedAll(Put(s, w, n))
  {
    var s' := Put(s, w, n);
    forall a, b | IsLive(s', a) && IsLive(s', b) && a != b ensures Introduced(s', b, a) {
      assert IsLive(s, a) && IsLive(s, b);
      assert Introduced(s, b, a);
    }
  }

  lemma LocalActKeepsInv(s: State, w: WindowId, n: Node)
    requires Inv(s) && IsLive(s, w) && LocalAct(s, w, n)
    ensures Inv(Put(s, w, n))
  {
    LocalActFitsPairs(s, w, n);
    PutKeepsPairs(s, w, n);
    PutKeepsNodes(s, w, n);
    LocalActIntroduced(s, w, n);
  }

  /** An effect that only posts the new presence, or changes nothing, is such an act. */
  lemma EffectIsLocalAct(s: State, w: WindowId, e: Effect)
    requires NodesOk(s) && IsLive(s, w)
    requires var o := s.nodes[w].win;
      && e.win.id == o.id && Coherent(e.win) && o.focusTs <= e.win.focusTs <= s.now
      && (e.posts == [PresenceOf(e.win)] || (e.posts == [] && e.win == o))
      && (forall p | p in e.win.peers :: p in o.peers && e.win.peers[p] == o.peers[p])
      && (forall p | p in o.peers && IsLive(s, p) :: p in e.win.peers)
    ensures LocalAct(s, w, Acted(s.nodes[w], e))
  {
    var o, n := s.nodes[w], Acted(s.nodes[w], e);
    assert NodeOk(w, o, s.now);
    forall i | 0 <= i < |n.log|
      ensures n.log[i].windowId == w && n.log[i].Presence? && n.log[i].focusTs <= n.win.focusTs
    {
      if i < |o.log| { assert n.log[i] == o.log[i]; }
    }
  }

  lemma JoinedNodeOk(s: State, id: WindowId, claims: set<SessionId>, visible: bool)
    ensures NodeOk(id, Joined(s, id, claims, visible), s.now)
  {
  }

  lemma JoinIntroduced(s: State, id: WindowId, claims: set<SessionId>, visible: bool)
    requires IntroducedAll(s) && id !in s.nodes
    requires forall w | w in s.nodes ::
      s.nodes[w].win.peers.Keys <= s.nodes.Keys && s.nodes[w].read.Keys <= s.nodes.Keys
    ensures IntroducedAll(Put(s, id, Joined(s, id, claims, visible)))
  {
    var s' := Put(s, id, Joined(s, id, claims, visible));
    forall a, b | IsLive(s', a) && IsLive(s', b) && a != b ensures Introduced(s', b, a) {
      if a != id && b != id {
        assert IsLive(s, a) && IsLive(s, b);
        assert Introduced(s, b, a);
      } else {
        // the newcomer's greeting is on its way to everyone, and nobody knows it
        var other := if a == id then b else a;
        assert InFlight(s', id, other) && !Knows(s', other, id);
      }
    }
  }

  lemma JoinFitsPairs(s: State, id: WindowId, claims: set<SessionId>, visible: bool)
    requires NodesOk(s) && id !in s.nodes
    ensures FitsPairs(s, id, Joined(s, id, claims, visible))
  {
  }

  lemma JoinKeepsInv(s: State, id: WindowId, claims: set<SessionId>, visible: bool)
    requires Inv(s) && id !in s.nodes
    ensures Inv(Put(s, id, Joined(s, id, claims, visible)))
  {
    var n := Joined(s, id, claims, visible);
    JoinedNodeOk(s, id, claims, visible);
    JoinFitsPairs(s, id, claims, visible);
    JoinIntroduced(s, id, claims, visible);
    PutKeepsPairs(s, id, n);
  }

  lemma DeliverPair(n: Node, n': Node, a: WindowId, na: Node, now: nat)
    requires PairOk(n, a, na) && a != n.win.id && Get(n.read, a) < |na.log|
    requires var m := na.log[Get(n.read, a)];
      && m.windowId == a && (na.phase.Live? ==> m.Presence?)
      && n' == Acted(n, Receive(n.win, m, now)).(read := n.read[a := Get(n.read, a) + 1])
    ensures PairOk(n', a, na)
    ensures forall c | c != a :: (c in n'.win.peers <==> c in n.win.peers)
    ensures forall c | c != a && c in n.win.peers :: n'.win.peers[c] == n.win.peers[c]
  {
  }

  lemma DeliverNodeOk(s: State, b: WindowId, a: WindowId)
    requires NodesOk(s) && Enabled(s, Deliver(b, a))
    ensures FitsNodes(s, b, Delivered(s, b, a))
  {
    var n, n' := s.nodes[b], Delivered(s, b, a);
    var m := s.nodes[a].log[Get(n.read, a)];
    assert NodeOk(b, n, s.now) && NodeOk(a, s.nodes[a], s.now);
    EventsKeepCoherent(n.win, "", m, s.now);
    ReceivedLogOk(n, m, s.now, b);
  }

  lemma ReceivedLogOk(n: Node, m: LockMsg, now: nat, b: WindowId)
    requires NodeOk(b, n, now) && !n.phase.Closed?
    ensures var n' := Acted(n, Receive(n.win, m, now));
      && n'.log != [] && n'.log[|n'.log| - 1] == PresenceOf(n'.win)
      && forall i | 0 <= i < |n'.log| ::
           n'.log[i].windowId == b && n'.log[i].Presence? && n'.log[i].focusTs <= n'.win.focusTs
  {
    var n' := Acted(n, Receive(n.win, m, now));
    forall i | 0 <= i < |n'.log|
      ensures n'.log[i].windowId == b && n'.log[i].Presence? && n'.log[i].focusTs <= n'.win.focusTs
    {
      if i < |n.log| { assert n'.log[i] == n.log[i]; }
    }
  }

  lemma DeliverOther(n: Node, n': Node, a: WindowId, c: WindowId, nc: Node)
    requires PairOk(n, c, nc) && c != a && n'.start == n.start
    requires n'.read == n.read[a := Get(n.read, a) + 1]
    requires c in n'.win.peers <==> c in n.win.peers
    requires c in n.win.peers ==> n'.win.peers[c] == n.win.peers[c]
    ensures PairOk(n', c, nc)
  {
  }

  lemma DeliverSender(s: State, b: WindowId, n': Node)
    requires PairsOk(s) && b in s.nodes && s.nodes[b].log <= n'.log && n'.phase == s.nodes[b].phase
    ensures forall c | c in s.nodes && c != b :: PairOk(s.nodes[c], b, n')
  {
    forall c | c in s.nodes && c != b ensures PairOk(s.nodes[c], b, n') {
      SenderMoves(s.nodes[c], b, s.nodes[b], n');
    }
  }

  lemma DeliverFitsPairs(s: State, b: WindowId, a: WindowId)
    requires NodesOk(s) && PairsOk(s) && Enabled(s, Deliver(b, a))
    ensures FitsPairs(s, b, Delivered(s, b, a))
  {
    var n' := Delivered(s, b, a);
    assert NodeOk(a, s.nodes[a], s.now) && NodeOk(b, s.nodes[b], s.now);
    forall c | c in s.nodes && c != b ensures PairOk(n', c, s.nodes[c]) {
      assert PairOk(s.nodes[b], c, s.nodes[c]);
      DeliverReceiver(s, b, a, c);
    }
    DeliverSender(s, b, n');
  }

  lemma DeliverReceiver(s: State, b: WindowId, a: WindowId, c: WindowId)
    requires Enabled(s, Deliver(b, a)) && c in s.nodes && PairOk(s.nodes[b], c, s.nodes[c])
    requires NodeOk(a, s.nodes[a], s.now) && NodeOk(b, s.nodes[b], s.now)
    ensures PairOk(Delivered(s, b, a), c, s.nodes[c])
  {
    var n, n' := s.nodes[b], Delivered(s, b, a);
    if c == a { DeliverPair(n, n', a, s.nodes[a], s.now); } else { DeliverOther(n, n', a, c, s.nodes[c]); }
  }

  lemma DeliverIntroduced(s: State, b: WindowId, a: WindowId)
    requires IntroducedAll(s) && Enabled(s, Deliver(b, a)) && b == s.nodes[b].win.id
    requires PairOk(s.nodes[a], b, s.nodes[b])
    requires var m := s.nodes[a].log[Get(s.nodes[b].read, a)];
      m.windowId == a && (IsLive(s, a) ==> m.Presence?)
    ensures IntroducedAll(Put(s, b, Delivered(s, b, a)))
  {
    var n, n' := s.nodes[b], Delivered(s, b, a);
    var s' := Put(s, b, n');
    forall x, y | IsLive(s', x) && IsLive(s', y) && x != y ensures Introduced(s', y, x) {
      assert IsLive(s, x) && IsLive(s, y);
      assert Introduced(s, y, x) && Introduced(s, x, y);
      if x == b && y == a && a !in n.win.peers {
        assert |n'.log| == |n.log| + 1;
        assert InFlight(s', b, a);
      }
    }
  }

  lemma DeliverKeepsInv(s: State, b: WindowId, a: WindowId)
    requires Inv(s) && Enabled(s, Deliver(b, a))
    ensures Inv(Put(s, b, Delivered(s, b, a)))
  {
    assert NodeOk(a, s.nodes[a], s.now) && NodeOk(b, s.nodes[b], s.now);
    DeliverNodeOk(s, b, a);
    DeliverFitsPairs(s, b, a);
    DeliverIntroduced(s, b, a);
    PutKeepsNodes(s, b, Delivered(s, b, a));
    PutKeepsPairs(s, b, Delivered(s, b, a));
  }

  /** A window that stops, with or without saying goodbye. */
  lemma StopKeepsInv(s: State, w: WindowId, n: Node)
    requires Inv(s) && IsLive(s, w) && !n.phase.Live?
    requires s.nodes[w].log <= n.log && Forgets(s.nodes[w], n) && FitsNodes(s, w, n)
    requires n.win == s.nodes[w].win
    ensures Inv(Put(s, w, n))
  {
    forall a | a in s.nodes && a != w ensures PairOk(n, a, s.nodes[a]) {
      ReceiverMoves(s.nodes[w], n, a, s.nodes[a]);
    }
    forall b | b in s.nodes && b != w ensures PairOk(s.nodes[b], w, n) {
      SenderMoves(s.nodes[b], w, s.nodes[w], n);
    }
    PutKeepsPairs(s, w, n);
    PutKeepsNodes(s, w, n);
    StopIntroduced(s, w, n);
  }

  lemma StopIntroduced(s: State, w: WindowId, n: Node)
    requires IntroducedAll(s) && !n.phase.Live?
    ensures IntroducedAll(Put(s, w, n))
  {
    var s' := Put(s, w, n);
    forall a, b | IsLive(s', a) && IsLive(s', b) && a != b ensures Introduced(s', b, a) {
      assert Introduced(s, b, a);
    }
  }

  lemma ClosedNodeOk(w: WindowId, o: Node, extra: nat, now: nat)
    requires NodeOk(w, o, now) && o.phase.Live?
    ensures NodeOk(w, o.(phase := Closed, log := o.log + seq(extra + 1, _ => Bye(w))), now)
  {
    var n := o.(phase := Closed, log := o.log + seq(extra + 1, _ => Bye(w)));
    forall i | 0 <= i < |n.log|
      ensures n.log[i].windowId == w && (n.log[i].Presence? ==> n.log[i].focusTs <= n.win.focusTs)
    {
      if i < |o.log| { assert n.log[i] == o.log[i]; }
    }
  }

  lemma TickKeepsInv(s: State, to: nat)
    requires Inv(s) && s.now <= to
    ensures Inv(s.(now := to))
  {
    var s' := s.(now := to);
    forall a, b | IsLive(s', a) && IsLive(s', b) && a != b ensures Introduced(s', b, a) {
      assert Introduced(s, b, a);
    }
  }

  lemma EffectKeepsInv(s: State, w: WindowId, e: Effect)
    requires Inv(s) && IsLive(s, w)
    requires var o := s.nodes[w].win;
      && e.win.id == o.id && Coherent(e.win) && o.focusTs <= e.win.focusTs <= s.now
      && (e.posts == [PresenceOf(e.win)] || (e.posts == [] && e.win == o))
      && (forall p | p in e.win.peers :: p in o.peers && e.win.peers[p] == o.peers[p])
      && (forall p | p in o.peers && IsLive(s, p) :: p in e.win.peers)
    ensures Inv(Put(s, w, Acted(s.nodes[w], e)))
  {
    EffectIsLocalAct(s, w, e);
    LocalActKeepsInv(s, w, Acted(s.nodes[w], e));
  }

  lemma ApiKeepsInv(s: State, w: WindowId, sid: SessionId)
    requires Inv(s) && IsLive(s, w)
    ensures Inv(Put(s, w, Acted(s.nodes[w], Claim(s.nodes[w].win, sid))))
    ensures Inv(Put(s, w, Acted(s.nodes[w], Release(s.nodes[w].win, sid))))
    ensures Inv(Put(s, w, Acted(s.nodes[w], TakeFocus(s.nodes[w].win, s.now))))
  {
    assert NodeOk(w, s.nodes[w], s.now);
    EffectKeepsInv(s, w, Claim(s.nodes[w].win, sid));
    EffectKeepsInv(s, w, Release(s.nodes[w].win, sid));
    EffectKeepsInv(s, w, TakeFocus(s.nodes[w].win, s.now));
  }

  lemma HeartbeatKeepsInv(s: State, w: WindowId)
    requires Inv(s) && Enabled(s, DoHeartbeat(w))
    ensures Inv(Put(s, w, Acted(s.nodes[w], Heartbeat(s.nodes[w].win, s.now))))
  {
    assert NodeOk(w, s.nodes[w], s.now);
    EffectKeepsInv(s, w, Heartbeat(s.nodes[w].win, s.now));
  }

  lemma StopStepKeepsInv(s: State, w: WindowId, extra: nat)
    requires Inv(s) && IsLive(s, w)
    ensures Inv(Next(s, Close(w, extra))) && Inv(Next(s, Crash(w)))
  {
    assert NodeOk(w, s.nodes[w], s.now);
    ClosedNodeOk(w, s.nodes[w], extra, s.now);
    StopKeepsInv(s, w, Next(s, Close(w, extra)).nodes[w]);
    StopKeepsInv(s, w, Next(s, Crash(w)).nodes[w]);
  }

  /** Every step of every window, and of the channel, keeps the invariant. */
  lemma StepKeepsInv(s: State, t: Step)
    requires Inv(s) && Enabled(s, t)
    ensures Inv(Next(s, t))
  {
    match t
    case Tick(to) => TickKeepsInv(s, to);
    case Join(id, claims, visible) => JoinKeepsInv(s, id, claims, visible);
    case DoClaim(w, sid) => ApiKeepsInv(s, w, sid);
    case DoRelease(w, sid) => ApiKeepsInv(s, w, sid);
    case DoFocus(w) => ApiKeepsInv(s, w, "");
    case DoHeartbeat(w) => HeartbeatKeepsInv(s, w);
    case Deliver(b, a) => DeliverKeepsInv(s, b, a);
    case Close(w, extra) => StopStepKeepsInv(s, w, extra);
    case Crash(w) => StopStepKeepsInv(s, w, 0);
  }

  lemma {:induction false} RunKeepsInv(s: State, run: seq<Step>)
    requires Inv(s) && ValidRun(s, run)
    ensures Inv(RunTo(s, run))
    decreases |run|
  {
    if run != [] {
      StepKeepsInv(s, run[0]);
      RunKeepsInv(Next(s, run[0]), run[1..]);
    }
  }
}
