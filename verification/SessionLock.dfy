/** One browser window's half of the cross-window session lock.

    The first part gives the window's state and the effect of every event on it as
    functions on values, which the protocol proofs use.  The second part is the module
    itself: mutable state changed by the API calls and by the channel's message handler,
    each method proved to have exactly the effect of the corresponding function. */
module SessionLock {
  import opened Wrappers
  import opened WindowOrder

  const STALE_MS: nat := 6000

  datatype PeerRecord = PeerRecord(focusTs: nat, sessions: set<SessionId>, lastSeen: nat)

  datatype LockMsg =
    | Presence(windowId: WindowId, focusTs: nat, sessions: set<SessionId>)
    | Bye(windowId: WindowId)

  datatype Window = Window(id: WindowId, focusTs: nat, claimed: set<SessionId>,
                           owned: set<SessionId>, peers: map<WindowId, PeerRecord>)

  /** Some peer in `peers` wants `sid` and outranks (focusTs, id). */
  ghost predicate Beaten(id: WindowId, focusTs: nat, sid: SessionId, peers: map<WindowId, PeerRecord>) {
    exists p | p in peers :: sid in peers[p].sessions && Outranks(peers[p].focusTs, p, focusTs, id)
  }

  /** What a window should own: the claimed sessions that no higher-ranked peer wants. */
  ghost function OwnedSet(id: WindowId, focusTs: nat, claimed: set<SessionId>,
                          peers: map<WindowId, PeerRecord>): set<SessionId> {
    set sid | sid in claimed && !Beaten(id, focusTs, sid, peers)
  }

  /** The cached `owned` agrees with the arbitration over the current claims and peers. */
  ghost predicate Coherent(w: Window) {
    w.owned == OwnedSet(w.id, w.focusTs, w.claimed, w.peers)
  }

  ghost function Recomputed(w: Window): (r: Window)
    ensures Coherent(r) && r == w.(owned := r.owned)
  {
    w.(owned := OwnedSet(w.id, w.focusTs, w.claimed, w.peers))
  }

  function PresenceOf(w: Window): LockMsg {
    Presence(w.id, w.focusTs, w.claimed)
  }

  /** The effect of an event: the new window state and what it posts on the channel. */
  datatype Effect = Effect(win: Window, posts: seq<LockMsg>)

  ghost function Claim(w: Window, sid: SessionId): Effect {
    if sid in w.claimed then Effect(w, [])
    else
      var w' := Recomputed(w.(claimed := w.claimed + {sid}));
      Effect(w', [PresenceOf(w')])
  }

  ghost function Release(w: Window, sid: SessionId): Effect {
    if sid !in w.claimed then Effect(w, [])
    else
      var w' := Recomputed(w.(claimed := w.claimed - {sid}));
      Effect(w', [PresenceOf(w')])
  }

  ghost function TakeFocus(w: Window, now: nat): Effect {
    var w' := Recomputed(w.(focusTs := now));
    Effect(w', [PresenceOf(w')])
  }

  /** initSessionLock: a visible page records the time, without recomputing, and announces itself. */
  function Init(w: Window, visible: bool, now: nat): Effect {
    var w' := if visible then w.(focusTs := now) else w;
    Effect(w', [PresenceOf(w')])
  }

  ghost function Receive(w: Window, m: LockMsg, now: nat): Effect {
    if m.windowId == w.id then Effect(w, [])
    else match m
      case Bye(p) =>
        if p in w.peers then Effect(Recomputed(w.(peers := w.peers - {p})), []) else Effect(w, [])
      case Presence(p, f, ss) =>
        var w' := Recomputed(w.(peers := w.peers[p := PeerRecord(f, ss, now)]));
        Effect(w', if p in w.peers then [] else [PresenceOf(w')])
  }

  function Stale(peers: map<WindowId, PeerRecord>, now: nat): set<WindowId> {
    set p | p in peers && peers[p].lastSeen < now - STALE_MS
  }

  /** The heartbeat posts first and forgets stale peers afterwards. */
  ghost function Heartbeat(w: Window, now: nat): Effect {
    var gone := Stale(w.peers, now);
    Effect(if gone == {} then w else Recomputed(w.(peers := w.peers - gone)), [PresenceOf(w)])
  }

  /** Every event keeps the cached set equal to the arbitration. */
  lemma EventsKeepCoherent(w: Window, sid: SessionId, m: LockMsg, now: nat)
    requires Coherent(w)
    ensures Coherent(Claim(w, sid).win) && Coherent(Release(w, sid).win)
    ensures Coherent(TakeFocus(w, now).win)
    ensures Coherent(Receive(w, m, now).win)
    ensures Coherent(Heartbeat(w, now).win)
  {
  }

  /** The first initialisation of a window, which knows no peers yet, keeps it coherent. */
  lemma FirstInitKeepsCoherent(w: Window, visible: bool, now: nat)
    requires Coherent(w) && w.peers == map[]
    ensures Coherent(Init(w, visible, now).win)
  {
  }

  /** Any initialisation, also one that finds peers left over from an earlier one: it does not
      recompute, so the cache stays right exactly if the page is hidden, or the new focus time
      wins back none of the sessions that were lost. */
  lemma InitCoherentIff(w: Window, visible: bool, now: nat)
    requires Coherent(w) && w.focusTs <= now
    ensures Coherent(Init(w, visible, now).win) <==>
              !visible || forall sid | sid in w.claimed - w.owned :: Beaten(w.id, now, sid, w.peers)
  {
    if visible {
      forall sid | sid in w.owned ensures !Beaten(w.id, now, sid, w.peers) {
        assert !Beaten(w.id, w.focusTs, sid, w.peers);
      }
      if forall sid | sid in w.claimed - w.owned :: Beaten(w.id, now, sid, w.peers) {
        assert w.owned == OwnedSet(w.id, now, w.claimed, w.peers);
      } else {
        var sid :| sid in w.claimed - w.owned && !Beaten(w.id, now, sid, w.peers);
        assert sid in OwnedSet(w.id, now, w.claimed, w.peers);
      }
    }
  }

  /** A run on which it goes wrong: the window opens, claims a session, hears from a window that was
      focused later, and is set up again, a teardown leaving its peers in place. */
  lemma ReinitCanGoStale()
    ensures var begun := Init(Window("a", 0, {}, {}, map[]), true, 1).win;
      var heard := Receive(Claim(begun, "s").win, Presence("b", 3, {"s"}), 3).win;
      Coherent(heard) && !Coherent(Init(heard, true, 5).win)
  {
    var begun := Init(Window("a", 0, {}, {}, map[]), true, 1).win;
    var heard := Receive(Claim(begun, "s").win, Presence("b", 3, {"s"}), 3).win;
    assert "b" in heard.peers && Outranks(heard.peers["b"].focusTs, "b", 1, "a");
    assert Beaten("a", 1, "s", heard.peers) && !Beaten("a", 5, "s", heard.peers);
    assert "s" in heard.claimed - heard.owned;
    InitCoherentIff(heard, true, 5);
  }

  // ---------------------------------------------------------------------------------------
  // The arbitration loop

  datatype Candidate = Candidate(windowId: WindowId, focusTs: nat, sessions: set<SessionId>)

  ghost predicate BeatenBy(self: Candidate, sid: SessionId, peers: seq<Candidate>) {
    exists i | 0 <= i < |peers| ::
      sid in peers[i].sessions && Outranks(peers[i].focusTs, peers[i].windowId, self.focusTs, self.windowId)
  }

  /** computeOwned: a nested loop with an early exit as soon as some peer wins. */
  method ComputeOwned(self: Candidate, peers: seq<Candidate>) returns (owned: set<SessionId>)
    ensures owned == set sid | sid in self.sessions && !BeatenBy(self, sid, peers)
  {
    owned := {};
    var rest := self.sessions;
    while rest != {}
      invariant rest <= self.sessions
      invariant owned == set sid | sid in self.sessions - rest && !BeatenBy(self, sid, peers)
      decreases rest
    {
      var sid :| sid in rest;
      rest := rest - {sid};
      var win := true;
      var i := 0;
      while i < |peers|
        invariant 0 <= i <= |peers|
        invariant win
        invariant !BeatenBy(self, sid, peers[..i])
      {
        var p := peers[i];
        assert peers[..i + 1] == peers[..i] + [p];
        i := i + 1;
        if sid !in p.sessions { continue; }
        if Outranks(p.focusTs, p.windowId, self.focusTs, self.windowId) {
          win := false;
          assert peers[i - 1] == p;
          break;
        }
      }
      assert win ==> peers[..i] == peers;
      if win { owned := owned + {sid}; }
    }
  }

  /** One entry for every peer, and no other. */
  ghost predicate Lists(peers: map<WindowId, PeerRecord>, out: seq<Candidate>) {
    && (forall i | 0 <= i < |out| :: out[i].windowId in peers
          && out[i] == Candidate(out[i].windowId, peers[out[i].windowId].focusTs, peers[out[i].windowId].sessions))
    && (forall p | p in peers :: exists i | 0 <= i < |out| :: out[i].windowId == p)
    && (forall i, j | 0 <= i < j < |out| :: out[i].windowId != out[j].windowId)
  }

  lemma ListsExtend(peers: map<WindowId, PeerRecord>, rest: set<WindowId>, p: WindowId, out: seq<Candidate>)
    requires p in rest && rest <= peers.Keys && Lists(peers - rest, out)
    ensures Lists(peers - (rest - {p}), out + [Candidate(p, peers[p].focusTs, peers[p].sessions)])
  {
    var out' := out + [Candidate(p, peers[p].focusTs, peers[p].sessions)];
    forall q | q in peers - (rest - {p}) ensures exists i | 0 <= i < |out'| :: out'[i].windowId == q {
      if q == p {
        assert out'[|out|].windowId == q;
      } else {
        assert q in peers - rest;
        var i :| 0 <= i < |out| && out[i].windowId == q;
        assert out'[i].windowId == q;
      }
    }
  }

  /** peersAsPresence: one entry per peer, in an order that is not specified. */
  method PeersAsPresence(peers: map<WindowId, PeerRecord>) returns (out: seq<Candidate>)
    ensures Lists(peers, out)
  {
    out := [];
    var rest := peers.Keys;
    while rest != {}
      invariant rest <= peers.Keys
      invariant Lists(peers - rest, out)
      decreases rest
    {
      var p :| p in rest;
      ListsExtend(peers, rest, p, out);
      out := out + [Candidate(p, peers[p].focusTs, peers[p].sessions)];
      rest := rest - {p};
    }
    assert peers - rest == peers;
  }

  lemma ListedBeaten(id: WindowId, focusTs: nat, claimed: set<SessionId>,
                     peers: map<WindowId, PeerRecord>, out: seq<Candidate>, sid: SessionId)
    requires Lists(peers, out)
    ensures BeatenBy(Candidate(id, focusTs, claimed), sid, out) <==> Beaten(id, focusTs, sid, peers)
  {
  }

  // ---------------------------------------------------------------------------------------
  // The module state of one window

  class Lock {
    const windowId: WindowId
    var focusTs: nat
    var claimed: set<SessionId>
    var owned: set<SessionId>
    var peers: map<WindowId, PeerRecord>
    var initialized: bool
    var open: bool                         // channel !== null
    var sent: seq<LockMsg>                 // everything posted on the channel
    var notified: seq<set<SessionId>>      // every value handed to the ownership listeners

    ghost function View(): Window reads this {
      Window(windowId, focusTs, claimed, owned, peers)
    }

    constructor (id: WindowId)
      ensures View() == Window(id, 0, {}, {}, map[]) && Coherent(View())
      ensures !initialized && !open && sent == [] && notified == []
    {
      windowId := id;
      focusTs, claimed, owned, peers := 0, {}, {}, map[];
      initialized, open, sent, notified := false, false, [], [];
    }

    method RecomputeOwned()
      modifies this`owned, this`notified
      ensures View() == Recomputed(old(View()))
      ensures notified == old(notified) + (if owned == old(owned) then [] else [owned])
    {
      var others := PeersAsPresence(peers);
      var self := Candidate(windowId, focusTs, claimed);
      var next := ComputeOwned(self, others);
      assert next == OwnedSet(windowId, focusTs, claimed, peers) by {
        forall sid ensures BeatenBy(self, sid, others) <==> Beaten(windowId, focusTs, sid, peers) {
          ListedBeaten(windowId, focusTs, claimed, peers, others, sid);
        }
      }
      if next == owned { return; }
      owned := next;
      notified := notified + [owned];
    }

    method Post(m: LockMsg)
      modifies this`sent
      ensures sent == old(sent) + (if open then [m] else [])
    {
      if open { sent := sent + [m]; }
    }

    /** The shared shape of the contracts below: the state moves as `e` says, the channel gets
        what `e` posts if it is open, and the listeners hear of the owned set if it changed. */
    twostate predicate Does(e: Effect) reads this {
      && View() == e.win
      && sent == old(sent) + (if open then e.posts else [])
      && open == old(open) && initialized == old(initialized)
      && notified == old(notified) + (if owned == old(owned) then [] else [owned])
    }

    method ClaimSession(sid: SessionId)
      modifies this
      ensures Does(Claim(old(View()), sid))
    {
      if sid in claimed { return; }
      claimed := claimed + {sid};
      RecomputeOwned();
      Post(Presence(windowId, focusTs, claimed));
    }

    method ReleaseSession(sid: SessionId)
      modifies this
      ensures Does(Release(old(View()), sid))
    {
      if sid !in claimed { return; }
      claimed := claimed - {sid};
      RecomputeOwned();
      Post(Presence(windowId, focusTs, claimed));
    }

    method OnFocus(now: nat)
      modifies this
      ensures Does(TakeFocus(old(View()), now))
    {
      focusTs := now;
      RecomputeOwned();
      Post(Presence(windowId, focusTs, claimed));
    }

    /** `available` says whether the browser has BroadcastChannel. */
    method InitSessionLock(visible: bool, available: bool, now: nat)
      modifies this
      ensures initialized && notified == old(notified)
      ensures old(initialized) ==> View() == old(View()) && open == old(open) && sent == old(sent)
      ensures !old(initialized) ==>
        var e := Init(old(View()), visible, now);
        View() == e.win && open == (old(open) || available) && sent == old(sent) + (if open then e.posts else [])
    {
      if initialized { return; }
      initialized := true;
      if visible { focusTs := now; }
      if available { open := true; }
      Post(Presence(windowId, focusTs, claimed));
    }

    /** What the function returned by the initialisation does. */
    method TearDown()
      modifies this
      ensures !initialized && !open && View() == old(View()) && notified == old(notified)
      ensures sent == old(sent) + (if old(open) then [Bye(windowId)] else [])
    {
      initialized := false;
      OnPageHide();
      open := false;
    }

    method OnMessage(m: LockMsg, now: nat)
      modifies this
      ensures Does(Receive(old(View()), m, now))
    {
      if m.windowId == windowId { return; }
      match m
      case Bye(p) =>
        if p in peers {
          peers := peers - {p};
          RecomputeOwned();
        }
      case Presence(p, f, ss) =>
        var isNew := p !in peers;
        peers := peers[p := PeerRecord(f, ss, now)];
        RecomputeOwned();
        if isNew { Post(Presence(windowId, focusTs, claimed)); }
    }

    /** The interval callback: post, then delete stale peers one by one. */
    method OnHeartbeat(now: nat)
      modifies this
      ensures Does(Heartbeat(old(View()), now))
    {
      Post(Presence(windowId, focusTs, claimed));
      var changed := false;
      var rest := peers.Keys;
      while rest != {}
        invariant rest <= old(peers).Keys
        invariant peers == old(peers) - (Stale(old(peers), now) - rest)
        invariant changed <==> Stale(old(peers), now) - rest != {}
        invariant unchanged(this`focusTs, this`claimed, this`owned, this`notified, this`open, this`initialized)
        invariant sent == old(sent) + (if open then [PresenceOf(old(View()))] else [])
        decreases rest
      {
        var id :| id in rest;
        assert id in peers && peers[id] == old(peers)[id];
        if peers[id].lastSeen < now - STALE_MS {
          peers := peers - {id};
          changed := true;
        }
        rest := rest - {id};
      }
      assert Stale(old(peers), now) - rest == Stale(old(peers), now);
      assert peers == old(peers) - Stale(old(peers), now);
      if changed { RecomputeOwned(); }
    }

    /** pagehide, beforeunload and the teardown all say goodbye. */
    method OnPageHide()
      modifies this
      ensures Does(Effect(old(View()), [Bye(windowId)]))
    {
      Post(Bye(windowId));
    }
  }
}
