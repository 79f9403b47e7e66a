/** What a window claims is what it was told, and what becomes of a session that is given up.

    The arbitration only decides among the windows that want a session.  Here it is proved what
    each window wants and when it was focused, over every history of one window and every run of
    the protocol, and what a claim or a release leads to once the messages have arrived. */
module LockClaims {
  import opened Wrappers
  import opened WindowOrder
  import opened SessionLock
  import opened LockProtocol
  import opened LockTheorems
  import opened LockTermination
  import Alone = LockTiming

  // ---------------------------------------------------------------------------------------
  // The rule's own meaning

  /** The window focused later ranks higher, whatever the ids; on equal times the greater id does. */
  lemma {:induction false} RankingRule(fa: nat, a: WindowId, fb: nat, b: WindowId)
    ensures fa > fb ==> Outranks(fa, a, fb, b) && !Outranks(fb, b, fa, a)
    ensures fa == fb ==> (Outranks(fa, a, fb, b) <==> StringLess(b, a))
  {
  }

  /** Strings compare by their first difference, and a proper prefix comes first. */
  lemma {:induction false} FirstDifferenceDecides(p: string, x: char, a: string, y: char, b: string)
    ensures x < y ==> StringLess(p + [x] + a, p + [y] + b) && !StringLess(p + [y] + b, p + [x] + a)
    ensures StringLess(p, p + [x] + a) && !StringLess(p + [x] + a, p)
  {
    if p == [] {
      assert p + [x] + a == [x] + a && p + [y] + b == [y] + b;
    } else {
      FirstDifferenceDecides(p[1..], x, a, y, b);
      assert (p + [x] + a)[1..] == p[1..] + [x] + a && (p + [y] + b)[1..] == p[1..] + [y] + b;
    }
  }

  // ---------------------------------------------------------------------------------------
  // One window

  predicate About(e: Alone.Event, sid: SessionId) {
    (e.Claimed? || e.Released?) && e.sid == sid
  }

  /** Event i is the last of the first n that claims or releases the session. */
  ghost predicate LastAbout(evs: seq<Alone.Event>, n: nat, sid: SessionId, i: nat) {
    i < n <= |evs| && About(evs[i], sid) && forall j | i < j < n :: !About(evs[j], sid)
  }

  lemma ClaimMovesAlone(w: Window, e: Alone.Event, sid: SessionId)
    ensures sid in Alone.Do(w, e).claimed <==> if About(e, sid) then e.Claimed? else sid in w.claimed
  {
  }

  /** Over every history: a session is claimed if and only if it was last claimed and not released,
      or was claimed to begin with and nothing was said of it.  What others do makes no difference. */
  lemma {:induction false} ClaimedIsHistory(w: Window, evs: seq<Alone.Event>, n: nat, sid: SessionId)
    requires n <= |evs|
    ensures forall i: nat | LastAbout(evs, n, sid, i) :: sid in Alone.After(w, evs, n).claimed <==> evs[i].Claimed?
    ensures (forall i | 0 <= i < n :: !About(evs[i], sid)) ==>
              (sid in Alone.After(w, evs, n).claimed <==> sid in w.claimed)
  {
    if n > 0 {
      var k := n - 1;
      ClaimedIsHistory(w, evs, k, sid);
      ClaimMovesAlone(Alone.After(w, evs, k), evs[k], sid);
      forall i: nat | LastAbout(evs, n, sid, i) ensures sid in Alone.After(w, evs, n).claimed <==> evs[i].Claimed? {
        if i < k { assert LastAbout(evs, k, sid, i) && !About(evs[k], sid); }
      }
    }
  }

  ghost predicate LastFocus(evs: seq<Alone.Event>, n: nat, i: nat) {
    i < n <= |evs| && evs[i].Focused? && forall j | i < j < n :: !evs[j].Focused?
  }

  lemma FocusMoves(w: Window, e: Alone.Event)
    ensures Alone.Do(w, e).focusTs == if e.Focused? then e.at else w.focusTs
  {
  }

  /** And the focus time is the time of the last focus gain. */
  lemma {:induction false} FocusIsHistory(w: Window, evs: seq<Alone.Event>, n: nat)
    requires n <= |evs|
    ensures forall i: nat | LastFocus(evs, n, i) :: Alone.After(w, evs, n).focusTs == evs[i].at
    ensures (forall i | 0 <= i < n :: !evs[i].Focused?) ==> Alone.After(w, evs, n).focusTs == w.focusTs
  {
    if n > 0 {
      var k := n - 1;
      FocusIsHistory(w, evs, k);
      FocusMoves(Alone.After(w, evs, k), evs[k]);
      forall i: nat | LastFocus(evs, n, i) ensures Alone.After(w, evs, n).focusTs == evs[i].at {
        if i < k { assert LastFocus(evs, k, i) && !evs[k].Focused?; }
      }
    }
  }

  predicate Announces(e: Effect) {
    e.posts == [Presence(e.win.id, e.win.focusTs, e.win.claimed)]
  }

  /** Whatever is posted is the new state.  A claim or a release is announced exactly if it changes
      something, focus gains and ticks always, and a presence is answered exactly on first contact. */
  lemma PostsTellTheNewState(w: Window, sid: SessionId, m: LockMsg, visible: bool, now: nat)
    ensures if sid in w.claimed then Claim(w, sid) == Effect(w, []) else Announces(Claim(w, sid))
    ensures if sid in w.claimed then Announces(Release(w, sid)) else Release(w, sid) == Effect(w, [])
    ensures Announces(TakeFocus(w, now)) && Announces(Heartbeat(w, now)) && Announces(Init(w, visible, now))
    ensures m.Presence? && m.windowId != w.id && m.windowId !in w.peers ==> Announces(Receive(w, m, now))
    ensures m.Bye? || m.windowId == w.id || m.windowId in w.peers ==> Receive(w, m, now).posts == []
  {
  }

  // ---------------------------------------------------------------------------------------
  // All windows

  predicate Concerns(t: Step, v: WindowId, sid: SessionId) {
    t == DoClaim(v, sid) || t == DoRelease(v, sid) || (t.Join? && t.id == v)
  }

  predicate Grants(t: Step, sid: SessionId) {
    t.DoClaim? || (t.Join? && sid in t.claims)
  }

  lemma StepMovesClaim(s: State, t: Step, v: WindowId, sid: SessionId)
    requires Enabled(s, t) && v in Next(s, t).nodes
    ensures if Concerns(t, v, sid) then sid in Next(s, t).nodes[v].win.claimed <==> Grants(t, sid)
            else v in s.nodes && (sid in Next(s, t).nodes[v].win.claimed <==> sid in s.nodes[v].win.claimed)
  {
  }

  ghost predicate LastConcern(run: seq<Step>, v: WindowId, sid: SessionId, i: nat) {
    i < |run| && Concerns(run[i], v, sid) && forall j | i < j < |run| :: !Concerns(run[j], v, sid)
  }

  ghost predicate NoConcern(run: seq<Step>, v: WindowId, sid: SessionId) {
    forall j | 0 <= j < |run| :: !Concerns(run[j], v, sid)
  }

  /** Over every run of the protocol, of any number of windows. */
  lemma {:induction false} ClaimsAreHistory(s: State, run: seq<Step>, v: WindowId, sid: SessionId)
    requires ValidRun(s, run) && v in RunTo(s, run).nodes
    ensures forall i: nat | LastConcern(run, v, sid, i) ::
              sid in RunTo(s, run).nodes[v].win.claimed <==> Grants(run[i], sid)
    ensures NoConcern(run, v, sid) ==>
              v in s.nodes && (sid in RunTo(s, run).nodes[v].win.claimed <==> sid in s.nodes[v].win.claimed)
    decreases |run|
  {
    if run != [] {
      var rest := run[1..];
      assert forall j | 0 <= j < |rest| :: rest[j] == run[j + 1];
      ClaimsAreHistory(Next(s, run[0]), rest, v, sid);
      if NoConcern(rest, v, sid) { StepMovesClaim(s, run[0], v, sid); }
      forall i: nat | LastConcern(run, v, sid, i)
        ensures sid in RunTo(s, run).nodes[v].win.claimed <==> Grants(run[i], sid)
      {
        if i > 0 { assert LastConcern(rest, v, sid, i - 1); }
      }
    }
  }

  // ---------------------------------------------------------------------------------------
  // Claiming and releasing

  /** Of all windows but w, live ones that want the session, `top` ranks highest. */
  ghost predicate TopBesides(s: State, w: WindowId, top: WindowId, sid: SessionId) {
    && Wants(s, top, sid) && top != w
    && forall v | Wants(s, v, sid) && v != w && v != top :: RanksAbove(s, top, v)
  }

  lemma ReleaseMoves(s: State, w: WindowId, sid: SessionId)
    requires IsLive(s, w)
    ensures var s1 := Next(s, DoRelease(w, sid));
      && !Wants(s1, w, sid)
      && (forall v :: v != w ==> (Wants(s1, v, sid) <==> Wants(s, v, sid)))
      && (forall v | v in s.nodes :: v in s1.nodes && s1.nodes[v].win.focusTs == s.nodes[v].win.focusTs)
  {
  }

  /** When the news has arrived everywhere, a window that released a session neither wants nor owns
      it, and of the others that want it the highest-ranked one owns it, unless a crashed window
      haunts that one; then nobody does. */
  lemma {:induction false} ReleaseHandsOver(s: State, w: WindowId, sid: SessionId, run: seq<Step>, x: WindowId)
    returns (top: WindowId)
    requires Reachable(s) && IsLive(s, w) && Wants(s, x, sid) && x != w
    requires DeliveryRun(Next(s, DoRelease(w, sid)), run) && !CanDeliver(RunTo(Next(s, DoRelease(w, sid)), run))
    ensures TopBesides(s, w, top, sid)
    ensures var s1 := Next(s, DoRelease(w, sid)); var t := RunTo(s1, run);
      && !Wants(t, w, sid) && !Owns(t, w, sid)
      && forall v :: Owns(t, v, sid) <==> v == top && !exists p :: Haunts(s1, p, top, sid)
  {
    var s1 := Next(s, DoRelease(w, sid));
    RunOne(s, DoRelease(w, sid));
    ReachableOn(s, [DoRelease(w, sid)]);
    ReleaseMoves(s, w, sid);
    DeliveriesKeepWants(s1, run);
    top := SettledHasTopOwner(s1, run, x, sid);
    TopAsBefore(s, s1, w, top, sid);
  }

  lemma TopAsBefore(s: State, s1: State, w: WindowId, top: WindowId, sid: SessionId)
    requires TopWanter(s1, top, sid) && !Wants(s1, w, sid)
    requires forall v :: v != w ==> (Wants(s1, v, sid) <==> Wants(s, v, sid))
    requires forall v | v in s.nodes :: v in s1.nodes && s1.nodes[v].win.focusTs == s.nodes[v].win.focusTs
    ensures TopBesides(s, w, top, sid)
  {
    forall v | Wants(s, v, sid) && v != w && v != top ensures RanksAbove(s, top, v) {
      assert Wants(s1, v, sid);
    }
  }

  lemma ClaimMoves(s: State, w: WindowId, sid: SessionId)
    requires IsLive(s, w)
    ensures var s1 := Next(s, DoClaim(w, sid));
      forall v, y :: Wants(s1, v, y) <==> Wants(s, v, y) || (v == w && y == sid)
  {
  }

  /** A window that claims a session goes on wanting all it wanted, and so do the others; when the
      news has arrived the session has its highest-ranked wanter as owner, or none if that one is
      haunted. */
  lemma {:induction false} ClaimJoinsIn(s: State, w: WindowId, sid: SessionId, run: seq<Step>)
    returns (top: WindowId)
    requires Reachable(s) && IsLive(s, w)
    requires DeliveryRun(Next(s, DoClaim(w, sid)), run) && !CanDeliver(RunTo(Next(s, DoClaim(w, sid)), run))
    ensures var s1 := Next(s, DoClaim(w, sid)); var t := RunTo(s1, run);
      && (forall v, y :: Wants(t, v, y) <==> Wants(s, v, y) || (v == w && y == sid))
      && TopWanter(s1, top, sid)
      && forall v :: Owns(t, v, sid) <==> v == top && !exists p :: Haunts(s1, p, top, sid)
  {
    var s1 := Next(s, DoClaim(w, sid));
    RunOne(s, DoClaim(w, sid));
    ReachableOn(s, [DoClaim(w, sid)]);
    ClaimMoves(s, w, sid);
    DeliveriesKeepWants(s1, run);
    top := SettledHasTopOwner(s1, run, w, sid);
  }
}
