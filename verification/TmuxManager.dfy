/** The tmux attach manager.

    The first part gives the manager's state and the effect of its lock-protected operations as
    functions on values: every attach client ever started, the slot map, and the size cache.
    The second part is the manager as objects, each method proved to have that effect.
    What tmux and the operating system answer comes in as parameters. */
module TmuxManager {
  import opened Wrappers

  newtype uint16 = x: int | 0 <= x < 0x1_0000
  datatype Size = Size(cols: uint16, rows: uint16)

  /** One attach client: its `closed` flag, whether the pty is open, and how often its process was killed. */
  datatype Client = Client(sid: SessionId, closed: bool, ptmxOpen: bool, kills: nat)

  /** A client is named by its position in `clients`; `slots` is the manager's `sessions` map. */
  datatype Mgr = Mgr(clients: seq<Client>, slots: map<SessionId, nat>, lastSize: map<SessionId, Size>)

  function Closed(c: Client): Client {
    if c.closed then c else c.(closed := true, ptmxOpen := false, kills := c.kills + 1)
  }

  function PtmxClosed(c: Client): Client {
    if c.closed then c else c.(ptmxOpen := false)
  }

  function Started(sid: SessionId): Client {
    Client(sid, false, true, 0)
  }

  function CloseAt(clients: seq<Client>, i: nat): seq<Client> {
    if i < |clients| then clients[i := Closed(clients[i])] else clients
  }

  function Attach(m: Mgr, sid: SessionId): Mgr {
    var clients := if sid in m.slots then CloseAt(m.clients, m.slots[sid]) else m.clients;
    m.(clients := clients + [Started(sid)], slots := m.slots[sid := |m.clients|])
  }

  function Detach(m: Mgr, sid: SessionId, client: nat): Mgr {
    m.(clients := CloseAt(m.clients, client),
       slots := if sid in m.slots && m.slots[sid] == client then m.slots - {sid} else m.slots)
  }

  /** Closes whatever client holds the slot and frees it. */
  function Evict(m: Mgr, sid: SessionId): Mgr {
    m.(clients := if sid in m.slots then CloseAt(m.clients, m.slots[sid]) else m.clients,
       slots := m.slots - {sid})
  }

  function Kill(m: Mgr, sid: SessionId): Mgr {
    Evict(m, sid).(lastSize := m.lastSize - {sid})
  }

  /** Shutdown closes every client in the map and empties it; the size cache is left alone. */
  function Shutdown(m: Mgr): Mgr {
    m.(clients := seq(|m.clients|, i requires 0 <= i < |m.clients| =>
         if i in m.slots.Values then Closed(m.clients[i]) else m.clients[i]),
       slots := map[])
  }

  /** Resize asks tmux only for a size it did not last ask for, and remembers it if tmux agreed. */
  predicate Skips(m: Mgr, sid: SessionId, size: Size) {
    sid in m.lastSize && m.lastSize[sid] == size
  }

  function Resize(m: Mgr, sid: SessionId, size: Size, ok: bool): Mgr {
    if Skips(m, sid, size) || !ok then m else m.(lastSize := m.lastSize[sid := size])
  }

  /** Session.ClosePTMX on one client, which is not the manager's doing. */
  function ClosePty(m: Mgr, client: nat): Mgr {
    if client < |m.clients| then m.(clients := m.clients[client := PtmxClosed(m.clients[client])]) else m
  }

  /** The open clients are exactly those in the map, each under its own session id; a client's
      process has been killed once if it is closed and not at all otherwise. */
  predicate MgrOk(m: Mgr) {
    && (forall s | s in m.slots :: m.slots[s] < |m.clients| && m.clients[m.slots[s]].sid == s)
    && forall i | 0 <= i < |m.clients| ::
         var c := m.clients[i];
         && (!c.closed <==> c.sid in m.slots && m.slots[c.sid] == i)
         && c.kills == (if c.closed then 1 else 0)
         && (c.closed ==> !c.ptmxOpen)
  }

  /** At most one open client per session id. */
  lemma OneOpenClientEach(m: Mgr, i: nat, j: nat)
    requires MgrOk(m) && i < |m.clients| && j < |m.clients|
    requires !m.clients[i].closed && !m.clients[j].closed && m.clients[i].sid == m.clients[j].sid
    ensures i == j
  {
  }

  lemma AttachKeeps(m: Mgr, sid: SessionId)
    requires MgrOk(m)
    ensures MgrOk(Attach(m, sid))
  {
  }

  lemma DetachKeeps(m: Mgr, sid: SessionId, client: nat)
    requires MgrOk(m) && client < |m.clients| && m.clients[client].sid == sid
    ensures MgrOk(Detach(m, sid, client))
  {
  }

  lemma EvictKeeps(m: Mgr, sid: SessionId)
    requires MgrOk(m)
    ensures MgrOk(Evict(m, sid)) && MgrOk(Kill(m, sid))
  {
  }

  /** Evicting one entry first makes no difference to a shutdown, so the order does not matter. */
  lemma EvictThenShutdown(m: Mgr, sid: SessionId)
    requires MgrOk(m) && sid in m.slots
    ensures Shutdown(Evict(m, sid)) == Shutdown(m)
  {
    var e := Evict(m, sid);
    forall i | 0 <= i < |m.clients|
      ensures Shutdown(e).clients[i] == Shutdown(m).clients[i]
    {
      var s := m.clients[i].sid;
      if i in m.slots.Values {
        assert s in m.slots && m.slots[s] == i;
        if s != sid { assert s in e.slots && e.slots[s] == i; }
      } else {
        assert i !in e.slots.Values;
      }
    }
    assert Shutdown(e).clients == Shutdown(m).clients;
  }

  lemma ShutdownKeeps(m: Mgr)
    requires MgrOk(m)
    ensures MgrOk(Shutdown(m)) && forall c | c in Shutdown(m).clients :: c.closed
  {
  }

  lemma PtmxKeeps(m: Mgr, client: nat)
    requires MgrOk(m) && client < |m.clients|
    ensures MgrOk(ClosePty(m, client))
  {
  }

  /** A Detach with a stale reference closes only that client, evicts nobody, and in particular
      leaves a newer attach in its slot and open. */
  lemma DetachTouchesOnlyItsClient(m: Mgr, sid: SessionId, client: nat)
    requires MgrOk(m) && client < |m.clients| && m.clients[client].sid == sid
    ensures var m' := Detach(m, sid, client);
      && |m'.clients| == |m.clients| && m'.clients[client].closed
      && (forall i | 0 <= i < |m.clients| && i != client :: m'.clients[i] == m.clients[i])
      && (forall s | s in m.slots && m.slots[s] != client :: s in m'.slots && m'.slots[s] == m.slots[s])
      && (m.clients[client].closed ==> m' == m)
  {
  }

  // ---------------------------------------------------------------------------------------
  // The objects

  /** session.go: Close kills the process once; ClosePTMX only closes the pty. */
  class Session {
    const sid: SessionId
    ghost const index: nat
    var closed: bool
    var ptmxOpen: bool
    var kills: nat

    function View(): Client reads this {
      Client(sid, closed, ptmxOpen, kills)
    }

    constructor (sid: SessionId, ghost index: nat)
      ensures this.sid == sid && this.index == index && View() == Started(sid)
    {
      this.sid, this.index := sid, index;
      closed, ptmxOpen, kills := false, true, 0;
    }

    method Close()
      modifies this
      ensures View() == Closed(old(View()))
    {
      if closed { return; }
      closed := true;
      ptmxOpen := false;
      kills := kills + 1;
    }

    method ClosePTMX()
      modifies this
      ensures View() == PtmxClosed(old(View()))
    {
      if closed { return; }
      ptmxOpen := false;
    }
  }

  datatype AttachAnswer = Failed | Attached(recreated: bool)

  class Manager {
    var sessions: map<SessionId, Session>
    var lastSize: map<SessionId, Size>
    var issued: seq<(SessionId, Size)>     // the resize commands given to tmux
    ghost var created: seq<Session>        // every attach client ever started
    ghost var state: Mgr                   // what the fields amount to, as a value

    ghost predicate ClientsMatch() reads this, created {
      && |created| == |state.clients|
      && forall i | 0 <= i < |created| :: created[i].index == i && created[i].View() == state.clients[i]
    }

    ghost predicate SlotsMatch() reads this, created {
      && sessions.Keys == state.slots.Keys && lastSize == state.lastSize
      && forall s | s in sessions :: state.slots[s] < |created| && created[state.slots[s]] == sessions[s]
    }

    ghost predicate Matches() reads this, created {
      ClientsMatch() && SlotsMatch()
    }

    ghost predicate Valid() reads this, created {
      Matches() && MgrOk(state)
    }

    constructor ()
      ensures Valid() && state == Mgr([], map[], map[]) && issued == []
    {
      sessions, lastSize, issued, created, state := map[], map[], [], [], Mgr([], map[], map[]);
    }

    /** Session.Close, as the manager's clients see it. */
    method CloseSession(s: Session)
      requires ClientsMatch() && s in created
      modifies this`state, s
      ensures ClientsMatch()
      ensures state == old(state).(clients := CloseAt(old(state).clients, s.index))
    {
      s.Close();
      state := state.(clients := CloseAt(state.clients, s.index));
    }

    /** Closes the session in a slot and deletes the slot. */
    method RemoveEntry(sid: SessionId)
      requires Matches() && sid in sessions
      modifies this, created
      ensures Matches() && created == old(created) && issued == old(issued)
      ensures state == Evict(old(state), sid) && sessions == old(sessions) - {sid}
    {
      CloseSession(sessions[sid]);
      sessions := sessions - {sid};
      state := state.(slots := state.slots - {sid});
    }

    /** Closes a prior session in the slot, if any; the slot still holds it. */
    method CloseHolder(sid: SessionId)
      requires Matches()
      modifies this`state, created
      ensures Matches() && |state.clients| == |old(state).clients|
      ensures state == old(state).(clients := Evict(old(state), sid).clients)
    {
      if sid in sessions {
        CloseSession(sessions[sid]);
      }
    }

    /** And puts the new one there. */
    method Install(sid: SessionId, s: Session)
      requires Matches() && s.index == |created| && s.View() == Started(sid) && s !in created
      modifies this, created
      ensures Matches() && created == old(created) + [s] && issued == old(issued)
      ensures state == Attach(old(state), sid)
    {
      CloseHolder(sid);
      sessions := sessions[sid := s];
      created := created + [s];
      state := state.(clients := state.clients + [Started(sid)], slots := state.slots[sid := s.index]);
    }

    /** The answers say whether the tmux session exists, can be created, and can be attached to. */
    method AttachTo(sid: SessionId, present: bool, createOk: bool, startOk: bool)
      returns (answer: AttachAnswer, sess: Session?)
      requires Valid()
      modifies this, created
      ensures Valid() && issued == old(issued)
      ensures answer.Failed? <==> (!present && !createOk) || !startOk
      ensures answer.Failed? ==> sess == null && state == old(state) && created == old(created)
      ensures answer.Attached? ==>
        && answer.recreated == !present && sess != null && fresh(sess)
        && created == old(created) + [sess] && sess.index == |old(created)|
        && state == Attach(old(state), sid)
    {
      var recreated := false;
      if !present {
        if !createOk { return Failed, null; }
        recreated := true;
      }
      if !startOk { return Failed, null; }
      AttachKeeps(state, sid);
      var s := new Session(sid, |created|);
      Install(sid, s);
      return Attached(recreated), s;
    }

    /** Removes the slot only if it still holds the caller's session; closes the session regardless. */
    method DetachFrom(sid: SessionId, sess: Session?)
      requires Valid()
      requires sess != null ==> sess in created && sess.sid == sid
      modifies this, created
      ensures Valid() && created == old(created) && issued == old(issued)
      ensures state == if sess == null then old(state) else Detach(old(state), sid, sess.index)
    {
      if sess == null { return; }
      DetachKeeps(state, sid, sess.index);
      CompareAndClose(sid, sess);
    }

    method CompareAndClose(sid: SessionId, sess: Session)
      requires Matches() && sess in created && sess.sid == sid
      modifies this, created
      ensures Matches() && created == old(created) && issued == old(issued)
      ensures state == Detach(old(state), sid, sess.index)
    {
      ghost var target := Detach(state, sid, sess.index);
      if sid in sessions && sessions[sid] == sess {
        sessions := sessions - {sid};
      }
      CloseSession(sess);
      state := target;
    }

    method KillSession(sid: SessionId)
      requires Valid()
      modifies this, created
      ensures Valid() && created == old(created) && issued == old(issued)
      ensures state == Kill(old(state), sid)
    {
      EvictKeeps(state, sid);
      Forget(sid);
    }

    method Forget(sid: SessionId)
      requires Matches()
      modifies this, created
      ensures Matches() && created == old(created) && issued == old(issued)
      ensures state == Kill(old(state), sid)
    {
      ghost var target := Kill(state, sid);
      if sid in sessions {
        RemoveEntry(sid);
      }
      lastSize := lastSize - {sid};
      state := target;
    }

    /** `ok` is what tmux answers if it is asked at all. */
    method ResizeTo(sid: SessionId, size: Size, ok: bool) returns (failed: bool)
      requires Valid()
      modifies this
      ensures Valid() && created == old(created) && sessions == old(sessions)
      ensures state == Resize(old(state), sid, size, ok)
      ensures issued == old(issued) + (if Skips(old(state), sid, size) then [] else [(sid, size)])
      ensures failed <==> !Skips(old(state), sid, size) && !ok
    {
      if sid in lastSize && lastSize[sid] == size { return false; }
      issued := issued + [(sid, size)];
      if !ok { return true; }
      lastSize := lastSize[sid := size];
      state := Resize(state, sid, size, ok);
      return false;
    }

    /** The loop closes and deletes entry by entry, in whatever order the map is walked. */
    method ShutdownAll()
      requires Valid()
      modifies this, created
      ensures Valid() && created == old(created) && issued == old(issued)
      ensures state == Shutdown(old(state))
    {
      ghost var goal := Shutdown(state);
      while sessions != map[]
        invariant Valid() && created == old(created) && issued == old(issued)
        invariant Shutdown(state) == goal
        decreases |sessions|
      {
        var id :| id in sessions;
        EvictKeeps(state, id);
        EvictThenShutdown(state, id);
        Fewer(sessions, id);
        RemoveEntry(id);
      }
      ShutdownOfEmpty(state);
    }
  }

  lemma Fewer<K, V>(m: map<K, V>, k: K)
    requires k in m
    ensures |m - {k}| < |m|
  {
  }

  lemma ShutdownOfEmpty(m: Mgr)
    requires m.slots == map[]
    ensures Shutdown(m) == m
  {
  }
}
