/** The store as an object: the state that `set` replaces, and the two maps of the idle tracker
    that are changed in place.  Each method follows the original's control flow, loops and
    reassignments included, and is proved to do what the action's function says, which is
    where the properties are proved. */
module StoreObject {
  import opened Wrappers
  import opened PanelTree
  import opened PanelEdit
  import opened PanelRestructure
  import opened PanelInvariant
  import opened PanelPersistence
  import opened AppStore
  import opened StoreInvariant
  import opened StoreRuns
  import opened DragDrop
  import Idle = IdleTracker

  lemma CancelTwice(st: Store, a: set<SessionId>, b: set<SessionId>)
    ensures Cancel(Cancel(st, a), b) == Cancel(st, a + b)
  {
  }

  lemma MarkReadTwice(m: map<SessionId, Activity>, a: set<SessionId>, b: set<SessionId>)
    ensures MarkRead(MarkRead(m, a), b) == MarkRead(m, a + b)
  {
  }

  /** A record that is not unread, or not there, needs no update. */
  lemma MarkReadOne(m: map<SessionId, Activity>, sid: SessionId)
    ensures MarkRead(m, {sid}) == if sid in m && m[sid].unread then m[sid := m[sid].(unread := false)] else m
  {
  }

  lemma {:induction false} DropNothing(toasts: seq<Toast>, sids: set<SessionId>)
    requires forall i | 0 <= i < |toasts| :: toasts[i].sessionId !in sids
    ensures DropToasts(toasts, sids) == toasts
  {
    if toasts != [] { DropNothing(toasts[1..], sids); }
  }

  /** Init, from the three maps its loops fill. */
  lemma InitFromMaps(st: Store, workspaces: seq<WorkspaceId>, sessions: map<WorkspaceId, seq<Session>>,
                     saved: map<WorkspaceId, Saved>, leafIds: map<WorkspaceId, PanelId>,
                     layouts: map<WorkspaceId, PanelNode>, focused: map<WorkspaceId, PanelId>)
    requires workspaces != [] && (forall w | w in workspaces :: w in sessions && w in leafIds)
    requires forall w | w in saved :: Shaped(saved[w].layout)
    requires forall w :: w in layouts <==> w in workspaces
    requires forall w :: w in focused <==> w in workspaces
    requires forall w | w in workspaces ::
      Saved(layouts[w], focused[w]) == InitWorkspace(SavedFor(saved, w), sessions[w], leafIds[w])
    ensures Init(st, workspaces, sessions, saved, leafIds) == st.(app := st.app.(
      workspaces := workspaces, sessions := sessions, activeWorkspace := Some(workspaces[0]),
      activeByWorkspace := map w | w in workspaces && sessions[w] != [] :: sessions[w][0].id,
      layouts := layouts, focused := focused,
      activeSession := Derive(layouts[workspaces[0]], focused[workspaces[0]])))
  {
    var start := map w | w in workspaces :: InitWorkspace(SavedFor(saved, w), sessions[w], leafIds[w]);
    assert layouts == map w | w in start :: start[w].layout;
    assert focused == map w | w in start :: start[w].focus;
  }

  class AppState {
    var app: App
    var busyTrack: map<SessionId, Idle.Track>
    var idleTimers: map<SessionId, nat>
    var pageVisible: bool

    function View(): Store reads this {
      Store(app, busyTrack, idleTimers, pageVisible)
    }

    constructor (visible: bool)
      ensures View() == Opened(visible) && Inv(View())
    {
      app, busyTrack, idleTimers, pageVisible := EmptyApp, map[], map[], visible;
    }

    method CancelIdleTracking(sid: SessionId)
      modifies this
      ensures View() == Cancel(old(View()), {sid})
    {
      if sid in idleTimers { idleTimers := idleTimers - {sid}; }
      assert idleTimers == old(idleTimers) - {sid};
      busyTrack := busyTrack - {sid};
    }

    /** `toasts.some(...) ? toasts.filter(...) : toasts` */
    static method FilterToasts(toasts: seq<Toast>, sids: set<SessionId>) returns (kept: seq<Toast>)
      ensures kept == DropToasts(toasts, sids)
    {
      if i :| 0 <= i < |toasts| && toasts[i].sessionId in sids {
        kept := DropToasts(toasts, sids);
      } else {
        DropNothing(toasts, sids);
        kept := toasts;
      }
    }

    /** Marks one session read: its unread flag, if set, and its toasts. */
    static method ReadOne(activity: map<SessionId, Activity>, toasts: seq<Toast>, sid: SessionId)
      returns (activity': map<SessionId, Activity>, toasts': seq<Toast>)
      ensures activity' == MarkRead(activity, {sid}) && toasts' == DropToasts(toasts, {sid})
    {
      MarkReadOne(activity, sid);
      activity' := activity;
      if sid in activity && activity[sid].unread { activity' := activity[sid := activity[sid].(unread := false)]; }
      toasts' := FilterToasts(toasts, {sid});
    }

    /** Looking at a session, if there is one: its tracking is cancelled and it is read. */
    method LookAt(active: Option<SessionId>) returns (activity: map<SessionId, Activity>, toasts: seq<Toast>)
      modifies this
      ensures View() == Cancel(old(View()), OptSet(active))
      ensures activity == MarkRead(app.activity, OptSet(active)) && toasts == DropToasts(app.toasts, OptSet(active))
    {
      if active.Some? {
        CancelIdleTracking(active.value);
        activity, toasts := ReadOne(app.activity, app.toasts, active.value);
      } else {
        activity, toasts := app.activity, app.toasts;
        DropNothing(toasts, {});
        assert MarkRead(activity, {}) == activity;
        assert Cancel(View(), {}) == View();
      }
    }

    /** The last active session of a workspace that is losing `sid`. */
    static method AfterRemoval(active: map<WorkspaceId, SessionId>, w: WorkspaceId, sid: SessionId,
                               remaining: seq<Session>)
      returns (next: map<WorkspaceId, SessionId>)
      ensures next == NextActive(active, w, sid, remaining)
    {
      next := active;
      if w in active && active[w] == sid {
        if |remaining| > 0 { next := next[w := remaining[0].id]; } else { next := next - {w}; }
      }
    }

    // -------------------------------------------------------------------------------------
    // Workspaces

    /** init after the lists have arrived: one round per workspace, then one `set`. */
    method InitStore(workspaces: seq<WorkspaceId>, sessions: map<WorkspaceId, seq<Session>>,
                     stored: Stored, leafIds: map<WorkspaceId, PanelId>)
      requires Inv(View()) && StorageOk(stored) && workspaces != []
      requires forall w | w in workspaces :: w in sessions && w in leafIds
      modifies this
      ensures forall w | w in LoadLayouts(stored) :: Shaped(LoadLayouts(stored)[w].layout)
      ensures View() == Init(old(View()), workspaces, sessions, LoadLayouts(stored), leafIds) && Inv(View())
    {
      var saved := LoadLayoutsLoop(stored);
      InitKeepsInv(View(), workspaces, sessions, saved, leafIds);
      var activeByWorkspace := FirstSessions(workspaces, sessions);
      var layouts, focused := InitAll(workspaces, sessions, saved, leafIds);
      InitFromMaps(View(), workspaces, sessions, saved, leafIds, layouts, focused);
      var first := workspaces[0];
      app := app.(workspaces := workspaces, sessions := sessions, activeWorkspace := Some(first),
                  activeByWorkspace := activeByWorkspace, layouts := layouts, focused := focused,
                  activeSession := Derive(layouts[first], focused[first]));
    }

    /** The first session of every workspace that has one. */
    static method FirstSessions(workspaces: seq<WorkspaceId>, sessions: map<WorkspaceId, seq<Session>>)
      returns (active: map<WorkspaceId, SessionId>)
      requires forall w | w in workspaces :: w in sessions
      ensures active == map w | w in workspaces && sessions[w] != [] :: sessions[w][0].id
    {
      active := map[];
      for i := 0 to |workspaces|
        invariant forall w :: w in active <==> w in workspaces[..i] && sessions[w] != []
        invariant forall w | w in active :: active[w] == sessions[w][0].id
      {
        var w := workspaces[i];
        assert workspaces[..i + 1] == workspaces[..i] + [w];
        if sessions[w] != [] { active := active[w := sessions[w][0].id]; }
      }
      assert workspaces[..|workspaces|] == workspaces;
    }

    /** The loop over the workspaces. */
    static method InitAll(workspaces: seq<WorkspaceId>, sessions: map<WorkspaceId, seq<Session>>,
                          saved: map<WorkspaceId, Saved>, leafIds: map<WorkspaceId, PanelId>)
      returns (layouts: map<WorkspaceId, PanelNode>, focused: map<WorkspaceId, PanelId>)
      requires forall w | w in workspaces :: w in sessions && w in leafIds
      requires forall w | w in saved :: Shaped(saved[w].layout)
      ensures forall w :: w in layouts <==> w in workspaces
      ensures forall w :: w in focused <==> w in workspaces
      ensures forall w | w in workspaces ::
        Saved(layouts[w], focused[w]) == InitWorkspace(SavedFor(saved, w), sessions[w], leafIds[w])
    {
      layouts, focused := map[], map[];
      for i := 0 to |workspaces|
        invariant forall w :: w in layouts <==> w in workspaces[..i]
        invariant forall w :: w in focused <==> w in workspaces[..i]
        invariant forall w | w in layouts ::
          Saved(layouts[w], focused[w]) == InitWorkspace(SavedFor(saved, w), sessions[w], leafIds[w])
      {
        var w := workspaces[i];
        assert workspaces[..i + 1] == workspaces[..i] + [w];
        var start := InitOne(SavedFor(saved, w), sessions[w], leafIds[w]);
        layouts := layouts[w := start.layout];
        focused := focused[w := start.focus];
      }
      assert workspaces[..|workspaces|] == workspaces;
    }

    static method InitOne(saved: Option<Saved>, list: seq<Session>, leafId: PanelId) returns (start: Saved)
      requires saved.Some? ==> Shaped(saved.value.layout)
      ensures start == InitWorkspace(saved, list, leafId)
    {
      if saved.Some? {
        var r := Reconcile(saved.value, IdsIn(list));
        LeavesAreLeaves(r.layout);
        var anyVisible := |Shown(Leaves(r.layout))| > 0;
        var layout := r.layout;
        if !anyVisible && |list| > 0 {
          layout := SetLeafSession(layout, r.focus, Some(list[0].id));
        }
        start := Saved(layout, r.focus);
      } else {
        var layout := Leaf(leafId, FirstId(list));
        start := Saved(layout, FirstLeaf(layout).id);
      }
    }

    method RemoveWorkspaceState(w: WorkspaceId)
      requires Inv(View())
      modifies this
      ensures View() == DeleteWorkspace(old(View()), w) && Inv(View())
    {
      DeleteWorkspaceKeepsInv(View(), w);
      var workspaces := RemoveWorkspace(app.workspaces, w);
      var next := if |workspaces| > 0 then Some(workspaces[0]) else None;
      var sessionActivity, removedIds := ForgetAll(SessionsOf(app, w));
      var toasts := FilterToasts(app.toasts, removedIds);
      var app' := app.(workspaces := workspaces, sessions := app.sessions - {w}, activeWorkspace := next,
                       activeByWorkspace := app.activeByWorkspace - {w}, layouts := app.layouts - {w},
                       focused := app.focused - {w}, activity := sessionActivity, toasts := toasts);
      app := app'.(activeSession := if next.Some? then DeriveActive(app', next.value) else None);
    }

    /** The loop over the removed sessions. */
    method ForgetAll(removed: seq<Session>)
      returns (sessionActivity: map<SessionId, Activity>, removedIds: set<SessionId>)
      modifies this
      ensures View() == Cancel(old(View()), removedIds) && removedIds == IdsIn(removed)
      ensures sessionActivity == app.activity - removedIds
    {
      ghost var before := View();
      sessionActivity, removedIds := app.activity, {};
      for i := 0 to |removed|
        invariant app == old(app) && pageVisible == old(pageVisible)
        invariant removedIds == IdsIn(removed[..i])
        invariant sessionActivity == app.activity - removedIds
        invariant View() == Cancel(before, removedIds)
      {
        var sid := removed[i].id;
        assert removed[..i + 1] == removed[..i] + [removed[i]];
        assert IdsIn(removed[..i + 1]) == removedIds + {sid};
        sessionActivity := sessionActivity - {sid};
        CancelTwice(before, removedIds, {sid});
        CancelIdleTracking(sid);
        removedIds := removedIds + {sid};
      }
      assert removed[..|removed|] == removed;
    }

    method ShowWorkspace(w: WorkspaceId, listed: seq<Session>, leafId: PanelId)
      requires Inv(View())
      modifies this
      ensures View() == SetActiveWorkspace(old(View()), w, listed, leafId) && Inv(View())
    {
      SetActiveWorkspaceKeepsInv(View(), w, listed, leafId);
      var layout := if w in app.layouts then app.layouts[w] else Leaf(leafId, FirstId(listed));
      var focusedId := if w in app.layouts then app.focused[w] else FirstLeaf(layout).id;
      var active := Derive(layout, focusedId);
      var activity, toasts := LookAt(active);
      app := app.(sessions := app.sessions[w := listed], activeWorkspace := Some(w), activeSession := active,
                  activeByWorkspace := Noted(app.activeByWorkspace, w, active),
                  layouts := app.layouts[w := layout], focused := app.focused[w := focusedId],
                  activity := activity, toasts := toasts);
      assert View().app == SetActiveWorkspace(old(View()), w, listed, leafId).app;
    }

    // -------------------------------------------------------------------------------------
    // Sessions

    method AddSession(w: WorkspaceId, sess: Session, leafId: PanelId)
      requires Inv(View())
      modifies this
      ensures w in old(app.layouts) ==> Shaped(old(app.layouts[w]))
      ensures View() == CreateSession(old(View()), w, sess, leafId) && Inv(View())
    {
      CreateSessionKeepsInv(View(), w, sess, leafId);
      LayoutsAreShaped(app);
      var layout: PanelNode, focusedId: PanelId;
      if w !in app.layouts {
        layout := Leaf(leafId, Some(sess.id));
        focusedId := FirstLeaf(layout).id;
      } else {
        layout := app.layouts[w];
        var targetId := TargetLeaf(layout, FocusOf(app, w));
        layout := SetLeafSession(DetachSession(layout, sess.id), targetId, Some(sess.id));
        focusedId := targetId;
      }
      app := app.(sessions := app.sessions[w := SessionsOf(app, w) + [sess]],
                  activeSession := if app.activeWorkspace == Some(w) then Some(sess.id) else app.activeSession,
                  activeByWorkspace := app.activeByWorkspace[w := sess.id],
                  layouts := app.layouts[w := layout], focused := app.focused[w := focusedId]);
    }

    /** The loop over all workspaces that takes the session out of their layouts. */
    static method DetachFromAll(layouts: map<WorkspaceId, PanelNode>, sid: SessionId)
      returns (out: map<WorkspaceId, PanelNode>)
      ensures out == DetachEverywhere(layouts, sid)
    {
      out := layouts;
      var rest := layouts.Keys;
      while rest != {}
        invariant rest <= layouts.Keys && out.Keys == layouts.Keys
        invariant forall w | w in layouts :: out[w] == if w in rest then layouts[w] else DetachSession(layouts[w], sid)
        decreases rest
      {
        var w :| w in rest;
        var before := out[w];
        var after := DetachSession(before, sid);
        if after != before { out := out[w := after]; }
        rest := rest - {w};
      }
      assert out == DetachEverywhere(layouts, sid);
    }

    static method RefillFocused(layout: PanelNode, focusedId: PanelId, remaining: seq<Session>) returns (out: PanelNode)
      ensures out == Refill(layout, Some(focusedId), remaining)
    {
      out := layout;
      if HasLeaf(layout, focusedId) && Derive(layout, focusedId) == None && |remaining| > 0 {
        var nextId := remaining[0].id;
        out := SetLeafSession(DetachSession(layout, nextId), focusedId, Some(nextId));
      }
    }

    method RemoveSessionState(sid: SessionId)
      requires Inv(View())
      modifies this
      ensures View() == DeleteSession(old(View()), sid) && Inv(View())
    {
      DeleteSessionKeepsInv(View(), sid);
      CancelIdleTracking(sid);
      if app.activeWorkspace.None? { return; }
      var w := app.activeWorkspace.value;
      var remaining := RemoveSession(SessionsOf(app, w), sid);
      var layouts := DetachFromAll(app.layouts, sid);
      if w in layouts {
        var refilled := RefillFocused(layouts[w], app.focused[w], remaining);
        layouts := layouts[w := refilled];
      }
      var active := if w in layouts then Derive(layouts[w], app.focused[w])
                    else if app.activeSession == Some(sid) then FirstId(remaining)
                    else app.activeSession;
      var activeByWorkspace := AfterRemoval(app.activeByWorkspace, w, sid, remaining);
      var toasts := FilterToasts(app.toasts, {sid});
      app := app.(sessions := app.sessions[w := remaining], activeSession := active,
                  activeByWorkspace := activeByWorkspace,
                  layouts := layouts, activity := app.activity - {sid}, toasts := toasts);
      assert View().app == DeleteSession(old(View()), sid).app;
    }

    method ActivateSession(sid: SessionId)
      requires Inv(View())
      modifies this
      ensures forall w | w in old(app.layouts) :: Shaped(old(app.layouts)[w])
      ensures View() == SetActiveSession(old(View()), sid) && Inv(View())
    {
      SetActiveSessionKeepsInv(View(), sid);
      CancelIdleTracking(sid);
      var activity, toasts := ReadOne(app.activity, app.toasts, sid);
      if app.activeWorkspace.None? || app.activeWorkspace.value !in app.layouts {
        var activeByWorkspace := app.activeByWorkspace;
        if app.activeWorkspace.Some? { activeByWorkspace := activeByWorkspace[app.activeWorkspace.value := sid]; }
        app := app.(activeSession := Some(sid), activeByWorkspace := activeByWorkspace,
                    activity := activity, toasts := toasts);
        return;
      }
      var w := app.activeWorkspace.value;
      var layout, focusedId := app.layouts[w], app.focused[w];
      var existing := FindLeafBySession(layout, sid);
      if existing.Some? {
        focusedId := existing.value.id;
      } else {
        var targetId := TargetLeaf(layout, Some(focusedId));
        layout := SetLeafSession(DetachSession(layout, sid), targetId, Some(sid));
        focusedId := targetId;
      }
      app := app.(activeSession := Derive(layout, focusedId), activeByWorkspace := app.activeByWorkspace[w := sid],
                  layouts := app.layouts[w := layout], focused := app.focused[w := focusedId],
                  activity := activity, toasts := toasts);
    }

    // -------------------------------------------------------------------------------------
    // Output and unread marks

    method OnSessionOutput(sid: SessionId, now: nat)
      requires Inv(View())
      modifies this
      ensures View() == MarkSessionOutput(old(View()), sid, now) && Inv(View())
    {
      OutputKeepsInv(View(), sid, now);
      if VisibleInActive(app, sid) && pageVisible {
        CancelIdleTracking(sid);
        return;
      }
      if sid in busyTrack {
        busyTrack := busyTrack[sid := busyTrack[sid].(lastByteAt := now)];
      } else {
        busyTrack := busyTrack[sid := Idle.Track(now, now)];
      }
      if sid in idleTimers { idleTimers := idleTimers - {sid}; }
      idleTimers := idleTimers[sid := now + Idle.IDLE_MS];
      assert idleTimers == old(idleTimers)[sid := now + Idle.IDLE_MS];
    }

    /** The search for the workspace that lists the session; its order is not specified. */
    static method FindOwner(app: App, sid: SessionId) returns (owner: Option<WorkspaceId>)
      ensures OwnerOk(app, sid, owner)
    {
      var rest := app.sessions.Keys;
      while rest != {}
        invariant rest <= app.sessions.Keys
        invariant forall w | w in app.sessions && w !in rest :: !HasId(app.sessions[w], sid)
        decreases rest
      {
        var w :| w in rest;
        if HasId(app.sessions[w], sid) { return Some(w); }
        rest := rest - {w};
      }
      return None;
    }

    method OnTimer(sid: SessionId) returns (ghost owner: Option<WorkspaceId>)
      requires Inv(View())
      modifies this
      ensures OwnerOk(old(app), sid, owner)
      ensures View() == FireTimer(old(View()), sid, owner) && Inv(View())
    {
      var found := FindOwner(app, sid);
      owner := found;
      FireKeepsInv(View(), sid, owner);
      idleTimers := idleTimers - {sid};
      if sid !in busyTrack {
        assert busyTrack - {sid} == busyTrack;
        return;
      }
      var t := busyTrack[sid];
      busyTrack := busyTrack - {sid};
      if t.lastByteAt - t.startedAt < Idle.MIN_BUSY_MS { return; }
      var stillBackground := !VisibleInActive(app, sid) || !pageVisible;
      if !stillBackground { return; }
      if sid in app.activity && app.activity[sid].unread { return; }
      app := app.(activity := app.activity[sid := Activity(true, t.lastByteAt, t.lastByteAt)]);
      if found.None? { return; }
      var toast := Toast(sid, t.lastByteAt, found.value, TitleIn(SessionsOf(app, found.value), sid));
      var filtered := DropToasts(app.toasts, {sid});
      app := app.(toasts := LastN(filtered + [toast], MAX_TOASTS));
    }

    method MarkOneRead(sid: SessionId)
      requires Inv(View())
      modifies this
      ensures View() == ClearSessionUnread(old(View()), sid) && Inv(View())
    {
      ReadingKeepsInv(View(), {sid});
      CancelIdleTracking(sid);
      var activity, toasts := ReadOne(app.activity, app.toasts, sid);
      app := app.(activity := activity, toasts := toasts);
    }

    method CancelAll(ids: seq<SessionId>)
      modifies this
      ensures View() == Cancel(old(View()), ToSet(ids))
    {
      ghost var before := View();
      for i := 0 to |ids|
        invariant View() == Cancel(before, ToSet(ids[..i]))
      {
        assert ids[..i + 1] == ids[..i] + [ids[i]];
        assert ToSet(ids[..i + 1]) == ToSet(ids[..i]) + {ids[i]};
        CancelTwice(before, ToSet(ids[..i]), {ids[i]});
        CancelIdleTracking(ids[i]);
      }
      assert ids[..|ids|] == ids;
    }

    static method ReadAll(activity: map<SessionId, Activity>, ids: seq<SessionId>)
      returns (out: map<SessionId, Activity>)
      ensures out == MarkRead(activity, ToSet(ids))
    {
      out := activity;
      for i := 0 to |ids|
        invariant out == MarkRead(activity, ToSet(ids[..i]))
      {
        assert ids[..i + 1] == ids[..i] + [ids[i]];
        assert ToSet(ids[..i + 1]) == ToSet(ids[..i]) + {ids[i]};
        MarkReadTwice(activity, ToSet(ids[..i]), {ids[i]});
        MarkReadOne(out, ids[i]);
        if ids[i] in out && out[ids[i]].unread { out := out[ids[i] := out[ids[i]].(unread := false)]; }
      }
      assert ids[..|ids|] == ids;
    }

    /** Two loops over the visible sessions: cancel their tracking, then mark them read. */
    method MarkVisibleRead()
      requires Inv(View())
      modifies this
      ensures View() == ClearVisibleUnread(old(View())) && Inv(View())
    {
      ReadingKeepsInv(View(), VisibleSessions(app));
      ghost var before := View();
      var ids: seq<SessionId> := [];
      if app.activeWorkspace.Some? {
        var w := app.activeWorkspace.value;
        if w in app.layouts {
          LeavesAreLeaves(app.layouts[w]);
          ids := Shown(Leaves(app.layouts[w]));
        } else if app.activeSession.Some? {
          ids := [app.activeSession.value];
          assert ids[0] in ToSet(ids);
          assert ToSet(ids) == OptSet(app.activeSession);
        }
      }
      assert ToSet(ids) == VisibleSessions(app);
      CancelAll(ids);
      var activity := ReadAll(app.activity, ids);
      var toasts := FilterToasts(app.toasts, ToSet(ids));
      app := app.(activity := activity, toasts := toasts);
    }

    // -------------------------------------------------------------------------------------
    // Panels

    method SplitActivePanel(panelId: PanelId, dir: Direction, placement: Placement, newLeafId: PanelId,
                            newSplitId: PanelId)
      returns (made: Option<PanelId>)
      requires Inv(View()) && newLeafId != newSplitId
      requires Fresh(View(), DoSplitPanel(panelId, dir, placement, newLeafId, newSplitId))
      modifies this
      ensures View() == SplitPanel(old(View()), panelId, dir, placement, newLeafId, newSplitId) && Inv(View())
      ensures made == SplitPanelResult(old(View()), panelId, dir, placement, newLeafId, newSplitId)
    {
      SplitPanelKeepsInv(View(), panelId, dir, placement, newLeafId, newSplitId);
      made := None;
      if app.activeWorkspace.None? { return; }
      var w := app.activeWorkspace.value;
      if w !in app.layouts { return; }
      var result := SplitLeaf(app.layouts[w], panelId, dir, placement, newLeafId, newSplitId);
      if result.None? { return; }
      made := Some(result.value.newLeafId);
      app := app.(layouts := app.layouts[w := result.value.root], focused := app.focused[w := result.value.newLeafId],
                  activeSession := Derive(result.value.root, result.value.newLeafId));
    }

    /** The part of closePanel that forgets the session the panel showed. */
    static method WithoutSession(app: App, w: WorkspaceId, sid: SessionId) returns (next: App)
      ensures var remaining := RemoveSession(SessionsOf(app, w), sid);
        next == Forget(app, {sid}).(sessions := app.sessions[w := remaining],
                                    activeByWorkspace := NextActive(app.activeByWorkspace, w, sid, remaining))
    {
      var remaining := RemoveSession(SessionsOf(app, w), sid);
      var activity := app.activity;
      if sid in activity { activity := activity - {sid}; }
      assert activity == app.activity - {sid};
      var toasts := FilterToasts(app.toasts, {sid});
      var activeByWorkspace := AfterRemoval(app.activeByWorkspace, w, sid, remaining);
      next := app.(sessions := app.sessions[w := remaining], activity := activity, toasts := toasts,
                   activeByWorkspace := activeByWorkspace);
    }

    /** What closePanel does once the server has answered. */
    method FinishClosePanel(panelId: PanelId, captured: Option<SessionId>, leafId: PanelId)
      requires Inv(View())
      modifies this
      ensures forall w | w in old(app.layouts) :: Shaped(old(app.layouts)[w])
      ensures View() == ClosePanel(old(View()), panelId, captured, leafId) && Inv(View())
    {
      ClosePanelKeepsInv(View(), panelId, captured, leafId);
      TakePanelOut(panelId, captured, leafId);
    }

    method TakePanelOut(panelId: PanelId, captured: Option<SessionId>, leafId: PanelId)
      requires app.layouts.Keys == app.focused.Keys && forall w | w in app.layouts :: Shaped(app.layouts[w])
      modifies this
      ensures View() == ClosePanel(old(View()), panelId, captured, leafId)
    {
      if captured.Some? { CancelIdleTracking(captured.value); } else { assert Cancel(View(), {}) == View(); }
      if app.activeWorkspace.None? { return; }
      var w := app.activeWorkspace.value;
      if w !in app.layouts { return; }
      var newLayout, focusedId := Reduce(app.layouts[w], panelId, leafId, app.focused[w]);
      var next := app;
      if captured.Some? { next := WithoutSession(app, w, captured.value); }
      app := next.(layouts := app.layouts[w := newLayout], focused := app.focused[w := focusedId],
                   activeSession := Derive(newLayout, focusedId));
    }

    /** The layout and the focus without the panel; a workspace never loses its last one. */
    static method Reduce(layout: PanelNode, panelId: PanelId, leafId: PanelId, oldFocus: PanelId)
      returns (newLayout: PanelNode, focusedId: PanelId)
      requires Shaped(layout)
      ensures var reduced := RemoveLeaf(layout, panelId);
        newLayout == if reduced.Some? then reduced.value else Leaf(leafId, None)
      ensures Inhabited(newLayout)
      ensures focusedId ==
        if oldFocus != panelId && HasLeaf(newLayout, oldFocus) then oldFocus else FirstLeaf(newLayout).id
    {
      var reduced := RemoveLeafLoop(layout, panelId);
      ClosedIsInhabited(layout, panelId, leafId);
      newLayout := if reduced.Some? then reduced.value else Leaf(leafId, None);
      focusedId := if oldFocus != panelId && HasLeaf(newLayout, oldFocus) then oldFocus else FirstLeaf(newLayout).id;
    }

    method FocusOn(panelId: PanelId)
      requires Inv(View())
      modifies this
      ensures View() == FocusPanel(old(View()), panelId) && Inv(View())
    {
      FocusPanelKeepsInv(View(), panelId);
      if app.activeWorkspace.None? { return; }
      var w := app.activeWorkspace.value;
      if w !in app.layouts { return; }
      var layout := app.layouts[w];
      if app.focused[w] == panelId { return; }
      if !HasLeaf(layout, panelId) { return; }
      var active := Derive(layout, panelId);
      var activity, toasts := LookAt(active);
      var activeByWorkspace := app.activeByWorkspace;
      if active.Some? { activeByWorkspace := activeByWorkspace[w := active.value]; }
      app := app.(focused := app.focused[w := panelId], activeSession := active, activeByWorkspace := activeByWorkspace,
                  activity := activity, toasts := toasts);
    }

    method Assign(panelId: PanelId, sid: SessionId)
      requires Inv(View())
      modifies this
      ensures View() == AssignSession(old(View()), panelId, sid) && Inv(View())
    {
      AssignSessionKeepsInv(View(), panelId, sid);
      CancelIdleTracking(sid);
      if app.activeWorkspace.None? { return; }
      var w := app.activeWorkspace.value;
      if w !in app.layouts { return; }
      var layout := app.layouts[w];
      if !HasLeaf(layout, panelId) { return; }
      var detached := DetachSession(layout, sid);
      var newLayout := SetLeafSession(detached, panelId, Some(sid));
      var activity, toasts := ReadOne(app.activity, app.toasts, sid);
      app := app.(layouts := app.layouts[w := newLayout], focused := app.focused[w := panelId],
                  activeSession := Derive(newLayout, panelId), activeByWorkspace := app.activeByWorkspace[w := sid],
                  activity := activity, toasts := toasts);
    }

    method Resize(splitId: PanelId, sizes: seq<real>)
      requires Inv(View())
      modifies this
      ensures View() == ResizeSplit(old(View()), splitId, sizes) && Inv(View())
    {
      ResizeKeepsInv(View(), splitId, sizes);
      if app.activeWorkspace.None? { return; }
      var w := app.activeWorkspace.value;
      if w !in app.layouts { return; }
      var next := SetSplitSizes(app.layouts[w], splitId, sizes);
      if next == app.layouts[w] {
        assert app.layouts[w := next] == app.layouts;
        return;
      }
      app := app.(layouts := app.layouts[w := next]);
    }

    /** The drag-and-drop handler: early returns, then one or two store actions in sequence. */
    method OnDragEnd(drop: Drop, newLeafId: PanelId, newSplitId: PanelId)
      requires Inv(View()) && newLeafId != newSplitId
      requires Fresh(View(), DoSplitPanel("", Row, Before, newLeafId, newSplitId))
      modifies this
      ensures View() == HandleDragEnd(old(View()), drop, newLeafId, newSplitId) && Inv(View())
    {
      if !drop.isTab || drop.session.None? || drop.leafId.None? || drop.zone.None? { return; }
      var sid, leafId, zone := drop.session.value, drop.leafId.value, drop.zone.value;
      if app.activeWorkspace.Some? && app.activeWorkspace.value in app.layouts {
        var source := FindLeafBySession(app.layouts[app.activeWorkspace.value], sid);
        if source.Some? && source.value.id == leafId { return; }
      }
      if zone.Center? {
        Assign(leafId, sid);
        return;
      }
      var made := SplitActivePanel(leafId, ZoneDirection(zone), ZonePlacement(zone), newLeafId, newSplitId);
      if made.Some? { Assign(made.value, sid); }
    }
  }

  /** The persistence subscriber's loop over the workspaces. */
  method CollectLayouts(app: App) returns (layouts: map<WorkspaceId, Saved>)
    requires forall w | w in app.layouts :: Shaped(app.layouts[w])
    ensures layouts == ToSave(app)
  {
    layouts := map[];
    var rest := app.layouts.Keys;
    while rest != {}
      invariant rest <= app.layouts.Keys
      invariant layouts == map w | w in app.layouts && w !in rest :: Saved(app.layouts[w], SavedFocus(app, w))
      decreases rest
    {
      var w :| w in rest;
      layouts := layouts[w := Saved(app.layouts[w], SavedFocus(app, w))];
      rest := rest - {w};
    }
  }
}
