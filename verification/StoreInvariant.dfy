/** What every action of the store keeps true. */
module StoreInvariant {
  import opened Wrappers
  import opened PanelTree
  import opened PanelEdit
  import opened PanelRestructure
  import opened PanelInvariant
  import opened PanelPersistence
  import opened AppStore
  import Idle = IdleTracker

  // ---------------------------------------------------------------------------------------
  // The invariant

  /** Every workspace with a layout has a well-formed one, and a focus that names a leaf of it. */
  ghost predicate LayoutsOk(app: App) {
    && app.layouts.Keys == app.focused.Keys
    && forall w | w in app.layouts :: LayoutOk(app.layouts[w], app.focused[w])
  }

  /** Whenever the active workspace has a layout, the active session is the focused leaf's. */
  ghost predicate ActiveOk(app: App) {
    app.activeWorkspace.Some? && app.activeWorkspace.value in app.layouts ==>
      app.activeSession == DeriveActive(app, app.activeWorkspace.value)
  }

  predicate IsUnread(app: App, sid: SessionId) {
    sid in app.activity && app.activity[sid].unread
  }

  ghost predicate OneToastEach(toasts: seq<Toast>) {
    forall i, j | 0 <= i < j < |toasts| :: toasts[i].sessionId != toasts[j].sessionId
  }

  /** At most five toasts, at most one per session, and only for sessions that are unread. */
  ghost predicate ToastsOk(app: App) {
    && |app.toasts| <= 5 && OneToastEach(app.toasts)
    && forall t | t in app.toasts :: IsUnread(app, t.sessionId)
  }

  /** A timer runs exactly while there is a busy track, and is due IDLE_MS after its last output. */
  ghost predicate TimersOk(st: Store) {
    && st.busy.Keys == st.timers.Keys
    && forall s | s in st.busy :: st.timers[s] == st.busy[s].lastByteAt + Idle.IDLE_MS
  }

  ghost predicate Inv(st: Store) {
    LayoutsOk(st.app) && ActiveOk(st.app) && ToastsOk(st.app) && TimersOk(st)
  }

  // ---------------------------------------------------------------------------------------
  // Toasts and timers

  lemma {:induction false} DropToastsFacts(toasts: seq<Toast>, sids: set<SessionId>)
    ensures |DropToasts(toasts, sids)| <= |toasts|
    ensures forall t :: t in DropToasts(toasts, sids) <==> t in toasts && t.sessionId !in sids
    ensures OneToastEach(toasts) ==> OneToastEach(DropToasts(toasts, sids))
  {
    if toasts != [] {
      DropToastsFacts(toasts[1..], sids);
      var rest := DropToasts(toasts[1..], sids);
      forall t ensures t in DropToasts(toasts, sids) <==> t in toasts && t.sessionId !in sids {
        assert t in toasts <==> t == toasts[0] || t in toasts[1..];
      }
      if OneToastEach(toasts) {
        assert OneToastEach(toasts[1..]);
        forall j | 0 <= j < |rest| ensures rest[j].sessionId != toasts[0].sessionId {
          assert rest[j] in toasts[1..];
          var k :| 0 <= k < |toasts[1..]| && toasts[1..][k] == rest[j];
          assert toasts[k + 1] == rest[j];
        }
      }
    }
  }

  lemma {:induction false} DropToastFacts(toasts: seq<Toast>, sid: SessionId, at: nat)
    ensures |DropToast(toasts, sid, at)| <= |toasts|
    ensures forall t | t in DropToast(toasts, sid, at) :: t in toasts
    ensures OneToastEach(toasts) ==> OneToastEach(DropToast(toasts, sid, at))
  {
    if toasts != [] {
      DropToastFacts(toasts[1..], sid, at);
      var rest := DropToast(toasts[1..], sid, at);
      assert forall t | t in toasts[1..] :: t in toasts;
      if OneToastEach(toasts) {
        assert OneToastEach(toasts[1..]);
        forall j | 0 <= j < |rest| ensures rest[j].sessionId != toasts[0].sessionId {
          assert rest[j] in toasts[1..];
          var k :| 0 <= k < |toasts[1..]| && toasts[1..][k] == rest[j];
          assert toasts[k + 1] == rest[j];
        }
      }
    }
  }

  lemma ReadKeepsToasts(app: App, sids: set<SessionId>)
    requires ToastsOk(app)
    ensures ToastsOk(Read(app, sids)) && ToastsOk(Forget(app, sids))
  {
    DropToastsFacts(app.toasts, sids);
  }

  lemma CancelKeepsTimers(st: Store, sids: set<SessionId>)
    requires TimersOk(st)
    ensures TimersOk(Cancel(st, sids))
  {
  }

  lemma NotifyKeepsToasts(app: App, sid: SessionId, at: nat, owner: Option<WorkspaceId>)
    requires ToastsOk(app)
    ensures ToastsOk(Notify(app, sid, at, owner))
    ensures IsUnread(Notify(app, sid, at, owner), sid)
  {
    if !IsUnread(app, sid) && owner.Some? {
      var app' := app.(activity := app.activity[sid := Activity(true, at, at)]);
      PushedToast(app.toasts, Toast(sid, at, owner.value, TitleIn(SessionsOf(app', owner.value), sid)));
    }
  }

  /** A new toast replaces the session's old one and pushes the oldest out. */
  lemma {:induction false} PushedToast(toasts: seq<Toast>, toast: Toast)
    requires OneToastEach(toasts)
    ensures var pushed := LastN(DropToasts(toasts, {toast.sessionId}) + [toast], MAX_TOASTS);
      && |pushed| <= 5 && OneToastEach(pushed)
      && forall t | t in pushed :: t == toast || t in toasts
  {
    var kept := DropToasts(toasts, {toast.sessionId});
    DropToastsFacts(toasts, {toast.sessionId});
    forall j | 0 <= j < |kept| ensures kept[j].sessionId != toast.sessionId { assert kept[j] in kept; }
    LastNFacts(kept + [toast], MAX_TOASTS);
  }

  lemma LastNFacts(toasts: seq<Toast>, n: nat)
    ensures |LastN(toasts, n)| <= n
    ensures forall t | t in LastN(toasts, n) :: t in toasts
    ensures OneToastEach(toasts) ==> OneToastEach(LastN(toasts, n))
  {
  }

  // ---------------------------------------------------------------------------------------
  // Layouts

  /** The layout of one workspace replaced by a well-formed one. */
  lemma PutLayoutOk(app: App, w: WorkspaceId, layout: PanelNode, focus: PanelId)
    requires LayoutsOk(app) && LayoutOk(layout, focus)
    ensures LayoutsOk(WithLayout(app, w, layout, focus))
    ensures DeriveActive(WithLayout(app, w, layout, focus), w) == Derive(layout, focus)
  {
  }

  lemma TargetLeafOk(layout: PanelNode, focus: Option<PanelId>)
    requires TreeOk(layout)
    ensures HasLeaf(layout, TargetLeaf(layout, focus))
  {
    FirstLeafIsThere(layout);
  }

  lemma LayoutsAreShaped(app: App)
    requires LayoutsOk(app)
    ensures forall w | w in app.layouts :: Shaped(app.layouts[w])
  {
  }

  /** A workspace starts, on init, with a well-formed layout. */
  lemma InitWorkspaceOk(saved: Option<Saved>, list: seq<Session>, leafId: PanelId)
    requires saved.Some? ==> TreeOk(saved.value.layout)
    ensures var r := InitWorkspace(saved, list, leafId); LayoutOk(r.layout, r.focus)
  {
    match saved
    case None => SingleLeafOk(leafId, FirstId(list));
    case Some(s) =>
      var r := Reconcile(s, IdsIn(list));
      ReconcileOk(s, IdsIn(list));
      LeavesAreLeaves(r.layout);
      if Shown(Leaves(r.layout)) == [] && list != [] {
        ShownEmpty(Leaves(r.layout));
        SeedOk(r.layout, r.focus, list[0].id);
      }
  }

  lemma {:induction false} ShownEmpty(ls: seq<PanelNode>)
    requires forall l | l in ls :: l.Leaf?
    ensures Shown(ls) == [] <==> forall i | 0 <= i < |ls| :: ls[i].session == None
  {
    if ls != [] {
      ShownEmpty(ls[1..]);
      if forall i | 0 <= i < |ls| :: ls[i].session == None {
        forall i | 0 <= i < |ls[1..]| ensures ls[1..][i].session == None { assert ls[1..][i] == ls[i + 1]; }
      }
    }
  }

  // ---------------------------------------------------------------------------------------
  // Each action

  lemma InitKeepsInv(st: Store, workspaces: seq<WorkspaceId>, sessions: map<WorkspaceId, seq<Session>>,
                     saved: map<WorkspaceId, Saved>, leafIds: map<WorkspaceId, PanelId>)
    requires Inv(st) && workspaces != []
    requires forall w | w in workspaces :: w in sessions && w in leafIds
    requires forall w | w in saved :: TreeOk(saved[w].layout)
    ensures forall w | w in saved :: Shaped(saved[w].layout)
    ensures Inv(Init(st, workspaces, sessions, saved, leafIds))
  {
    var st' := Init(st, workspaces, sessions, saved, leafIds);
    forall w | w in workspaces ensures LayoutOk(st'.app.layouts[w], st'.app.focused[w]) {
      InitWorkspaceOk(SavedFor(saved, w), sessions[w], leafIds[w]);
    }
    assert st'.app.toasts == st.app.toasts && st'.app.activity == st.app.activity;
  }

  lemma CreateWorkspaceKeepsInv(st: Store, w: WorkspaceId, sess: Session, leafId: PanelId)
    requires Inv(st)
    ensures Inv(CreateWorkspace(st, w, sess, leafId))
  {
  }

  lemma DeleteWorkspaceKeepsInv(st: Store, w: WorkspaceId)
    requires Inv(st)
    ensures Inv(DeleteWorkspace(st, w))
  {
    var gone := IdsIn(SessionsOf(st.app, w));
    ReadKeepsToasts(st.app, gone);
    CancelKeepsTimers(st, gone);
  }

  /** The session a workspace shows in its focused leaf when it is switched to. */
  function Greeted(app: App, w: WorkspaceId, listed: seq<Session>): Option<SessionId> {
    if w in app.layouts then DeriveActive(app, w) else FirstId(listed)
  }

  lemma GreetedIsActive(st: Store, w: WorkspaceId, listed: seq<Session>, leafId: PanelId)
    ensures var st', greeted := SetActiveWorkspace(st, w, listed, leafId), OptSet(Greeted(st.app, w, listed));
      && st'.busy == st.busy - greeted && st'.timers == st.timers - greeted
      && OptSet(st'.app.activeSession) == greeted
      && st'.app.activity == MarkRead(st.app.activity, greeted) && st'.app.toasts == DropToasts(st.app.toasts, greeted)
  {
  }

  lemma SetActiveWorkspaceKeepsInv(st: Store, w: WorkspaceId, listed: seq<Session>, leafId: PanelId)
    requires Inv(st)
    ensures Inv(SetActiveWorkspace(st, w, listed, leafId))
  {
    var app := st.app.(sessions := st.app.sessions[w := listed], activeWorkspace := Some(w));
    if w !in app.layouts {
      SingleLeafOk(leafId, FirstId(listed));
      PutLayoutOk(app, w, Leaf(leafId, FirstId(listed)), leafId);
    }
    var st' := SetActiveWorkspace(st, w, listed, leafId);
    ReadKeepsToasts(st.app, OptSet(st'.app.activeSession));
    CancelKeepsTimers(st, OptSet(st'.app.activeSession));
  }

  lemma CreateSessionKeepsInv(st: Store, w: WorkspaceId, sess: Session, leafId: PanelId)
    requires Inv(st)
    ensures Inv(CreateSession(st, w, sess, leafId))
  {
    if w in st.app.layouts {
      var target := TargetLeaf(st.app.layouts[w], FocusOf(st.app, w));
      TargetLeafOk(st.app.layouts[w], FocusOf(st.app, w));
      MoveSessionOk(st.app.layouts[w], target, sess.id);
    } else {
      SingleLeafOk(leafId, Some(sess.id));
    }
  }

  lemma DeleteSessionKeepsLayouts(app: App, w: WorkspaceId, sid: SessionId, remaining: seq<Session>)
    requires LayoutsOk(app)
    ensures var layouts := DetachEverywhere(app.layouts, sid);
      && (forall v | v in layouts :: LayoutOk(layouts[v], app.focused[v]))
      && (w in layouts ==> LayoutOk(Refill(layouts[w], FocusOf(app, w), remaining), app.focused[w]))
  {
    var layouts := DetachEverywhere(app.layouts, sid);
    forall v | v in layouts ensures LayoutOk(layouts[v], app.focused[v]) {
      ClearingKeepsOnePlace(app.layouts[v], Detach(sid));
      EditKeepsLeaf(app.layouts[v], Detach(sid), app.focused[v]);
    }
    if w in layouts && remaining != [] {
      MoveSessionOk(layouts[w], app.focused[w], remaining[0].id);
    }
  }

  lemma SameToasts(app: App, app': App)
    requires ToastsOk(app) && app'.toasts == app.toasts && app'.activity == app.activity
    ensures ToastsOk(app')
  {
  }

  lemma DeletedLayoutsOk(st: Store, sid: SessionId)
    requires LayoutsOk(st.app) && st.app.activeWorkspace.Some?
    ensures LayoutsOk(DeleteSession(st, sid).app)
  {
    var w := st.app.activeWorkspace.value;
    var remaining := RemoveSession(SessionsOf(st.app, w), sid);
    DeletedParts(st, sid, w, remaining);
    DetachedLayoutsOk(st.app, w, sid, remaining);
  }

  lemma DetachedLayoutsOk(app: App, w: WorkspaceId, sid: SessionId, remaining: seq<Session>)
    requires LayoutsOk(app)
    ensures var layouts := DetachEverywhere(app.layouts, sid);
      var after := if w in layouts then layouts[w := Refill(layouts[w], FocusOf(app, w), remaining)] else layouts;
      after.Keys == app.focused.Keys && forall v | v in after :: LayoutOk(after[v], app.focused[v])
  {
    var layouts := DetachEverywhere(app.layouts, sid);
    DeleteSessionKeepsLayouts(app, w, sid, remaining);
    assert layouts.Keys == app.layouts.Keys;
    if w in layouts { OneReplacedOk(layouts, app.focused, w, Refill(layouts[w], FocusOf(app, w), remaining)); }
  }

  lemma OneReplacedOk(layouts: map<WorkspaceId, PanelNode>, focused: map<WorkspaceId, PanelId>, w: WorkspaceId,
                      layout: PanelNode)
    requires layouts.Keys == focused.Keys && w in layouts && LayoutOk(layout, focused[w])
    requires forall v | v in layouts :: LayoutOk(layouts[v], focused[v])
    ensures forall v | v in layouts[w := layout] :: LayoutOk(layouts[w := layout][v], focused[v])
  {
  }

  lemma {:induction false} DeletedParts(st: Store, sid: SessionId, w: WorkspaceId, remaining: seq<Session>)
    requires st.app.activeWorkspace == Some(w) && remaining == RemoveSession(SessionsOf(st.app, w), sid)
    ensures var app', layouts := DeleteSession(st, sid).app, DetachEverywhere(st.app.layouts, sid);
      && app'.focused == st.app.focused
      && app'.layouts ==
           if w in layouts then layouts[w := Refill(layouts[w], FocusOf(st.app, w), remaining)] else layouts
  {
  }

  lemma DeletedActiveOk(st: Store, sid: SessionId)
    requires st.app.activeWorkspace.Some?
    ensures ActiveOk(DeleteSession(st, sid).app)
  {
  }

  lemma DeleteSessionKeepsInv(st: Store, sid: SessionId)
    requires Inv(st)
    ensures Inv(DeleteSession(st, sid))
  {
    CancelKeepsTimers(st, {sid});
    if st.app.activeWorkspace.Some? {
      ReadKeepsToasts(st.app, {sid});
      SameToasts(Forget(st.app, {sid}), DeleteSession(st, sid).app);
      DeletedLayoutsOk(st, sid);
      DeletedActiveOk(st, sid);
    }
  }

  lemma {:induction false} ActivatedParts(st: Store, sid: SessionId, w: WorkspaceId, layout: PanelNode, focus: PanelId)
    requires forall v | v in st.app.layouts :: Shaped(st.app.layouts[v])
    requires LookupLayout(st.app, st.app.activeWorkspace) == Some(layout) && st.app.activeWorkspace == Some(w)
    requires FocusOf(st.app, w) == Some(focus) && HasLeaf(layout, focus)
    ensures var app, app', found := st.app, SetActiveSession(st, sid).app, FindLeafBySession(layout, sid);
      var layout', focus' := if found.Some? then layout else MoveSession(layout, focus, sid),
                             if found.Some? then found.value.id else focus;
      && app'.layouts == app.layouts[w := layout'] && app'.focused == app.focused[w := focus']
      && app'.activeSession == Derive(layout', focus')
  {
  }

  lemma ActivatedTracks(st: Store, sid: SessionId)
    requires forall v | v in st.app.layouts :: Shaped(st.app.layouts[v])
    ensures var st' := SetActiveSession(st, sid); st'.busy == st.busy - {sid} && st'.timers == st.timers - {sid}
  {
  }

  lemma ActivatedReads(st: Store, sid: SessionId)
    requires forall v | v in st.app.layouts :: Shaped(st.app.layouts[v])
    ensures var app' := SetActiveSession(st, sid).app;
      && app'.activity == MarkRead(st.app.activity, {sid}) && app'.toasts == DropToasts(st.app.toasts, {sid})
      && app'.activeWorkspace == st.app.activeWorkspace
  {
  }

  lemma ActivatedWithoutLayout(st: Store, sid: SessionId)
    requires forall v | v in st.app.layouts :: Shaped(st.app.layouts[v])
    requires LookupLayout(st.app, st.app.activeWorkspace).None?
    ensures var app' := SetActiveSession(st, sid).app; app'.layouts == st.app.layouts && app'.focused == st.app.focused
  {
  }

  lemma SetActiveSessionKeepsInv(st: Store, sid: SessionId)
    requires Inv(st)
    ensures forall w | w in st.app.layouts :: Shaped(st.app.layouts[w])
    ensures Inv(SetActiveSession(st, sid))
  {
    var st' := SetActiveSession(st, sid);
    LayoutsAreShaped(st.app);
    CancelKeepsTimers(st, {sid});
    ReadKeepsToasts(st.app, {sid});
    ActivatedTracks(st, sid);
    ActivatedReads(st, sid);
    SameToasts(Read(st.app, {sid}), st'.app);
    if LookupLayout(st.app, st.app.activeWorkspace).Some? {
      var w := st.app.activeWorkspace.value;
      var layout, focus := st.app.layouts[w], st.app.focused[w];
      assert LayoutOk(layout, focus);
      if FindLeafBySession(layout, sid).Some? {
        FoundBySession(layout, sid);
      } else {
        MoveSessionOk(layout, focus, sid);
      }
      ActivatedParts(st, sid, w, layout, focus);
      PutLayoutOk(st.app, w, st'.app.layouts[w], st'.app.focused[w]);
    } else {
      ActivatedWithoutLayout(st, sid);
    }
  }

  /** Looking a session up finds a leaf that shows it; looking that leaf's id up finds it again. */
  lemma {:induction false} FoundBySession(layout: PanelNode, sid: SessionId)
    requires TreeOk(layout) && FindLeafBySession(layout, sid).Some?
    ensures var l := FindLeafBySession(layout, sid).value;
      HasLeaf(layout, l.id) && l in Leaves(layout) && Shows(l, sid) && Derive(layout, l.id) == Some(sid)
  {
    FindsFirstBySession(layout, sid);
    var l := FindLeafBySession(layout, sid).value;
    var i :| 0 <= i < |Leaves(layout)| && Leaves(layout)[i] == l;
    FindsThatLeaf(layout, i);
  }

  lemma OutputKeepsInv(st: Store, sid: SessionId, now: nat)
    requires Inv(st)
    ensures Inv(MarkSessionOutput(st, sid, now))
  {
  }

  lemma FireKeepsInv(st: Store, sid: SessionId, owner: Option<WorkspaceId>)
    requires Inv(st)
    ensures Inv(FireTimer(st, sid, owner))
  {
    CancelKeepsTimers(st, {sid});
    if sid in st.busy { NotifyKeepsToasts(st.app, sid, st.busy[sid].lastByteAt, owner); }
  }

  lemma ReadingKeepsInv(st: Store, sids: set<SessionId>)
    requires Inv(st)
    ensures Inv(Cancel(st, sids).(app := Read(st.app, sids)))
  {
    CancelKeepsTimers(st, sids);
    ReadKeepsToasts(st.app, sids);
  }

  lemma DismissKeepsInv(st: Store, sid: SessionId, at: nat)
    requires Inv(st)
    ensures Inv(DismissToast(st, sid, at))
  {
    DropToastFacts(st.app.toasts, sid, at);
  }

  lemma SplitPanelKeepsInv(st: Store, panelId: PanelId, dir: Direction, placement: Placement,
                           newLeafId: PanelId, newSplitId: PanelId)
    requires Inv(st) && newLeafId != newSplitId
    requires LookupLayout(st.app, st.app.activeWorkspace).Some? ==>
      newLeafId !in Ids(LookupLayout(st.app, st.app.activeWorkspace).value)
      && newSplitId !in Ids(LookupLayout(st.app, st.app.activeWorkspace).value)
    ensures Inv(SplitPanel(st, panelId, dir, placement, newLeafId, newSplitId))
  {
    if LookupLayout(st.app, st.app.activeWorkspace).Some? {
      SplitLeafOk(st.app.layouts[st.app.activeWorkspace.value], panelId, dir, placement, newLeafId, newSplitId);
    }
  }

  /** The layout and focus a closed panel leaves. */
  lemma {:induction false} ClosedLayoutOk(old_: PanelNode, panelId: PanelId, leafId: PanelId, oldFocus: Option<PanelId>)
    requires TreeOk(old_)
    ensures var reduced := RemoveLeaf(old_, panelId);
      var layout := if reduced.Some? then reduced.value else Leaf(leafId, None);
      && Inhabited(layout)
      && LayoutOk(layout, if oldFocus.Some? && oldFocus.value != panelId && HasLeaf(layout, oldFocus.value)
                          then oldFocus.value else FirstLeaf(layout).id)
  {
    var reduced := RemoveLeaf(old_, panelId);
    var layout := if reduced.Some? then reduced.value else Leaf(leafId, None);
    ClosedIsInhabited(old_, panelId, leafId);
    RemoveLeafOk(old_, panelId);
    if reduced.None? { SingleLeafOk(leafId, None); }
    FirstLeafIsThere(layout);
  }

  lemma ClosedLayoutsOk(st: Store, panelId: PanelId, captured: Option<SessionId>, leafId: PanelId)
    requires LayoutsOk(st.app) && LookupLayout(st.app, st.app.activeWorkspace).Some?
    requires forall w | w in st.app.layouts :: Shaped(st.app.layouts[w])
    ensures LayoutsOk(ClosePanel(st, panelId, captured, leafId).app)
  {
    var w := st.app.activeWorkspace.value;
    ClosedLayoutOk(st.app.layouts[w], panelId, leafId, FocusOf(st.app, w));
  }

  lemma ClosedActiveOk(st: Store, panelId: PanelId, captured: Option<SessionId>, leafId: PanelId)
    requires LookupLayout(st.app, st.app.activeWorkspace).Some?
    requires forall w | w in st.app.layouts :: Shaped(st.app.layouts[w])
    ensures ActiveOk(ClosePanel(st, panelId, captured, leafId).app)
  {
  }

  lemma ClosePanelKeepsInv(st: Store, panelId: PanelId, captured: Option<SessionId>, leafId: PanelId)
    requires Inv(st)
    ensures forall w | w in st.app.layouts :: Shaped(st.app.layouts[w])
    ensures Inv(ClosePanel(st, panelId, captured, leafId))
  {
    CancelKeepsTimers(st, OptSet(captured));
    LayoutsAreShaped(st.app);
    if LookupLayout(st.app, st.app.activeWorkspace).Some? {
      ClosedLayoutsOk(st, panelId, captured, leafId);
      ClosedActiveOk(st, panelId, captured, leafId);
      var app := if captured.None? then st.app else Forget(st.app, {captured.value});
      ReadKeepsToasts(st.app, OptSet(captured));
      SameToasts(app, ClosePanel(st, panelId, captured, leafId).app);
    }
  }

  lemma FocusPanelKeepsInv(st: Store, panelId: PanelId)
    requires Inv(st)
    ensures Inv(FocusPanel(st, panelId))
  {
    if LookupLayout(st.app, st.app.activeWorkspace).Some? {
      var active := Derive(st.app.layouts[st.app.activeWorkspace.value], panelId);
      CancelKeepsTimers(st, OptSet(active));
      ReadKeepsToasts(st.app, OptSet(active));
    }
  }

  lemma AssignSessionKeepsInv(st: Store, panelId: PanelId, sid: SessionId)
    requires Inv(st)
    ensures Inv(AssignSession(st, panelId, sid))
  {
    CancelKeepsTimers(st, {sid});
    ReadKeepsToasts(st.app, {sid});
    if LookupLayout(st.app, st.app.activeWorkspace).Some? {
      var layout := st.app.layouts[st.app.activeWorkspace.value];
      if HasLeaf(layout, panelId) { MoveSessionOk(layout, panelId, sid); }
    }
  }

  lemma ResizeKeepsInv(st: Store, splitId: PanelId, sizes: seq<real>)
    requires Inv(st)
    ensures Inv(ResizeSplit(st, splitId, sizes))
  {
    if LookupLayout(st.app, st.app.activeWorkspace).Some? {
      var w := st.app.activeWorkspace.value;
      ResizedOk(st.app.layouts[w], st.app.focused[w], splitId, sizes);
    }
  }

  lemma {:induction false} ResizedOk(root: PanelNode, focus: PanelId, splitId: PanelId, sizes: seq<real>)
    requires LayoutOk(root, focus)
    ensures LayoutOk(SetSplitSizes(root, splitId, sizes), focus)
    ensures Leaves(SetSplitSizes(root, splitId, sizes)) == Leaves(root)
    ensures Derive(SetSplitSizes(root, splitId, sizes), focus) == Derive(root, focus)
  {
    var e := SetSizes(splitId, sizes);
    ClearingKeepsOnePlace(root, e);
    EditKeepsLeaf(root, e, focus);
    MapTreeLeaves(root, e);
    assert Leaves(MapTree(root, e)) == Leaves(root) by {
      forall i | 0 <= i < |Leaves(root)| ensures Leaves(MapTree(root, e))[i] == Leaves(root)[i] {
        assert Leaves(root)[i].Leaf?;
      }
    }
    var i := LeafIndex(root, focus);
    var j := LeafIndex(MapTree(root, e), focus);
  }
}
