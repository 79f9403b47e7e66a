/** What each action of the store is for: the leaves, focus and marks it leaves behind, and what it
    must not touch.  The leaf lists are compared place by place, as a user sees them. */
module StoreEffects {
  import opened Wrappers
  import opened PanelTree
  import opened PanelEdit
  import opened PanelRestructure
  import opened PanelFrames
  import opened PanelInvariant
  import opened PanelPersistence
  import opened AppStore
  import opened StoreInvariant

  /** No unread mark, no toast, no busy track and no timer. */
  ghost predicate Quiet(st: Store, sid: SessionId) {
    && !IsUnread(st.app, sid) && sid !in st.busy && sid !in st.timers
    && forall t | t in st.app.toasts :: t.sessionId != sid
  }

  /** The marks of every session outside `sids` are as they were. */
  ghost predicate SameMarks(a: Store, b: Store, sids: set<SessionId>) {
    && (forall s | s !in sids :: IsUnread(b.app, s) <==> IsUnread(a.app, s))
    && (forall t: Toast | t.sessionId !in sids :: t in b.app.toasts <==> t in a.app.toasts)
    && b.busy == a.busy - sids && b.timers == a.timers - sids
  }

  ghost predicate OtherLayoutsSame(a: App, b: App, w: WorkspaceId) {
    && b.layouts.Keys == a.layouts.Keys + {w} && b.focused.Keys == a.focused.Keys + {w}
    && (forall v | v in a.layouts && v != w :: b.layouts[v] == a.layouts[v])
    && (forall v | v in a.focused && v != w :: b.focused[v] == a.focused[v])
  }

  predicate NoneShows(layout: PanelNode, sid: SessionId) {
    forall l | l in Leaves(layout) :: !Shows(l, sid)
  }

  /** Looking at sessions marks exactly those read. */
  lemma {:induction false} ReadMarks(st: Store, st': Store, sids: set<SessionId>)
    requires st'.app.activity == MarkRead(st.app.activity, sids) || st'.app.activity == st.app.activity - sids
    requires st'.app.toasts == DropToasts(st.app.toasts, sids)
    requires st'.busy == st.busy - sids && st'.timers == st.timers - sids
    ensures SameMarks(st, st', sids) && forall s | s in sids :: Quiet(st', s)
  {
    DropToastsFacts(st.app.toasts, sids);
  }

  /** setActiveSession with a layout: the session ends up shown by the focused leaf and active, having
      taken the focused leaf's place unless some leaf already showed it. */
  lemma ActivatedIsShown(st: Store, sid: SessionId, w: WorkspaceId)
    requires Inv(st) && st.app.activeWorkspace == Some(w) && w in st.app.layouts
    ensures forall v | v in st.app.layouts :: Shaped(st.app.layouts[v])
    ensures var app, app' := st.app, SetActiveSession(st, sid).app;
      && OtherLayoutsSame(app, app', w) && app'.activeSession == Some(sid)
      && (if NoneShows(app.layouts[w], sid)
          then app'.focused[w] == app.focused[w]
               && Moved(Leaves(app.layouts[w]), Leaves(app'.layouts[w]), app.focused[w], sid)
          else app'.layouts[w] == app.layouts[w])
    ensures Quiet(SetActiveSession(st, sid), sid) && SameMarks(st, SetActiveSession(st, sid), {sid})
  {
    LayoutsAreShaped(st.app);
    var layout, focus := st.app.layouts[w], st.app.focused[w];
    assert LayoutOk(layout, focus);
    ReadMarks(st, SetActiveSession(st, sid), {sid});
    FoundIffShown(layout, sid);
    if FindLeafBySession(layout, sid).Some? { FoundBySession(layout, sid); } else { MoveSessionOk(layout, focus, sid); }
    MoveSessionLeaves(layout, focus, sid);
    ActivatedParts(st, sid, w, layout, focus);
  }

  lemma {:induction false} FoundIffShown(layout: PanelNode, sid: SessionId)
    ensures FindLeafBySession(layout, sid).Some? <==> !NoneShows(layout, sid)
  {
    FindsFirstBySession(layout, sid);
  }

  /** The user can see the session: the page is visible, and a leaf of the active workspace shows it,
      or, while that workspace has no layout yet, it is the active session. */
  predicate OnScreen(st: Store, sid: SessionId) {
    && st.pageVisible && st.app.activeWorkspace.Some?
    && var w := st.app.activeWorkspace.value;
      if w in st.app.layouts then !NoneShows(st.app.layouts[w], sid) else st.app.activeSession == Some(sid)
  }

  /** The store's own test is exact. */
  lemma {:induction false} ForegroundIsOnScreen(st: Store, sid: SessionId)
    ensures Foreground(st, sid) <==> OnScreen(st, sid)
  {
    if st.app.activeWorkspace.Some? && st.app.activeWorkspace.value in st.app.layouts {
      FoundIffShown(st.app.layouts[st.app.activeWorkspace.value], sid);
    }
  }

  /** createSession: the new session is listed last and shown in the workspace's focused leaf, or in
      a first leaf of its own; it is active if its workspace is. */
  lemma CreatedIsShown(st: Store, w: WorkspaceId, sess: Session, leafId: PanelId)
    requires Inv(st)
    ensures w in st.app.layouts ==> Shaped(st.app.layouts[w])
    ensures var app, app' := st.app, CreateSession(st, w, sess, leafId).app;
      && OtherLayoutsSame(app, app', w)
      && app'.sessions == app.sessions[w := SessionsOf(app, w) + [sess]]
      && app'.activeSession == (if app.activeWorkspace == Some(w) then Some(sess.id) else app.activeSession)
      && (if w in app.layouts
          then app'.focused[w] == app.focused[w]
               && Moved(Leaves(app.layouts[w]), Leaves(app'.layouts[w]), app.focused[w], sess.id)
          else Leaves(app'.layouts[w]) == [Leaf(leafId, Some(sess.id))] && app'.focused[w] == leafId)
  {
    LayoutsAreShaped(st.app);
    if w in st.app.layouts {
      assert LayoutOk(st.app.layouts[w], st.app.focused[w]);
      MoveSessionLeaves(st.app.layouts[w], st.app.focused[w], sess.id);
    }
    CreatedParts(st, w, sess, leafId);
  }

  lemma CreatedParts(st: Store, w: WorkspaceId, sess: Session, leafId: PanelId)
    requires w in st.app.layouts ==>
      Shaped(st.app.layouts[w]) && w in st.app.focused && HasLeaf(st.app.layouts[w], st.app.focused[w])
    ensures var app, app' := st.app, CreateSession(st, w, sess, leafId).app;
      && app'.layouts == app.layouts[w := if w in app.layouts then MoveSession(app.layouts[w], app.focused[w], sess.id)
                                          else Leaf(leafId, Some(sess.id))]
      && app'.focused == app.focused[w := if w in app.layouts then app.focused[w] else leafId]
      && app'.sessions == app.sessions[w := SessionsOf(app, w) + [sess]]
      && app'.activeSession == (if app.activeWorkspace == Some(w) then Some(sess.id) else app.activeSession)
  {
  }

  /** Leaf by leaf, the session cleared. */
  ghost predicate Cleared(a: seq<PanelNode>, b: seq<PanelNode>, sid: SessionId) {
    && |a| == |b|
    && forall i | 0 <= i < |a| ::
         a[i].Leaf? && b[i] == Leaf(a[i].id, if a[i].session == Some(sid) then None else a[i].session)
  }

  lemma {:induction false} DetachedIsCleared(layout: PanelNode, sid: SessionId)
    ensures Cleared(Leaves(layout), Leaves(DetachSession(layout, sid)), sid)
  {
    MapTreeLeaves(layout, Detach(sid));
  }

  lemma {:induction false} RemovedFromList(list: seq<Session>, sid: SessionId)
    ensures forall s :: s in RemoveSession(list, sid) <==> s in list && s.id != sid
  {
    if list != [] { RemovedFromList(list[1..], sid); }
  }

  /** deleteSession: the session is off the active workspace's list and nothing is remembered of it;
      in every other workspace only the leaf that showed it is cleared. */
  lemma DeletedIsGone(st: Store, sid: SessionId, w: WorkspaceId)
    requires Inv(st) && st.app.activeWorkspace == Some(w)
    ensures var app, app' := st.app, DeleteSession(st, sid).app;
      && app'.layouts.Keys == app.layouts.Keys && app'.focused == app.focused
      && (forall v | v in app.layouts && v != w :: Cleared(Leaves(app.layouts[v]), Leaves(app'.layouts[v]), sid))
      && (forall s :: s in SessionsOf(app', w) <==> s in SessionsOf(app, w) && s.id != sid)
      && sid !in app'.activity
    ensures Quiet(DeleteSession(st, sid), sid) && SameMarks(st, DeleteSession(st, sid), {sid})
  {
    RemovedFromList(SessionsOf(st.app, w), sid);
    ReadMarks(st, DeleteSession(st, sid), {sid});
    forall v | v in st.app.layouts && v != w
      ensures Cleared(Leaves(st.app.layouts[v]), Leaves(DeleteSession(st, sid).app.layouts[v]), sid)
    {
      DetachedIsCleared(st.app.layouts[v], sid);
    }
  }

  /** In the active workspace no leaf shows the session any more, and if that leaves the focused leaf
      empty, the first remaining session moves into it. */
  lemma DeletedInActive(st: Store, sid: SessionId, w: WorkspaceId)
    requires Inv(st) && st.app.activeWorkspace == Some(w) && w in st.app.layouts
    ensures var app, app' := st.app, DeleteSession(st, sid).app;
      && w in app'.layouts && w in app.focused && NoneShows(app'.layouts[w], sid)
      && Refilled(Leaves(app.layouts[w]), Leaves(app'.layouts[w]), app.focused[w], sid, SessionsOf(app', w))
  {
    var remaining := RemoveSession(SessionsOf(st.app, w), sid);
    DeletedParts(st, sid, w, remaining);
    RemovedFromList(SessionsOf(st.app, w), sid);
    assert LayoutOk(st.app.layouts[w], st.app.focused[w]);
    RefillsIfEmpty(st.app.layouts[w], st.app.focused[w], sid, remaining);
  }

  /** The session cleared, and then the first of the remaining ones in the focused leaf exactly if
      that leaf is empty. */
  ghost predicate Refilled(a: seq<PanelNode>, b: seq<PanelNode>, focus: PanelId, sid: SessionId,
                           remaining: seq<Session>) {
    exists cleared: seq<PanelNode> ::
      && Cleared(a, cleared, sid)
      && if remaining != [] && EmptyAt(cleared, focus) then Moved(cleared, b, focus, remaining[0].id) else b == cleared
  }

  lemma {:induction false} RefillsIfEmpty(layout: PanelNode, focus: PanelId, sid: SessionId, remaining: seq<Session>)
    requires LayoutOk(layout, focus) && forall s | s in remaining :: s.id != sid
    ensures var after := Refill(DetachSession(layout, sid), Some(focus), remaining);
      NoneShows(after, sid) && Refilled(Leaves(layout), Leaves(after), focus, sid, remaining)
  {
    var detached := DetachSession(layout, sid);
    DetachedIsCleared(layout, sid);
    ClearingKeepsOnePlace(layout, Detach(sid));
    EditKeepsLeaf(layout, Detach(sid), focus);
    FocusedEmptyIff(detached, focus);
    if remaining != [] {
      assert remaining[0] in remaining;
      MoveSessionLeaves(detached, focus, remaining[0].id);
    }
  }

  predicate EmptyAt(ls: seq<PanelNode>, id: PanelId) {
    Leaf(id, None) in ls
  }

  lemma {:induction false} FocusedEmptyIff(layout: PanelNode, focus: PanelId)
    requires TreeOk(layout) && HasLeaf(layout, focus)
    ensures Derive(layout, focus).None? <==> EmptyAt(Leaves(layout), focus)
  {
    var ls := Leaves(layout);
    var i := LeafIndex(layout, focus);
    FindsThatLeaf(layout, i);
    DistinctGivesDistinctLeaves(layout);
    if EmptyAt(ls, focus) {
      var k :| 0 <= k < |ls| && ls[k] == Leaf(focus, None);
      assert k == i;
    }
  }

  /** closePanel: the leaves are the old ones minus the closed one, or a single new empty one; the
      focus moves only if it has to, and then to the first leaf. */
  lemma {:induction false} ClosedIsGone(st: Store, panelId: PanelId, captured: Option<SessionId>, leafId: PanelId,
                                        w: WorkspaceId)
    requires Inv(st) && st.app.activeWorkspace == Some(w) && w in st.app.layouts
    ensures forall v | v in st.app.layouts :: Shaped(st.app.layouts[v])
    ensures var app, app' := st.app, ClosePanel(st, panelId, captured, leafId).app;
      var left := Without(Leaves(app.layouts[w]), panelId);
      && OtherLayoutsSame(app, app', w)
      && Leaves(app'.layouts[w]) == (if left == [] then [Leaf(leafId, None)] else left)
      && app'.focused[w] == (if HasLeafId(left, app.focused[w]) then app.focused[w] else Leaves(app'.layouts[w])[0].id)
  {
    LayoutsAreShaped(st.app);
    assert LayoutOk(st.app.layouts[w], st.app.focused[w]);
    ClosedShape(st, panelId, captured, leafId, w, st.app.layouts[w], st.app.focused[w]);
  }

  lemma {:induction false} ClosedShape(st: Store, panelId: PanelId, captured: Option<SessionId>, leafId: PanelId,
                                       w: WorkspaceId,
                    old_: PanelNode, focus: PanelId)
    requires forall v | v in st.app.layouts :: Shaped(st.app.layouts[v])
    requires LookupLayout(st.app, Some(w)) == Some(old_) && FocusOf(st.app, w) == Some(focus)
    requires st.app.activeWorkspace == Some(w) && LayoutOk(old_, focus)
    ensures var app, app' := st.app, ClosePanel(st, panelId, captured, leafId).app;
      var left := Without(Leaves(old_), panelId);
      && OtherLayoutsSame(app, app', w)
      && Leaves(app'.layouts[w]) == (if left == [] then [Leaf(leafId, None)] else left)
      && app'.focused[w] == (if HasLeafId(left, focus) then focus else Leaves(app'.layouts[w])[0].id)
  {
    var reduced := RemoveLeaf(old_, panelId);
    var layout := if reduced.Some? then reduced.value else Leaf(leafId, None);
    ClosedLeaves(old_, panelId, leafId, focus);
    ClosedParts(st, panelId, captured, leafId, w, old_, focus);
    var focus' := if focus != panelId && HasLeaf(layout, focus) then focus else FirstLeaf(layout).id;
    OneReplaced(st.app, ClosePanel(st, panelId, captured, leafId).app, w, layout, focus');
  }

  lemma OneReplaced(a: App, b: App, w: WorkspaceId, layout: PanelNode, focus: PanelId)
    requires b.layouts == a.layouts[w := layout] && b.focused == a.focused[w := focus]
    ensures OtherLayoutsSame(a, b, w) && b.layouts[w] == layout && b.focused[w] == focus
  {
  }

  lemma {:induction false} ClosedParts(st: Store, panelId: PanelId, captured: Option<SessionId>, leafId: PanelId,
                                       w: WorkspaceId,
                    old_: PanelNode, focus: PanelId)
    requires forall v | v in st.app.layouts :: Shaped(st.app.layouts[v])
    requires LookupLayout(st.app, Some(w)) == Some(old_) && FocusOf(st.app, w) == Some(focus)
    requires st.app.activeWorkspace == Some(w)
    ensures var reduced := RemoveLeaf(old_, panelId);
      var layout := if reduced.Some? then reduced.value else Leaf(leafId, None);
      var app' := ClosePanel(st, panelId, captured, leafId).app;
      && Inhabited(layout) && app'.layouts == st.app.layouts[w := layout]
      && app'.focused == st.app.focused[w :=
           if focus != panelId && HasLeaf(layout, focus) then focus else FirstLeaf(layout).id]
  {
    ClosedIsInhabited(old_, panelId, leafId);
  }

  /** The session the closed panel showed is forgotten. */
  lemma ClosedIsForgotten(st: Store, panelId: PanelId, sid: SessionId, leafId: PanelId, w: WorkspaceId)
    requires Inv(st) && st.app.activeWorkspace == Some(w) && w in st.app.layouts
    ensures forall v | v in st.app.layouts :: Shaped(st.app.layouts[v])
    ensures var st' := ClosePanel(st, panelId, Some(sid), leafId);
      && Quiet(st', sid) && SameMarks(st, st', {sid}) && sid !in st'.app.activity
      && forall s :: s in SessionsOf(st'.app, w) <==> s in SessionsOf(st.app, w) && s.id != sid
  {
    LayoutsAreShaped(st.app);
    RemovedFromList(SessionsOf(st.app, w), sid);
    ReadMarks(st, ClosePanel(st, panelId, Some(sid), leafId), {sid});
  }

  lemma {:induction false} WithoutHas(ls: seq<PanelNode>, id: PanelId, other: PanelId)
    ensures HasLeafId(Without(ls, id), other) <==> other != id && HasLeafId(ls, other)
  {
    if ls != [] {
      WithoutHas(ls[1..], id, other);
      var rest := Without(ls[1..], id);
      HasLeafIdCons(ls, other);
      if ls[0].id == id {
        assert [] + rest == rest;
      } else {
        assert ([ls[0]] + rest)[1..] == rest;
        HasLeafIdCons([ls[0]] + rest, other);
      }
    }
  }

  lemma HasLeafIdCons(ls: seq<PanelNode>, id: PanelId)
    requires ls != []
    ensures HasLeafId(ls, id) <==> ls[0].id == id || HasLeafId(ls[1..], id)
  {
  }

  lemma {:induction false} ClosedLeaves(old_: PanelNode, panelId: PanelId, leafId: PanelId, focus: PanelId)
    requires TreeOk(old_) && HasLeaf(old_, focus)
    ensures var reduced := RemoveLeaf(old_, panelId);
      var layout := if reduced.Some? then reduced.value else Leaf(leafId, None);
      var left := Without(Leaves(old_), panelId);
      && Leaves(layout) == (if left == [] then [Leaf(leafId, None)] else left)
      && Inhabited(layout) && FirstLeaf(layout) == Leaves(layout)[0]
      && (left != [] ==> (focus != panelId && HasLeaf(layout, focus) <==> HasLeafId(left, focus)))
      && (left == [] ==> (HasLeaf(layout, focus) <==> focus == leafId) && !HasLeafId(left, focus))
  {
    var reduced := RemoveLeaf(old_, panelId);
    var layout := if reduced.Some? then reduced.value else Leaf(leafId, None);
    ClosedIsInhabited(old_, panelId, leafId);
    RemoveLeafLeaves(old_, panelId);
    RemoveLeafNullIff(old_, panelId);
    FirstLeafIsFirst(layout);
    HasLeafIff(layout, focus);
    WithoutHas(Leaves(old_), panelId, focus);
  }

  /** focusPanel on another existing leaf: the focus and the active session move there, the session
      is read, and no layout changes. */
  lemma FocusedIsActive(st: Store, panelId: PanelId, w: WorkspaceId)
    requires Inv(st) && st.app.activeWorkspace == Some(w) && w in st.app.layouts && st.app.focused[w] != panelId
    ensures var st' := FocusPanel(st, panelId);
      if !HasLeafId(Leaves(st.app.layouts[w]), panelId) then st' == st
      else
        && st'.app.layouts == st.app.layouts && st'.app.focused == st.app.focused[w := panelId]
        && Leaf(panelId, st'.app.activeSession) in Leaves(st.app.layouts[w])
        && (forall sid | st'.app.activeSession == Some(sid) :: Quiet(st', sid))
        && SameMarks(st, st', OptSet(st'.app.activeSession))
  {
    var layout := st.app.layouts[w];
    HasLeafIff(layout, panelId);
    if HasLeaf(layout, panelId) {
      var i := LeafIndex(layout, panelId);
      FindsThatLeaf(layout, i);
      ReadMarks(st, FocusPanel(st, panelId), OptSet(Derive(layout, panelId)));
    }
  }

  /** setActiveWorkspace: the workspace is shown with the layout it had, or a first leaf with its first
      session; what its focused leaf shows is active and read. */
  lemma OpenedIsActive(st: Store, w: WorkspaceId, listed: seq<Session>, leafId: PanelId)
    requires Inv(st)
    ensures var app, st' := st.app, SetActiveWorkspace(st, w, listed, leafId);
      && st'.app.activeWorkspace == Some(w) && OtherLayoutsSame(app, st'.app, w)
      && (if w in app.layouts then st'.app.layouts[w] == app.layouts[w] && st'.app.focused[w] == app.focused[w]
          else Leaves(st'.app.layouts[w]) == [Leaf(leafId, FirstId(listed))])
      && Leaf(st'.app.focused[w], st'.app.activeSession) in Leaves(st'.app.layouts[w])
      && (forall sid | st'.app.activeSession == Some(sid) :: Quiet(st', sid))
      && SameMarks(st, st', OptSet(st'.app.activeSession))
  {
    var st' := SetActiveWorkspace(st, w, listed, leafId);
    GreetedIsActive(st, w, listed, leafId);
    ReadMarks(st, st', OptSet(st'.app.activeSession));
    OpenedParts(st, w, listed, leafId);
    if w in st.app.layouts {
      var layout, focus := st.app.layouts[w], st.app.focused[w];
      assert LayoutOk(layout, focus);
      var i := LeafIndex(layout, focus);
      FindsThatLeaf(layout, i);
    } else {
      assert Leaves(st'.app.layouts[w])[0] == Leaf(leafId, FirstId(listed));
    }
  }

  lemma OpenedParts(st: Store, w: WorkspaceId, listed: seq<Session>, leafId: PanelId)
    requires st.app.layouts.Keys == st.app.focused.Keys
    ensures var app, app' := st.app, SetActiveWorkspace(st, w, listed, leafId).app;
      && app'.activeWorkspace == Some(w)
      && (if w in app.layouts then app'.layouts == app.layouts && app'.focused == app.focused
          else app'.layouts == app.layouts[w := Leaf(leafId, FirstId(listed))]
               && app'.focused == app.focused[w := leafId])
      && app'.activeSession == Derive(app'.layouts[w], app'.focused[w])
  {
  }

  /** deleteWorkspace: nothing of the workspace or of its listed sessions is kept, and the other
      workspaces keep their layouts. */
  lemma WorkspaceIsGone(st: Store, w: WorkspaceId)
    requires Inv(st)
    ensures var app, st' := st.app, DeleteWorkspace(st, w);
      && w !in st'.app.layouts && w !in st'.app.focused && w !in st'.app.sessions && w !in st'.app.workspaces
      && (forall v | v in app.layouts && v != w ::
            v in st'.app.layouts && st'.app.layouts[v] == app.layouts[v] && st'.app.focused[v] == app.focused[v])
      && (forall sid | sid in IdsIn(SessionsOf(app, w)) :: Quiet(st', sid) && sid !in st'.app.activity)
      && SameMarks(st, st', IdsIn(SessionsOf(app, w)))
      && (forall v | v in app.workspaces && v != w :: v in st'.app.workspaces)
      && st'.app.activeWorkspace == (if st'.app.workspaces == [] then None else Some(st'.app.workspaces[0]))
  {
    ReadMarks(st, DeleteWorkspace(st, w), IdsIn(SessionsOf(st.app, w)));
    RemovedWorkspace(st.app.workspaces, w);
  }

  lemma {:induction false} RemovedWorkspace(ws: seq<WorkspaceId>, w: WorkspaceId)
    ensures forall v :: v in RemoveWorkspace(ws, w) <==> v in ws && v != w
  {
    if ws != [] { RemovedWorkspace(ws[1..], w); }
  }

  /** Coming back to the page: every session the active workspace shows is read, and no other. */
  lemma VisibleAreRead(st: Store, w: WorkspaceId)
    requires Inv(st) && st.app.activeWorkspace == Some(w) && w in st.app.layouts
    ensures var st' := ClearVisibleUnread(st);
      && (forall sid | !NoneShows(st.app.layouts[w], sid) :: Quiet(st', sid))
      && SameMarks(st, st', VisibleSessions(st.app))
      && (forall sid :: sid in VisibleSessions(st.app) <==> !NoneShows(st.app.layouts[w], sid))
  {
    LeavesAreLeaves(st.app.layouts[w]);
    forall sid ensures sid in VisibleSessions(st.app) <==> !NoneShows(st.app.layouts[w], sid) {
      ShownIff(Leaves(st.app.layouts[w]), sid);
    }
    ReadMarks(st, ClearVisibleUnread(st), VisibleSessions(st.app));
  }

  lemma {:induction false} ShownIff(ls: seq<PanelNode>, sid: SessionId)
    requires forall l | l in ls :: l.Leaf?
    ensures sid in Shown(ls) <==> exists l :: l in ls && Shows(l, sid)
  {
    if ls != [] {
      ShownIff(ls[1..], sid);
      var head := if ls[0].session.Some? then [ls[0].session.value] else [];
      assert Shown(ls) == head + Shown(ls[1..]);
      assert forall l :: l in ls <==> l == ls[0] || l in ls[1..];
      assert sid in head <==> Shows(ls[0], sid);
    }
  }

  // ---------------------------------------------------------------------------------------
  // Resizing

  function Resized(old_: Option<Frame>, sizes: seq<real>): Option<Frame> {
    if old_.Some? && |old_.value.sizes| == |sizes| then Some(Frame(old_.value.direction, sizes)) else old_
  }

  /** resizeSplit: the named split takes the new sizes if they are as many as the old ones; every
      other split, every leaf, the focus and the active session stay. */
  lemma {:induction false} ResizedIsSized(st: Store, splitId: PanelId, sizes: seq<real>, w: WorkspaceId, id: PanelId)
    requires Inv(st) && st.app.activeWorkspace == Some(w) && w in st.app.layouts
    ensures var app, app' := st.app, ResizeSplit(st, splitId, sizes).app;
      && OtherLayoutsSame(app, app', w) && app'.focused == app.focused && app'.activeSession == app.activeSession
      && Leaves(app'.layouts[w]) == Leaves(app.layouts[w])
      && FrameAt(app'.layouts[w], id) ==
           (if id == splitId then Resized(FrameAt(app.layouts[w], id), sizes) else FrameAt(app.layouts[w], id))
  {
    EditFrame(st.app.layouts[w], SetSizes(splitId, sizes), id);
    MapTreeLeaves(st.app.layouts[w], SetSizes(splitId, sizes));
  }
}
