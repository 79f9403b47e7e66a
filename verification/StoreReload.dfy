/** Reloading the page: what comes back from storage is what was on the screen. */
module StoreReload {
  import opened Wrappers
  import opened PanelTree
  import opened PanelEdit
  import opened PanelInvariant
  import opened PanelPersistence
  import opened AppStore
  import opened StoreInvariant
  import opened StoreRuns

  /** The session is still there (an empty id is never pruned). */
  predicate Kept(s: Option<SessionId>, list: seq<Session>) {
    s.Some? && (s.value == "" || s.value in IdsIn(list))
  }

  ghost predicate AnyKept(ls: seq<PanelNode>, list: seq<Session>) {
    exists i | 0 <= i < |ls| :: ls[i].Leaf? && Kept(ls[i].session, list)
  }

  function RestoredSession(l: PanelNode, list: seq<Session>, seeded: bool, focus: PanelId): Option<SessionId>
    requires l.Leaf?
  {
    if Kept(l.session, list) then l.session
    else if seeded && list != [] && l.id == focus then Some(list[0].id)
    else None
  }

  /** Leaf by leaf: the same ids, dead sessions cleared, and, only if none was left alive, the
      first session of the list in the focused leaf. */
  ghost predicate Restored(a: seq<PanelNode>, b: seq<PanelNode>, list: seq<Session>, focus: PanelId) {
    && |a| == |b|
    && forall i | 0 <= i < |a| ::
         a[i].Leaf? && b[i] == Leaf(a[i].id, RestoredSession(a[i], list, !AnyKept(a, list), focus))
  }

  lemma {:induction false} SameFrameTrans(a: PanelNode, b: PanelNode, c: PanelNode)
    requires SameFrame(a, b) && SameFrame(b, c)
    ensures SameFrame(a, c)
    decreases a, 1
  {
    if a.Split? { SameFramesTrans(a.children, b.children, c.children); }
  }

  lemma {:induction false} SameFramesTrans(as_: seq<PanelNode>, bs: seq<PanelNode>, cs: seq<PanelNode>)
    requires SameFrames(as_, bs) && SameFrames(bs, cs)
    ensures SameFrames(as_, cs)
    decreases as_, 0
  {
    if as_ != [] {
      SameFrameTrans(as_[0], bs[0], cs[0]);
      SameFramesTrans(as_[1..], bs[1..], cs[1..]);
    }
  }

  lemma PrunedLeaves(a: seq<PanelNode>, b: seq<PanelNode>, list: seq<Session>)
    requires EditedLeaves(a, b, Prune(IdsIn(list)))
    ensures forall i | 0 <= i < |a| :: b[i].session == if Kept(a[i].session, list) then a[i].session else None
    ensures AnyKept(a, list) <==> !(forall i | 0 <= i < |b| :: b[i].session == None)
  {
  }

  /** One workspace, from its saved layout. */
  lemma WorkspaceRestored(saved: Saved, list: seq<Session>, leafId: PanelId)
    requires LayoutOk(saved.layout, saved.focus)
    ensures var r := InitWorkspace(Some(saved), list, leafId);
      && r.focus == saved.focus && SameFrame(saved.layout, r.layout)
      && Restored(Leaves(saved.layout), Leaves(r.layout), list, saved.focus)
  {
    var p := Reconcile(saved, IdsIn(list));
    var e := SetSession(saved.focus, FirstId(list));
    ReconcileOk(saved, IdsIn(list));
    PrunedLeaves(Leaves(saved.layout), Leaves(p.layout), list);
    LeavesAreLeaves(p.layout);
    ShownEmpty(Leaves(p.layout));
    if Shown(Leaves(p.layout)) == [] && list != [] {
      SessionEditKeepsFrame(p.layout, e);
      SameFrameTrans(saved.layout, p.layout, SetLeafSession(p.layout, p.focus, Some(list[0].id)));
      MapTreeLeaves(p.layout, e);
    }
  }

  /** init takes each workspace's layout and focus from storage. */
  lemma InitReadsStorage(w: World, init: Step, v: WorkspaceId)
    requires WorldOk(w) && Enabled(w, init) && init.Act? && init.action.DoInit? && v in init.action.workspaces
    ensures var saved, app := SavedFor(LoadLayouts(w.storage), v), Next(w, init).st.app;
      && (saved.Some? ==> Shaped(saved.value.layout))
      && v in app.layouts && v in app.focused && v in init.action.sessions && v in init.action.leafIds
      && Saved(app.layouts[v], app.focused[v])
         == InitWorkspace(saved, init.action.sessions[v], init.action.leafIds[v])
  {
  }

  lemma {:induction false} TwoSteps(w: World, t: Step, u: Step)
    requires WorldOk(w) && ValidRun(w, [t, u])
    ensures Enabled(w, t) && WorldOk(Next(w, t)) && Enabled(Next(w, t), u)
    ensures RunTo(w, [t, u]) == Next(Next(w, t), u)
  {
    StepKeepsWorld(w, t);
    var w1 := Next(w, t);
    assert [t, u][1..] == [u] && [u][1..] == [];
    assert ValidRun(w1, [u]);
    StepKeepsWorld(w1, u);
    assert RunTo(w1, [u]) == RunTo(Next(w1, u), []);
  }

  /** Reload, then init: every workspace that had a layout gets the same tree back, with the same
      ids, sizes and focus, and only the sessions that no longer exist cleared. */
  lemma {:induction false} ReloadRoundTrip(w: World, reload: Step, init: Step, v: WorkspaceId)
    requires WorldOk(w) && v in w.st.app.layouts
    requires reload.Reload? && init.Act? && init.action.DoInit? && v in init.action.workspaces
    requires ValidRun(w, [reload, init])
    ensures var before, after := w.st.app, RunTo(w, [reload, init]).st.app;
      && v in before.focused && v in after.layouts && v in after.focused && v in init.action.sessions
      && after.focused[v] == before.focused[v]
      && SameFrame(before.layouts[v], after.layouts[v])
      && Restored(Leaves(before.layouts[v]), Leaves(after.layouts[v]), init.action.sessions[v], before.focused[v])
  {
    TwoSteps(w, reload, init);
    InitReadsStorage(Next(w, reload), init, v);
    SavedIsOk(w.st.app);
    WorkspaceRestored(Saved(w.st.app.layouts[v], w.st.app.focused[v]), init.action.sessions[v], init.action.leafIds[v]);
  }
}
