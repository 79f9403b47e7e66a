/** The store over time: any sequence of actions and commits, timer callbacks and page reloads,
    with the layout persistence subscriber writing to storage as it goes. */
module StoreRuns {
  import opened Wrappers
  import opened PanelTree
  import opened PanelInvariant
  import opened PanelPersistence
  import opened AppStore
  import opened StoreInvariant
  import Idle = IdleTracker

  datatype Action =
    | DoInit(workspaces: seq<WorkspaceId>, sessions: map<WorkspaceId, seq<Session>>, leafIds: map<WorkspaceId, PanelId>)
    | DoSetWorkspaces(list: seq<WorkspaceId>)
    | DoSetSessions(w: WorkspaceId, listed: seq<Session>)
    | DoCreateWorkspace(w: WorkspaceId, sess: Session, leafId: PanelId)
    | DoDeleteWorkspace(w: WorkspaceId)
    | DoSetActiveWorkspace(w: WorkspaceId, listed: seq<Session>, leafId: PanelId)
    | DoCreateSession(w: WorkspaceId, sess: Session, leafId: PanelId)
    | DoDeleteSession(sid: SessionId)
    | DoSetActiveSession(sid: SessionId)
    | DoOutput(sid: SessionId)
    | DoClearUnread(sid: SessionId)
    | DoClearVisibleUnread
    | DoDismissToast(sid: SessionId, createdAt: nat)
    | DoSplitPanel(panelId: PanelId, dir: Direction, placement: Placement, newLeafId: PanelId, newSplitId: PanelId)
    | DoClosePanel(panelId: PanelId, captured: Option<SessionId>, leafId: PanelId)
    | DoFocusPanel(panelId: PanelId)
    | DoAssignSession(panelId: PanelId, sid: SessionId)
    | DoResizeSplit(splitId: PanelId, sizes: seq<real>)
    | DoShowPage(visible: bool)

  /** `rebuilt` says whether the action rebuilt the layout records although nothing in them changed,
      which resizing a split and deleting a session never do. */
  datatype Step =
    | Act(at: nat, action: Action, rebuilt: bool)
    | Fire(sid: SessionId, owner: Option<WorkspaceId>)
    | Reload(at: nat, visible: bool)

  datatype World = World(st: Store, now: nat, storage: Stored)

  const EmptyApp := App([], map[], None, None, map[], map[], [], map[], map[])

  function Opened(visible: bool): Store {
    Store(EmptyApp, map[], map[], visible)
  }

  /** The ids the panel id generator hands out are new to the layout they go into. */
  ghost predicate Fresh(st: Store, a: Action) {
    a.DoSplitPanel? && LookupLayout(st.app, st.app.activeWorkspace).Some? ==>
      var ids := Ids(LookupLayout(st.app, st.app.activeWorkspace).value);
      a.newLeafId !in ids && a.newSplitId !in ids
  }

  ghost predicate Allowed(w: World, a: Action) {
    && Fresh(w.st, a)
    && (a.DoSplitPanel? ==> a.newLeafId != a.newSplitId)
    && (a.DoInit? ==> a.workspaces != [] && forall v | v in a.workspaces :: v in a.sessions && v in a.leafIds)
  }

  ghost predicate Ready(w: World) {
    && (forall v | v in w.st.app.layouts :: Shaped(w.st.app.layouts[v]))
    && (forall v | v in LoadLayouts(w.storage) :: Shaped(LoadLayouts(w.storage)[v].layout))
  }

  ghost function Perform(w: World, at: nat, a: Action): Store
    requires Allowed(w, a) && Ready(w)
  {
    var st := w.st;
    match a
    case DoInit(ws, sessions, leafIds) => Init(st, ws, sessions, LoadLayouts(w.storage), leafIds)
    case DoSetWorkspaces(ws) => SetWorkspaces(st, ws)
    case DoSetSessions(v, listed) => SetSessions(st, v, listed)
    case DoCreateWorkspace(v, sess, leafId) => CreateWorkspace(st, v, sess, leafId)
    case DoDeleteWorkspace(v) => DeleteWorkspace(st, v)
    case DoSetActiveWorkspace(v, listed, leafId) => SetActiveWorkspace(st, v, listed, leafId)
    case DoCreateSession(v, sess, leafId) => CreateSession(st, v, sess, leafId)
    case DoDeleteSession(sid) => DeleteSession(st, sid)
    case DoSetActiveSession(sid) => SetActiveSession(st, sid)
    case DoOutput(sid) => MarkSessionOutput(st, sid, at)
    case DoClearUnread(sid) => ClearSessionUnread(st, sid)
    case DoClearVisibleUnread => ClearVisibleUnread(st)
    case DoDismissToast(sid, createdAt) => DismissToast(st, sid, createdAt)
    case DoSplitPanel(p, dir, pl, nl, ns) => SplitPanel(st, p, dir, pl, nl, ns)
    case DoClosePanel(p, captured, leafId) => ClosePanel(st, p, captured, leafId)
    case DoFocusPanel(p) => FocusPanel(st, p)
    case DoAssignSession(p, sid) => AssignSession(st, p, sid)
    case DoResizeSplit(s, sizes) => ResizeSplit(st, s, sizes)
    case DoShowPage(visible) => st.(pageVisible := visible)
  }

  // ---------------------------------------------------------------------------------------
  // The persistence subscriber

  /** What wireLayoutPersistence writes for a state. */
  function ToSave(app: App): map<WorkspaceId, Saved>
    requires forall w | w in app.layouts :: Shaped(app.layouts[w])
  {
    map w | w in app.layouts :: Saved(app.layouts[w], SavedFocus(app, w))
  }

  function SavedFocus(app: App, w: WorkspaceId): PanelId
    requires w in app.layouts && Shaped(app.layouts[w])
  {
    ShapedIsInhabited(app.layouts[w]);
    if w in app.focused then app.focused[w] else FirstLeaf(app.layouts[w]).id
  }

  function Persist(storage: Stored, before: App, after: App, rebuilt: bool): Stored
    requires forall w | w in after.layouts :: Shaped(after.layouts[w])
  {
    if before.layouts == after.layouts && before.focused == after.focused && !rebuilt then storage
    else SaveLayouts(ToSave(after))
  }

  // ---------------------------------------------------------------------------------------
  // Steps

  ghost predicate AllAfter(st: Store, at: nat) {
    forall s | s in st.timers :: st.timers[s] > at
  }

  /** A timer fires at its deadline, and before anything else that happens then or later. */
  ghost predicate Enabled(w: World, t: Step) {
    match t
    case Act(at, a, rebuilt) =>
      w.now <= at && AllAfter(w.st, at) && Allowed(w, a) && (rebuilt ==> !a.DoResizeSplit? && !a.DoDeleteSession?)
    case Fire(sid, owner) =>
      && sid in w.st.timers && w.now <= w.st.timers[sid]
      && (forall s | s in w.st.timers :: w.st.timers[sid] <= w.st.timers[s])
      && OwnerOk(w.st.app, sid, owner)
    case Reload(at, _) => w.now <= at
  }

  ghost function Next(w: World, t: Step): World
    requires WorldOk(w) && Enabled(w, t)
  {
    WorldReady(w);
    match t
    case Act(at, a, rebuilt) =>
      PerformKeepsInv(w, at, a);
      var st := Perform(w, at, a);
      LayoutsAreShaped(st.app);
      World(st, at, Persist(w.storage, w.st.app, st.app, rebuilt))
    case Fire(sid, owner) => World(FireTimer(w.st, sid, owner), w.st.timers[sid], w.storage)
    case Reload(at, visible) => World(Opened(visible), at, w.storage)
  }

  // ---------------------------------------------------------------------------------------
  // Invariants of the whole

  /** Everything in storage could have been written by the store. */
  ghost predicate StorageOk(storage: Stored) {
    forall v | v in LoadLayouts(storage) :: TreeOk(LoadLayouts(storage)[v].layout)
  }

  /** Once there are layouts, storage holds exactly them. */
  ghost predicate Synced(w: World)
    requires LayoutsOk(w.st.app)
  {
    w.st.app.layouts == map[] || w.storage == SaveLayouts(ToSave(w.st.app))
  }

  ghost predicate WorldOk(w: World) {
    && Inv(w.st) && StorageOk(w.storage) && Synced(w)
    && forall s | s in w.st.timers :: w.now <= w.st.timers[s]
  }

  lemma WorldReady(w: World)
    requires Inv(w.st) && StorageOk(w.storage)
    ensures Ready(w)
  {
  }

  predicate TouchesPanels(a: Action) {
    a.DoSplitPanel? || a.DoFocusPanel? || a.DoShowPage?
  }

  predicate ReshapesPanels(a: Action) {
    a.DoClosePanel? || a.DoResizeSplit?
  }

  predicate ListsSessions(a: Action) {
    a.DoCreateSession? || a.DoDeleteSession?
  }

  predicate PlacesSessions(a: Action) {
    a.DoSetActiveSession? || a.DoAssignSession?
  }

  predicate MarksSessions(a: Action) {
    a.DoOutput? || a.DoClearUnread? || a.DoClearVisibleUnread? || a.DoDismissToast?
  }

  predicate ForWorkspaces(a: Action) {
    || a.DoInit? || a.DoSetWorkspaces? || a.DoSetSessions?
    || a.DoCreateWorkspace? || a.DoDeleteWorkspace? || a.DoSetActiveWorkspace?
  }

  lemma PerformKeepsInv(w: World, at: nat, a: Action)
    requires Inv(w.st) && StorageOk(w.storage) && Allowed(w, a)
    ensures Ready(w) && Inv(Perform(w, at, a))
  {
    WorldReady(w);
    if TouchesPanels(a) {
      TouchingKeepsInv(w, at, a);
    } else if ReshapesPanels(a) {
      ReshapingKeepsInv(w, at, a);
    } else if ListsSessions(a) {
      ListingKeepsInv(w, at, a);
    } else if PlacesSessions(a) {
      PlacingKeepsInv(w, at, a);
    } else if MarksSessions(a) {
      MarkingKeepsInv(w, at, a);
    } else {
      WorkspaceActionKeepsInv(w, at, a);
    }
  }

  lemma TouchingKeepsInv(w: World, at: nat, a: Action)
    requires Inv(w.st) && Ready(w) && Allowed(w, a) && TouchesPanels(a)
    ensures Inv(Perform(w, at, a))
  {
    match a
    case DoSplitPanel(p, dir, pl, nl, ns) =>
      assert Perform(w, at, a) == SplitPanel(w.st, p, dir, pl, nl, ns);
      SplitPanelKeepsInv(w.st, p, dir, pl, nl, ns);
    case DoFocusPanel(p) =>
      assert Perform(w, at, a) == FocusPanel(w.st, p);
      FocusPanelKeepsInv(w.st, p);
    case DoShowPage(_) =>
  }

  lemma ReshapingKeepsInv(w: World, at: nat, a: Action)
    requires Inv(w.st) && Ready(w) && Allowed(w, a) && ReshapesPanels(a)
    ensures Inv(Perform(w, at, a))
  {
    match a
    case DoClosePanel(p, captured, leafId) =>
      assert Perform(w, at, a) == ClosePanel(w.st, p, captured, leafId);
      ClosePanelKeepsInv(w.st, p, captured, leafId);
    case DoResizeSplit(s, sizes) =>
      assert Perform(w, at, a) == ResizeSplit(w.st, s, sizes);
      ResizeKeepsInv(w.st, s, sizes);
  }

  lemma ListingKeepsInv(w: World, at: nat, a: Action)
    requires Inv(w.st) && Ready(w) && Allowed(w, a) && ListsSessions(a)
    ensures Inv(Perform(w, at, a))
  {
    match a
    case DoCreateSession(v, sess, leafId) =>
      assert Perform(w, at, a) == CreateSession(w.st, v, sess, leafId);
      CreateSessionKeepsInv(w.st, v, sess, leafId);
    case DoDeleteSession(sid) =>
      assert Perform(w, at, a) == DeleteSession(w.st, sid);
      DeleteSessionKeepsInv(w.st, sid);
  }

  lemma PlacingKeepsInv(w: World, at: nat, a: Action)
    requires Inv(w.st) && Ready(w) && Allowed(w, a) && PlacesSessions(a)
    ensures Inv(Perform(w, at, a))
  {
    match a
    case DoSetActiveSession(sid) =>
      assert Perform(w, at, a) == SetActiveSession(w.st, sid);
      SetActiveSessionKeepsInv(w.st, sid);
    case DoAssignSession(p, sid) =>
      assert Perform(w, at, a) == AssignSession(w.st, p, sid);
      AssignSessionKeepsInv(w.st, p, sid);
  }

  lemma MarkingKeepsInv(w: World, at: nat, a: Action)
    requires Inv(w.st) && Ready(w) && Allowed(w, a) && MarksSessions(a)
    ensures Inv(Perform(w, at, a))
  {
    var st := w.st;
    match a
    case DoOutput(sid) => OutputKeepsInv(st, sid, at);
    case DoClearUnread(sid) => ReadingKeepsInv(st, {sid});
    case DoClearVisibleUnread => ReadingKeepsInv(st, VisibleSessions(st.app));
    case DoDismissToast(sid, createdAt) => DismissKeepsInv(st, sid, createdAt);
  }

  lemma WorkspaceActionKeepsInv(w: World, at: nat, a: Action)
    requires Inv(w.st) && Ready(w) && StorageOk(w.storage) && Allowed(w, a)
    requires ForWorkspaces(a)
    ensures Inv(Perform(w, at, a))
  {
    var st := w.st;
    match a
    case DoInit(ws, sessions, leafIds) => InitKeepsInv(st, ws, sessions, LoadLayouts(w.storage), leafIds);
    case DoSetWorkspaces(_) =>
    case DoSetSessions(_, _) =>
    case DoCreateWorkspace(v, sess, leafId) => CreateWorkspaceKeepsInv(st, v, sess, leafId);
    case DoDeleteWorkspace(v) => DeleteWorkspaceKeepsInv(st, v);
    case DoSetActiveWorkspace(v, listed, leafId) => SetActiveWorkspaceKeepsInv(st, v, listed, leafId);
  }

  /** What is saved is read back whole, and is well-formed. */
  lemma SavedIsOk(app: App)
    requires LayoutsOk(app)
    ensures LoadLayouts(SaveLayouts(ToSave(app))) == ToSave(app)
    ensures StorageOk(SaveLayouts(ToSave(app)))
  {
    LayoutsAreShaped(app);
    LoadAfterSave(ToSave(app));
  }

  /** Whatever the timers were, an action starts none that is already due. */
  lemma PerformKeepsTimersLate(w: World, at: nat, a: Action)
    requires Ready(w) && Allowed(w, a) && AllAfter(w.st, at)
    ensures AllAfter(Perform(w, at, a), at)
  {
    if a.DoSetActiveSession? {
      ActivatedTracks(w.st, a.sid);
    } else if ListsSessions(a) || PlacesSessions(a) {
      SessionsKeepTimersLate(w, at, a);
    } else if ForWorkspaces(a) {
      WorkspacesKeepTimersLate(w, at, a);
    }
  }

  lemma SessionsKeepTimersLate(w: World, at: nat, a: Action)
    requires Ready(w) && Allowed(w, a) && AllAfter(w.st, at) && (ListsSessions(a) || a.DoAssignSession?)
    ensures AllAfter(Perform(w, at, a), at)
  {
  }

  lemma WorkspacesKeepTimersLate(w: World, at: nat, a: Action)
    requires Ready(w) && Allowed(w, a) && AllAfter(w.st, at) && ForWorkspaces(a)
    ensures AllAfter(Perform(w, at, a), at)
  {
  }

  /** After an action storage is either untouched, with the layouts, or holds the new layouts. */
  lemma PersistKeepsSynced(before: World, after: World, rebuilt: bool)
    requires LayoutsOk(before.st.app) && LayoutsOk(after.st.app) && Synced(before) && StorageOk(before.storage)
    requires forall w | w in after.st.app.layouts :: Shaped(after.st.app.layouts[w])
    requires after.storage == Persist(before.storage, before.st.app, after.st.app, rebuilt)
    ensures Synced(after) && StorageOk(after.storage)
  {
    if before.st.app.layouts == after.st.app.layouts && before.st.app.focused == after.st.app.focused && !rebuilt {
      SameToSave(before.st.app, after.st.app);
    } else {
      SavedIsOk(after.st.app);
    }
  }

  lemma SameToSave(a: App, b: App)
    requires a.layouts == b.layouts && a.focused == b.focused
    requires forall w | w in a.layouts :: Shaped(a.layouts[w])
    ensures ToSave(a) == ToSave(b)
  {
  }

  lemma ActKeepsWorld(w: World, at: nat, a: Action, rebuilt: bool)
    requires WorldOk(w) && Enabled(w, Act(at, a, rebuilt))
    ensures WorldOk(Next(w, Act(at, a, rebuilt)))
  {
    PerformKeepsInv(w, at, a);
    PerformKeepsTimersLate(w, at, a);
    LayoutsAreShaped(Perform(w, at, a).app);
    PersistKeepsSynced(w, Next(w, Act(at, a, rebuilt)), rebuilt);
  }

  lemma FireKeepsLayouts(st: Store, sid: SessionId, owner: Option<WorkspaceId>)
    ensures FireTimer(st, sid, owner).app.layouts == st.app.layouts
    ensures FireTimer(st, sid, owner).app.focused == st.app.focused
    ensures FireTimer(st, sid, owner).timers == st.timers - {sid}
  {
  }

  lemma FireStepKeepsWorld(w: World, sid: SessionId, owner: Option<WorkspaceId>)
    requires WorldOk(w) && Enabled(w, Fire(sid, owner))
    ensures WorldOk(Next(w, Fire(sid, owner)))
  {
    FireKeepsInv(w.st, sid, owner);
    FireKeepsLayouts(w.st, sid, owner);
    SameToSave(w.st.app, FireTimer(w.st, sid, owner).app);
  }

  lemma StepKeepsWorld(w: World, t: Step)
    requires WorldOk(w) && Enabled(w, t)
    ensures WorldOk(Next(w, t))
  {
    match t
    case Act(at, a, rebuilt) => ActKeepsWorld(w, at, a, rebuilt);
    case Fire(sid, owner) => FireStepKeepsWorld(w, sid, owner);
    case Reload(at, visible) =>
  }

  ghost predicate ValidRun(w: World, run: seq<Step>)
    requires WorldOk(w)
    decreases |run|
  {
    run == [] || (Enabled(w, run[0]) && (StepKeepsWorld(w, run[0]); ValidRun(Next(w, run[0]), run[1..])))
  }

  ghost function RunTo(w: World, run: seq<Step>): World
    requires WorldOk(w) && ValidRun(w, run)
    decreases |run|
  {
    if run == [] then w else StepKeepsWorld(w, run[0]); RunTo(Next(w, run[0]), run[1..])
  }

  function Begin(visible: bool): World {
    World(Opened(visible), 0, Nothing)
  }

  lemma BeginOk(visible: bool)
    ensures WorldOk(Begin(visible))
  {
  }

  /** Over every run, through reloads and whatever order the commits arrive in: layouts are
      well-formed with an existing focus, the active session is the focused leaf's, the toast and
      timer rules hold, and storage holds the current layouts. */
  lemma {:induction false} RunKeepsWorld(w: World, run: seq<Step>)
    requires WorldOk(w) && ValidRun(w, run)
    ensures WorldOk(RunTo(w, run))
    decreases |run|
  {
    if run != [] {
      StepKeepsWorld(w, run[0]);
      RunKeepsWorld(Next(w, run[0]), run[1..]);
    }
  }
}
