/** The application store's layout, activity and toast state, and its actions.

    An action is a function from the store's state to the next: the callback given to `set`,
    together with what the action does to the idle tracking on the way.  Actions that await the
    server first are represented by the commit that follows the answer; it runs on whatever
    the state has become by then, and whatever was read before the await is a parameter. */
module AppStore {
  import opened Wrappers
  import opened PanelTree
  import opened PanelEdit
  import opened PanelRestructure
  import opened PanelInvariant
  import opened PanelPersistence
  import Idle = IdleTracker

  const MAX_TOASTS: nat := 5

  datatype Session = Session(id: SessionId, title: string)

  datatype Activity = Activity(unread: bool, lastOutputAt: nat, notifiedAt: nat)

  /** A toast is identified by its session and the time of the output that caused it. */
  datatype Toast = Toast(sessionId: SessionId, createdAt: nat, workspaceId: WorkspaceId, sessionTitle: string)

  datatype App = App(
    workspaces: seq<WorkspaceId>,
    sessions: map<WorkspaceId, seq<Session>>,
    activeWorkspace: Option<WorkspaceId>,
    activeSession: Option<SessionId>,
    activeByWorkspace: map<WorkspaceId, SessionId>,
    activity: map<SessionId, Activity>,
    toasts: seq<Toast>,
    layouts: map<WorkspaceId, PanelNode>,
    focused: map<WorkspaceId, PanelId>)

  /** The store, the idle tracker's two maps, and the page's visibility. */
  datatype Store = Store(app: App, busy: map<SessionId, Idle.Track>, timers: map<SessionId, nat>, pageVisible: bool)

  // ---------------------------------------------------------------------------------------
  // Shared pieces

  /** cancelIdleTracking */
  function Cancel(st: Store, sids: set<SessionId>): Store {
    st.(busy := st.busy - sids, timers := st.timers - sids)
  }

  function IdsIn(list: seq<Session>): set<SessionId> {
    set i | 0 <= i < |list| :: list[i].id
  }

  /** The toasts of no session in `sids`, in order. */
  function DropToasts(toasts: seq<Toast>, sids: set<SessionId>): seq<Toast> {
    if toasts == [] then []
    else (if toasts[0].sessionId in sids then [] else [toasts[0]]) + DropToasts(toasts[1..], sids)
  }

  /** Marks sessions read; those that are not unread keep their record as it is. */
  function MarkRead(activity: map<SessionId, Activity>, sids: set<SessionId>): map<SessionId, Activity> {
    map s | s in activity :: if s in sids then activity[s].(unread := false) else activity[s]
  }

  /** The sessions read by looking at them: unread flag and toasts go together. */
  function Read(app: App, sids: set<SessionId>): App {
    app.(activity := MarkRead(app.activity, sids), toasts := DropToasts(app.toasts, sids))
  }

  /** The sessions forgotten altogether. */
  function Forget(app: App, sids: set<SessionId>): App {
    app.(activity := app.activity - sids, toasts := DropToasts(app.toasts, sids))
  }

  function OptSet(o: Option<SessionId>): set<SessionId> {
    if o.Some? then {o.value} else {}
  }

  function LookupLayout(app: App, w: Option<WorkspaceId>): Option<PanelNode> {
    if w.Some? && w.value in app.layouts then Some(app.layouts[w.value]) else None
  }

  /** deriveActiveSession */
  function DeriveActive(app: App, w: WorkspaceId): Option<SessionId> {
    if w in app.layouts && w in app.focused then Derive(app.layouts[w], app.focused[w]) else None
  }

  /** isSessionVisibleInActiveWorkspace */
  predicate VisibleInActive(app: App, sid: SessionId) {
    match app.activeWorkspace
    case None => false
    case Some(w) =>
      if w in app.layouts then FindLeafBySession(app.layouts[w], sid).Some?
      else app.activeSession == Some(sid)
  }

  predicate Foreground(st: Store, sid: SessionId) {
    VisibleInActive(st.app, sid) && st.pageVisible
  }

  function WithLayout(app: App, w: WorkspaceId, layout: PanelNode, focus: PanelId): App {
    app.(layouts := app.layouts[w := layout], focused := app.focused[w := focus])
  }

  function RemoveSession(list: seq<Session>, sid: SessionId): seq<Session> {
    if list == [] then []
    else (if list[0].id == sid then [] else [list[0]]) + RemoveSession(list[1..], sid)
  }

  function SessionsOf(app: App, w: WorkspaceId): seq<Session> {
    if w in app.sessions then app.sessions[w] else []
  }

  function FirstId(list: seq<Session>): Option<SessionId> {
    if list == [] then None else Some(list[0].id)
  }

  /** The focused leaf if it exists, else the first. */
  function TargetLeaf(layout: PanelNode, focus: Option<PanelId>): PanelId
    requires Shaped(layout)
  {
    ShapedIsInhabited(layout);
    if focus.Some? && HasLeaf(layout, focus.value) then focus.value else FirstLeaf(layout).id
  }

  function FocusOf(app: App, w: WorkspaceId): Option<PanelId> {
    if w in app.focused then Some(app.focused[w]) else None
  }

  // ---------------------------------------------------------------------------------------
  // init and the workspace actions

  /** One round of init's loop: the layout and focus a workspace starts with. */
  function InitWorkspace(saved: Option<Saved>, list: seq<Session>, leafId: PanelId): Saved
    requires saved.Some? ==> Shaped(saved.value.layout)
  {
    match saved
    case None => Saved(Leaf(leafId, FirstId(list)), leafId)
    case Some(s) =>
      var r := Reconcile(s, IdsIn(list));
      LeavesAreLeaves(r.layout);
      if Shown(Leaves(r.layout)) == [] && list != []
      then Saved(SetLeafSession(r.layout, r.focus, Some(list[0].id)), r.focus)
      else r
  }

  function SavedFor(saved: map<WorkspaceId, Saved>, w: WorkspaceId): Option<Saved> {
    if w in saved then Some(saved[w]) else None
  }

  function Init(st: Store, workspaces: seq<WorkspaceId>, sessions: map<WorkspaceId, seq<Session>>,
                saved: map<WorkspaceId, Saved>, leafIds: map<WorkspaceId, PanelId>): Store
    requires workspaces != []
    requires forall w | w in workspaces :: w in sessions && w in leafIds
    requires forall w | w in saved :: Shaped(saved[w].layout)
  {
    var start := map w | w in workspaces :: InitWorkspace(SavedFor(saved, w), sessions[w], leafIds[w]);
    var app := st.app.(workspaces := workspaces, sessions := sessions, activeWorkspace := Some(workspaces[0]),
                       activeByWorkspace := map w | w in workspaces && sessions[w] != [] :: sessions[w][0].id,
                       layouts := map w | w in start :: start[w].layout,
                       focused := map w | w in start :: start[w].focus);
    st.(app := app.(activeSession := DeriveActive(app, workspaces[0])))
  }

  function CreateWorkspace(st: Store, w: WorkspaceId, sess: Session, leafId: PanelId): Store {
    var app := st.app;
    st.(app := WithLayout(app, w, Leaf(leafId, Some(sess.id)), leafId).(
      workspaces := app.workspaces + [w], sessions := app.sessions[w := [sess]],
      activeWorkspace := Some(w), activeSession := Some(sess.id),
      activeByWorkspace := app.activeByWorkspace[w := sess.id]))
  }

  function RemoveWorkspace(ws: seq<WorkspaceId>, w: WorkspaceId): seq<WorkspaceId> {
    if ws == [] then [] else (if ws[0] == w then [] else [ws[0]]) + RemoveWorkspace(ws[1..], w)
  }

  function DeleteWorkspace(st: Store, w: WorkspaceId): Store {
    var gone := IdsIn(SessionsOf(st.app, w));
    var ws := RemoveWorkspace(st.app.workspaces, w);
    var next := if ws == [] then None else Some(ws[0]);
    var app := Forget(st.app, gone).(
      workspaces := ws, sessions := st.app.sessions - {w}, activeWorkspace := next,
      activeByWorkspace := st.app.activeByWorkspace - {w},
      layouts := st.app.layouts - {w}, focused := st.app.focused - {w});
    Cancel(st, gone).(app := app.(activeSession := if next.Some? then DeriveActive(app, next.value) else None))
  }

  /** The last active session of a workspace, if there is one to note. */
  function Noted(activeByWorkspace: map<WorkspaceId, SessionId>, w: WorkspaceId, active: Option<SessionId>)
    : map<WorkspaceId, SessionId>
  {
    if active.Some? then activeByWorkspace[w := active.value] else activeByWorkspace
  }

  /** `listed` is the session list read before the await, or fetched by it. */
  function SetActiveWorkspace(st: Store, w: WorkspaceId, listed: seq<Session>, leafId: PanelId): Store {
    var app := st.app.(sessions := st.app.sessions[w := listed], activeWorkspace := Some(w));
    var app := if w in app.layouts then app else WithLayout(app, w, Leaf(leafId, FirstId(listed)), leafId);
    var active := DeriveActive(app, w);
    var app := app.(activeSession := active,
                    activeByWorkspace := Noted(app.activeByWorkspace, w, active));
    Cancel(st, OptSet(active)).(app := Read(app, OptSet(active)))
  }

  /** fetchSessions, pollActive and renameSession only replace a session list. */
  function SetSessions(st: Store, w: WorkspaceId, list: seq<Session>): Store {
    st.(app := st.app.(sessions := st.app.sessions[w := list]))
  }

  /** fetchWorkspaces and renameWorkspace only replace the workspace list. */
  function SetWorkspaces(st: Store, ws: seq<WorkspaceId>): Store {
    st.(app := st.app.(workspaces := ws))
  }

  // ---------------------------------------------------------------------------------------
  // Session actions

  function CreateSession(st: Store, w: WorkspaceId, sess: Session, leafId: PanelId): Store
    requires w in st.app.layouts ==> Shaped(st.app.layouts[w])
  {
    var app := st.app.(sessions := st.app.sessions[w := SessionsOf(st.app, w) + [sess]],
                       activeSession :=
                         if st.app.activeWorkspace == Some(w) then Some(sess.id) else st.app.activeSession,
                       activeByWorkspace := st.app.activeByWorkspace[w := sess.id]);
    if w !in app.layouts then st.(app := WithLayout(app, w, Leaf(leafId, Some(sess.id)), leafId))
    else
      var target := TargetLeaf(app.layouts[w], FocusOf(app, w));
      st.(app := WithLayout(app, w, MoveSession(app.layouts[w], target, sess.id), target))
  }

  /** The session taken out of every layout. */
  function DetachEverywhere(layouts: map<WorkspaceId, PanelNode>, sid: SessionId): map<WorkspaceId, PanelNode> {
    map w | w in layouts :: DetachSession(layouts[w], sid)
  }

  /** If the focused leaf is left empty and sessions remain, the next one goes there. */
  function Refill(layout: PanelNode, focus: Option<PanelId>, remaining: seq<Session>): PanelNode {
    if focus.Some? && HasLeaf(layout, focus.value) && Derive(layout, focus.value).None? && remaining != []
    then MoveSession(layout, focus.value, remaining[0].id)
    else layout
  }

  /** activeSessionByWorkspace after `sid` is gone from `w`. */
  function NextActive(active: map<WorkspaceId, SessionId>, w: WorkspaceId, sid: SessionId,
                      remaining: seq<Session>): map<WorkspaceId, SessionId> {
    if w !in active || active[w] != sid then active
    else if remaining != [] then active[w := remaining[0].id]
    else active - {w}
  }

  function DeleteSession(st: Store, sid: SessionId): Store {
    match st.app.activeWorkspace
    case None => Cancel(st, {sid})
    case Some(w) => Cancel(st, {sid}).(app := TakeOut(Forget(st.app, {sid}), w, sid))
  }

  /** The session leaves the list of `w` and every layout. */
  function TakeOut(app: App, w: WorkspaceId, sid: SessionId): (r: App)
    ensures r == app.(sessions := r.sessions, layouts := r.layouts, activeByWorkspace := r.activeByWorkspace,
                      activeSession := r.activeSession)
  {
    var remaining := RemoveSession(SessionsOf(app, w), sid);
    var layouts := DetachEverywhere(app.layouts, sid);
    var layouts := if w in layouts then layouts[w := Refill(layouts[w], FocusOf(app, w), remaining)] else layouts;
    var r := app.(sessions := app.sessions[w := remaining], layouts := layouts,
                  activeByWorkspace := NextActive(app.activeByWorkspace, w, sid, remaining));
    r.(activeSession :=
      if w in layouts then DeriveActive(r, w)
      else if app.activeSession == Some(sid) then FirstId(remaining)
      else app.activeSession)
  }

  function SetActiveSession(st: Store, sid: SessionId): Store
    requires forall w | w in st.app.layouts :: Shaped(st.app.layouts[w])
  {
    Cancel(st, {sid}).(app := Activate(Read(st.app, {sid}), sid))
  }

  function Activate(app: App, sid: SessionId): (r: App)
    requires forall w | w in app.layouts :: Shaped(app.layouts[w])
    ensures r == app.(layouts := r.layouts, focused := r.focused, activeSession := r.activeSession,
                      activeByWorkspace := r.activeByWorkspace)
  {
    match app.activeWorkspace
    case None => app.(activeSession := Some(sid))
    case Some(w) =>
      var app := app.(activeByWorkspace := app.activeByWorkspace[w := sid]);
      if w !in app.layouts then app.(activeSession := Some(sid))
      else
        var app := Show(app, w, sid);
        app.(activeSession := DeriveActive(app, w))
  }

  /** The leaf that shows the session is focused; if none does, the session goes into the focused leaf. */
  function Show(app: App, w: WorkspaceId, sid: SessionId): (shown: App)
    requires w in app.layouts && Shaped(app.layouts[w])
    ensures shown == app.(layouts := shown.layouts, focused := shown.focused)
  {
    var layout := app.layouts[w];
    var existing := FindLeafBySession(layout, sid);
    if existing.Some? then WithLayout(app, w, layout, existing.value.id)
    else
      var target := TargetLeaf(layout, FocusOf(app, w));
      WithLayout(app, w, MoveSession(layout, target, sid), target)
  }

  // ---------------------------------------------------------------------------------------
  // Output, unread marks and toasts

  function MarkSessionOutput(st: Store, sid: SessionId, now: nat): Store {
    if Foreground(st, sid) then Cancel(st, {sid})
    else
      var started := if sid in st.busy then st.busy[sid].startedAt else now;
      st.(busy := st.busy[sid := Idle.Track(started, now)], timers := st.timers[sid := now + Idle.IDLE_MS])
  }

  function HasId(list: seq<Session>, sid: SessionId): bool {
    exists i | 0 <= i < |list| :: list[i].id == sid
  }

  function TitleIn(list: seq<Session>, sid: SessionId): string {
    if list == [] then "" else if list[0].id == sid then list[0].title else TitleIn(list[1..], sid)
  }

  /** The workspace found first to list the session, if any does. */
  predicate OwnerOk(app: App, sid: SessionId, owner: Option<WorkspaceId>) {
    match owner
    case None => forall w | w in app.sessions :: !HasId(app.sessions[w], sid)
    case Some(w) => w in app.sessions && HasId(app.sessions[w], sid)
  }

  /** slice(-n) */
  function LastN(toasts: seq<Toast>, n: nat): seq<Toast> {
    if |toasts| <= n then toasts else toasts[|toasts| - n..]
  }

  /** The state update of a timer callback that has something to report. */
  function Notify(app: App, sid: SessionId, at: nat, owner: Option<WorkspaceId>): App {
    if sid in app.activity && app.activity[sid].unread then app
    else
      var app := app.(activity := app.activity[sid := Activity(true, at, at)]);
      match owner
      case None => app
      case Some(w) =>
        var toast := Toast(sid, at, w, TitleIn(SessionsOf(app, w), sid));
        app.(toasts := LastN(DropToasts(app.toasts, {sid}) + [toast], MAX_TOASTS))
  }

  /** The timer callback. */
  function FireTimer(st: Store, sid: SessionId, owner: Option<WorkspaceId>): Store {
    var st' := Cancel(st, {sid});
    if sid !in st.busy then st'
    else
      var t := st.busy[sid];
      if t.lastByteAt - t.startedAt < Idle.MIN_BUSY_MS || Foreground(st, sid) then st'
      else st'.(app := Notify(st.app, sid, t.lastByteAt, owner))
  }

  function ClearSessionUnread(st: Store, sid: SessionId): Store {
    Cancel(st, {sid}).(app := Read(st.app, {sid}))
  }

  function ToSet(s: seq<SessionId>): set<SessionId> {
    set i | 0 <= i < |s| :: s[i]
  }

  /** The sessions rendered in the active workspace. */
  function VisibleSessions(app: App): set<SessionId> {
    match app.activeWorkspace
    case None => {}
    case Some(w) =>
      if w in app.layouts then LeavesAreLeaves(app.layouts[w]); ToSet(Shown(Leaves(app.layouts[w])))
      else OptSet(app.activeSession)
  }

  function ClearVisibleUnread(st: Store): Store {
    var sids := VisibleSessions(st.app);
    Cancel(st, sids).(app := Read(st.app, sids))
  }

  function DropToast(toasts: seq<Toast>, sid: SessionId, at: nat): seq<Toast> {
    if toasts == [] then []
    else
      var rest := DropToast(toasts[1..], sid, at);
      if toasts[0].sessionId == sid && toasts[0].createdAt == at then rest else [toasts[0]] + rest
  }

  function DismissToast(st: Store, sid: SessionId, at: nat): Store {
    st.(app := st.app.(toasts := DropToast(st.app.toasts, sid, at)))
  }

  // ---------------------------------------------------------------------------------------
  // Panel actions

  function SplitPanel(st: Store, panelId: PanelId, dir: Direction, placement: Placement,
                      newLeafId: PanelId, newSplitId: PanelId): Store
  {
    match LookupLayout(st.app, st.app.activeWorkspace)
    case None => st
    case Some(layout) =>
      match SplitLeaf(layout, panelId, dir, placement, newLeafId, newSplitId)
      case None => st
      case Some(r) =>
        var w := st.app.activeWorkspace.value;
        st.(app := WithLayout(st.app, w, r.root, r.newLeafId).(activeSession := Derive(r.root, r.newLeafId)))
  }

  /** `captured` is the session the closed leaf showed before the await. */
  function ClosePanel(st: Store, panelId: PanelId, captured: Option<SessionId>, leafId: PanelId): Store
    requires forall w | w in st.app.layouts :: Shaped(st.app.layouts[w])
  {
    var st := Cancel(st, OptSet(captured));
    match LookupLayout(st.app, st.app.activeWorkspace)
    case None => st
    case Some(old_) =>
      var w := st.app.activeWorkspace.value;
      var reduced := RemoveLeaf(old_, panelId);
      var layout := if reduced.Some? then reduced.value else Leaf(leafId, None);
      ClosedIsInhabited(old_, panelId, leafId);
      var oldFocus := FocusOf(st.app, w);
      var focus := if oldFocus.Some? && oldFocus.value != panelId && HasLeaf(layout, oldFocus.value)
                   then oldFocus.value else FirstLeaf(layout).id;
      var app := match captured
        case None => st.app
        case Some(sid) =>
          var remaining := RemoveSession(SessionsOf(st.app, w), sid);
          Forget(st.app, {sid}).(sessions := st.app.sessions[w := remaining],
                                 activeByWorkspace := NextActive(st.app.activeByWorkspace, w, sid, remaining));
      st.(app := WithLayout(app, w, layout, focus).(activeSession := Derive(layout, focus)))
  }

  lemma {:induction false} ClosedIsInhabited(old_: PanelNode, panelId: PanelId, leafId: PanelId)
    requires Shaped(old_)
    ensures var reduced := RemoveLeaf(old_, panelId);
      var layout := if reduced.Some? then reduced.value else Leaf(leafId, None);
      Shaped(layout) && Inhabited(layout)
  {
    RemoveLeafWellSized(old_, panelId);
    if RemoveLeaf(old_, panelId).Some? {
      WellSizedIsShaped(RemoveLeaf(old_, panelId).value);
      ShapedIsInhabited(RemoveLeaf(old_, panelId).value);
    }
  }

  function FocusPanel(st: Store, panelId: PanelId): Store {
    match LookupLayout(st.app, st.app.activeWorkspace)
    case None => st
    case Some(layout) =>
      var w := st.app.activeWorkspace.value;
      if FocusOf(st.app, w) == Some(panelId) || !HasLeaf(layout, panelId) then st
      else
        var active := Derive(layout, panelId);
        var app := Read(st.app, OptSet(active)).(
          focused := st.app.focused[w := panelId], activeSession := active,
          activeByWorkspace := Noted(st.app.activeByWorkspace, w, active));
        Cancel(st, OptSet(active)).(app := app)
  }

  function AssignSession(st: Store, panelId: PanelId, sid: SessionId): Store {
    match LookupLayout(st.app, st.app.activeWorkspace)
    case None => Cancel(st, {sid})
    case Some(layout) =>
      if !HasLeaf(layout, panelId) then Cancel(st, {sid})
      else Cancel(st, {sid}).(app := Assign(Read(st.app, {sid}), st.app.activeWorkspace.value, layout, panelId, sid))
  }

  function Assign(app: App, w: WorkspaceId, layout: PanelNode, panelId: PanelId, sid: SessionId): (r: App)
    ensures r == app.(layouts := r.layouts, focused := r.focused, activeSession := r.activeSession,
                      activeByWorkspace := r.activeByWorkspace)
  {
    var layout := MoveSession(layout, panelId, sid);
    WithLayout(app, w, layout, panelId).(activeSession := Derive(layout, panelId),
                                         activeByWorkspace := app.activeByWorkspace[w := sid])
  }

  function ResizeSplit(st: Store, splitId: PanelId, sizes: seq<real>): Store {
    match LookupLayout(st.app, st.app.activeWorkspace)
    case None => st
    case Some(layout) =>
      var w := st.app.activeWorkspace.value;
      st.(app := st.app.(layouts := st.app.layouts[w := SetSplitSizes(layout, splitId, sizes)]))
  }
}
