/** The records around the layouts: for each action, which lists, notes and marks it changes, to what,
    and that it changes no other.  With `StoreEffects` this determines the whole new state. */
module StoreRecords {
  import opened Wrappers
  import opened Lists
  import opened PanelTree
  import opened PanelRestructure
  import opened PanelSplit
  import opened PanelFrames
  import opened PanelInvariant
  import opened PanelPersistence
  import opened AppStore
  import opened StoreInvariant
  import opened StoreEffects
  import Idle = IdleTracker

  // ---------------------------------------------------------------------------------------
  // Filters

  function OtherSession(sid: SessionId): Session -> bool {
    (s: Session) => s.id != sid
  }

  function OtherWorkspace(w: WorkspaceId): WorkspaceId -> bool {
    (v: WorkspaceId) => v != w
  }

  function OfOthers(sids: set<SessionId>): Toast -> bool {
    (t: Toast) => t.sessionId !in sids
  }

  function OtherToast(sid: SessionId, at: nat): Toast -> bool {
    (t: Toast) => !(t.sessionId == sid && t.createdAt == at)
  }

  lemma {:induction false} RemoveSessionSelects(list: seq<Session>, sid: SessionId)
    ensures Selected(list, RemoveSession(list, sid), OtherSession(sid))
  {
    if list == [] {
      SelectedNil(OtherSession(sid));
    } else {
      RemoveSessionSelects(list[1..], sid);
      SelectedCons(list, RemoveSession(list[1..], sid), OtherSession(sid));
    }
  }

  lemma {:induction false} RemoveWorkspaceSelects(ws: seq<WorkspaceId>, w: WorkspaceId)
    ensures Selected(ws, RemoveWorkspace(ws, w), OtherWorkspace(w))
  {
    if ws == [] {
      SelectedNil(OtherWorkspace(w));
    } else {
      RemoveWorkspaceSelects(ws[1..], w);
      SelectedCons(ws, RemoveWorkspace(ws[1..], w), OtherWorkspace(w));
    }
  }

  lemma {:induction false} DropToastsSelects(toasts: seq<Toast>, sids: set<SessionId>)
    ensures Selected(toasts, DropToasts(toasts, sids), OfOthers(sids))
  {
    if toasts == [] {
      SelectedNil(OfOthers(sids));
    } else {
      DropToastsSelects(toasts[1..], sids);
      SelectedCons(toasts, DropToasts(toasts[1..], sids), OfOthers(sids));
    }
  }

  lemma {:induction false} DropToastSelects(toasts: seq<Toast>, sid: SessionId, at: nat)
    ensures Selected(toasts, DropToast(toasts, sid, at), OtherToast(sid, at))
  {
    if toasts == [] {
      SelectedNil(OtherToast(sid, at));
    } else {
      var rest := DropToast(toasts[1..], sid, at);
      DropToastSelects(toasts[1..], sid, at);
      SelectedCons(toasts, rest, OtherToast(sid, at));
      assert [] + rest == rest;
    }
  }

  // ---------------------------------------------------------------------------------------
  // What may change

  /** The session list of `w` is now `list`, and no other list changed. */
  ghost predicate ListIs(a: App, b: App, w: WorkspaceId, list: seq<Session>) {
    && b.sessions.Keys == a.sessions.Keys + {w} && b.sessions[w] == list
    && forall v | v in a.sessions && v != w :: b.sessions[v] == a.sessions[v]
  }

  /** The session last active in a workspace, if one is noted. */
  function NoteOf(app: App, w: WorkspaceId): Option<SessionId> {
    if w in app.activeByWorkspace then Some(app.activeByWorkspace[w]) else None
  }

  ghost predicate NoteIs(a: App, b: App, w: WorkspaceId, note: Option<SessionId>) {
    forall v :: NoteOf(b, v) == if v == w then note else NoteOf(a, v)
  }

  /** A note of a session that is gone passes to the first one left. */
  function PassedOn(note: Option<SessionId>, sid: SessionId, remaining: seq<Session>): Option<SessionId> {
    if note != Some(sid) then note else if remaining == [] then None else Some(remaining[0].id)
  }

  ghost predicate SameLists(a: App, b: App) {
    b.workspaces == a.workspaces && b.sessions == a.sessions
  }

  /** What is on screen: the workspace, its layout and focus, and all others. */
  ghost predicate SameScreen(a: App, b: App) {
    && b.activeWorkspace == a.activeWorkspace && b.activeSession == a.activeSession
    && b.layouts == a.layouts && b.focused == a.focused
  }

  /** Tracking has stopped for `sids` and goes on for all others. */
  ghost predicate Cancelled(a: Store, b: Store, sids: set<SessionId>) {
    b.busy == a.busy - sids && b.timers == a.timers - sids && b.pageVisible == a.pageVisible
  }

  ghost predicate NoMarksChange(a: Store, b: Store) {
    b.app.activity == a.app.activity && b.app.toasts == a.app.toasts && Cancelled(a, b, {})
  }

  /** The sessions are read: their records say so and keep the rest, their toasts are gone, and what
      is left of the toasts keeps its order. */
  ghost predicate MarkedRead(a: Store, b: Store, sids: set<SessionId>) {
    && b.app.activity.Keys == a.app.activity.Keys
    && (forall s | s in a.app.activity ::
          b.app.activity[s] == if s in sids then a.app.activity[s].(unread := false) else a.app.activity[s])
    && Selected(a.app.toasts, b.app.toasts, OfOthers(sids)) && Cancelled(a, b, sids)
  }

  /** Nothing is remembered of the sessions. */
  ghost predicate Forgotten(a: Store, b: Store, sids: set<SessionId>) {
    && b.app.activity == a.app.activity - sids
    && Selected(a.app.toasts, b.app.toasts, OfOthers(sids)) && Cancelled(a, b, sids)
  }

  lemma ListSet(a: App, b: App, w: WorkspaceId, list: seq<Session>)
    requires b.sessions == a.sessions[w := list]
    ensures ListIs(a, b, w, list)
  {
  }

  lemma NoteSet(a: App, b: App, w: WorkspaceId, note: Option<SessionId>)
    requires if note.Some? then b.activeByWorkspace == a.activeByWorkspace[w := note.value]
             else b.activeByWorkspace == a.activeByWorkspace - {w}
    ensures NoteIs(a, b, w, note)
  {
  }

  lemma NoteKept(a: App, b: App, w: WorkspaceId)
    requires b.activeByWorkspace == a.activeByWorkspace
    ensures NoteIs(a, b, w, NoteOf(a, w))
  {
  }

  lemma {:induction false} ReadGives(a: Store, b: Store, sids: set<SessionId>)
    requires b.app.activity == MarkRead(a.app.activity, sids) && b.app.toasts == DropToasts(a.app.toasts, sids)
    requires Cancelled(a, b, sids)
    ensures MarkedRead(a, b, sids)
  {
    DropToastsSelects(a.app.toasts, sids);
  }

  lemma {:induction false} ForgetGives(a: Store, b: Store, sids: set<SessionId>)
    requires b.app.activity == a.app.activity - sids && b.app.toasts == DropToasts(a.app.toasts, sids)
    requires Cancelled(a, b, sids)
    ensures Forgotten(a, b, sids)
  {
    DropToastsSelects(a.app.toasts, sids);
  }

  lemma NotePassedOn(a: App, b: App, w: WorkspaceId, sid: SessionId, remaining: seq<Session>)
    requires b.activeByWorkspace == NextActive(a.activeByWorkspace, w, sid, remaining)
    ensures NoteIs(a, b, w, PassedOn(NoteOf(a, w), sid, remaining))
  {
  }

  /** The active session is what the focused leaf of the workspace shows. */
  ghost predicate FocusedIsShown(app: App, w: WorkspaceId) {
    && w in app.layouts && w in app.focused
    && Leaf(app.focused[w], app.activeSession) in Leaves(app.layouts[w])
  }

  lemma {:induction false} ActiveIsShown(app: App, w: WorkspaceId)
    requires w in app.layouts && w in app.focused && LayoutOk(app.layouts[w], app.focused[w])
    requires app.activeSession == Derive(app.layouts[w], app.focused[w])
    ensures FocusedIsShown(app, w)
  {
    var i := LeafIndex(app.layouts[w], app.focused[w]);
    assert Leaves(app.layouts[w])[i] == Leaf(app.focused[w], app.activeSession);
  }

  // ---------------------------------------------------------------------------------------
  // init and the workspaces

  /** init: lists as fetched, the first workspace active, and each one's first session noted; whatever
      the focused leaf shows is active. */
  lemma InitRecords(st: Store, ws: seq<WorkspaceId>, sessions: map<WorkspaceId, seq<Session>>,
                    saved: map<WorkspaceId, Saved>, leafIds: map<WorkspaceId, PanelId>)
    requires ws != [] && (forall w | w in ws :: w in sessions && w in leafIds)
    requires forall w | w in saved :: Shaped(saved[w].layout)
    ensures var st' := Init(st, ws, sessions, saved, leafIds); var app' := st'.app;
      && app'.workspaces == ws && app'.sessions == sessions && app'.activeWorkspace == Some(ws[0])
      && (forall w :: NoteOf(app', w) == if w in ws && sessions[w] != [] then Some(sessions[w][0].id) else None)
      && NoMarksChange(st, st')
      && (forall w :: w in app'.layouts <==> w in ws) && (forall w :: w in app'.focused <==> w in ws)
  {
  }

  lemma InitIsShown(st: Store, ws: seq<WorkspaceId>, sessions: map<WorkspaceId, seq<Session>>,
                    saved: map<WorkspaceId, Saved>, leafIds: map<WorkspaceId, PanelId>)
    requires Inv(st) && ws != [] && (forall w | w in ws :: w in sessions && w in leafIds)
    requires forall w | w in saved :: TreeOk(saved[w].layout)
    ensures forall w | w in saved :: Shaped(saved[w].layout)
    ensures FocusedIsShown(Init(st, ws, sessions, saved, leafIds).app, ws[0])
  {
    InitKeepsInv(st, ws, sessions, saved, leafIds);
    InitRecords(st, ws, sessions, saved, leafIds);
    ActiveIsShown(Init(st, ws, sessions, saved, leafIds).app, ws[0]);
  }

  /** A workspace without a saved layout gets one leaf with its first session, if it has one. */
  lemma InitUnsaved(st: Store, ws: seq<WorkspaceId>, sessions: map<WorkspaceId, seq<Session>>,
                    saved: map<WorkspaceId, Saved>, leafIds: map<WorkspaceId, PanelId>, w: WorkspaceId)
    requires ws != [] && (forall v | v in ws :: v in sessions && v in leafIds)
    requires (forall v | v in saved :: Shaped(saved[v].layout)) && w in ws && w !in saved
    ensures var app' := Init(st, ws, sessions, saved, leafIds).app;
      && w in app'.layouts && w in app'.focused && app'.focused[w] == leafIds[w]
      && Leaves(app'.layouts[w]) == [Leaf(leafIds[w], if sessions[w] == [] then None else Some(sessions[w][0].id))]
  {
  }

  /** fetchWorkspaces and renameWorkspace; fetchSessions, pollActive and renameSession. */
  lemma ListsRefreshed(st: Store, ws: seq<WorkspaceId>, w: WorkspaceId, list: seq<Session>)
    ensures var st' := SetWorkspaces(st, ws);
      && st'.app.workspaces == ws && st'.app.sessions == st.app.sessions
      && st'.app.activeByWorkspace == st.app.activeByWorkspace
      && SameScreen(st.app, st'.app) && NoMarksChange(st, st')
    ensures var st' := SetSessions(st, w, list);
      && st'.app.workspaces == st.app.workspaces && ListIs(st.app, st'.app, w, list)
      && st'.app.activeByWorkspace == st.app.activeByWorkspace
      && SameScreen(st.app, st'.app) && NoMarksChange(st, st')
  {
  }

  /** createWorkspace: listed last, with its one session, which its one leaf shows; active and focused. */
  lemma WorkspaceCreated(st: Store, w: WorkspaceId, sess: Session, leafId: PanelId)
    ensures var st' := CreateWorkspace(st, w, sess, leafId); var app' := st'.app;
      && app'.workspaces == st.app.workspaces + [w] && ListIs(st.app, app', w, [sess])
      && NoteIs(st.app, app', w, Some(sess.id))
      && app'.activeWorkspace == Some(w) && app'.activeSession == Some(sess.id)
      && OtherLayoutsSame(st.app, app', w) && Leaves(app'.layouts[w]) == [Leaf(leafId, Some(sess.id))]
      && app'.focused[w] == leafId && NoMarksChange(st, st')
  {
  }

  /** deleteWorkspace: it leaves the list, the order of the others staying; its own session list and
      note go, no others; its listed sessions are forgotten; the first workspace left becomes active. */
  lemma WorkspaceDeleted(st: Store, w: WorkspaceId)
    requires Inv(st)
    ensures var st' := DeleteWorkspace(st, w); var app, app' := st.app, st'.app;
      && Selected(app.workspaces, app'.workspaces, OtherWorkspace(w))
      && app'.sessions == app.sessions - {w} && NoteIs(app, app', w, None)
      && Forgotten(st, st', set s | s in SessionsOf(app, w) :: s.id)
      && app'.layouts == app.layouts - {w} && app'.focused == app.focused - {w}
      && FirstIsActive(app')
  {
    var st' := DeleteWorkspace(st, w);
    IdsAsSet(SessionsOf(st.app, w));
    RemoveWorkspaceSelects(st.app.workspaces, w);
    NoteSet(st.app, st'.app, w, None);
    ForgetGives(st, st', IdsIn(SessionsOf(st.app, w)));
    NextIsActive(st, w);
  }

  /** The first workspace is active, and shown if it has a layout. */
  ghost predicate FirstIsActive(app: App) {
    if app.workspaces == [] then app.activeWorkspace == None && app.activeSession == None
    else
      var w := app.workspaces[0];
      && app.activeWorkspace == Some(w)
      && if w in app.layouts then FocusedIsShown(app, w) else app.activeSession == None
  }

  lemma NextIsActive(st: Store, w: WorkspaceId)
    requires Inv(st)
    ensures FirstIsActive(DeleteWorkspace(st, w).app)
  {
    DeleteWorkspaceKeepsInv(st, w);
    var app' := DeleteWorkspace(st, w).app;
    if app'.workspaces != [] && app'.workspaces[0] in app'.layouts { ActiveIsShown(app', app'.workspaces[0]); }
  }

  lemma IdsAsSet(list: seq<Session>)
    ensures IdsIn(list) == set s | s in list :: s.id
  {
    forall i | 0 <= i < |list| ensures list[i].id in set s | s in list :: s.id { assert list[i] in list; }
  }

  /** setActiveWorkspace: its list is the one at hand, and its active session is noted and read. */
  lemma WorkspaceOpened(st: Store, w: WorkspaceId, listed: seq<Session>, leafId: PanelId)
    requires st.app.layouts.Keys == st.app.focused.Keys
    ensures var st' := SetActiveWorkspace(st, w, listed, leafId); var app, app' := st.app, st'.app;
      && app'.workspaces == app.workspaces && ListIs(app, app', w, listed)
      && NoteIs(app, app', w, if app'.activeSession.Some? then app'.activeSession else NoteOf(app, w))
      && MarkedRead(st, st', OptSet(app'.activeSession))
  {
    var st' := SetActiveWorkspace(st, w, listed, leafId);
    OpenedRecords(st, w, listed, leafId);
    if st'.app.activeSession.Some? {
      NoteSet(st.app, st'.app, w, st'.app.activeSession);
    } else {
      NoteKept(st.app, st'.app, w);
    }
    ReadGives(st, st', OptSet(st'.app.activeSession));
  }

  lemma OpenedRecords(st: Store, w: WorkspaceId, listed: seq<Session>, leafId: PanelId)
    ensures var st' := SetActiveWorkspace(st, w, listed, leafId); var app, app' := st.app, st'.app;
      && app'.workspaces == app.workspaces && app'.sessions == app.sessions[w := listed]
      && app'.activity == MarkRead(app.activity, OptSet(app'.activeSession))
      && app'.toasts == DropToasts(app.toasts, OptSet(app'.activeSession))
      && Cancelled(st, st', OptSet(app'.activeSession))
      && app'.activeByWorkspace ==
           if app'.activeSession.Some? then app.activeByWorkspace[w := app'.activeSession.value]
           else app.activeByWorkspace
  {
  }

  /** A workspace that had no layout starts with one leaf, which is focused. */
  lemma WorkspaceOpenedFirst(st: Store, w: WorkspaceId, listed: seq<Session>, leafId: PanelId)
    requires w !in st.app.layouts
    ensures var app' := SetActiveWorkspace(st, w, listed, leafId).app;
      && app'.focused == st.app.focused[w := leafId]
      && app'.activeSession == if listed == [] then None else Some(listed[0].id)
  {
  }

  // ---------------------------------------------------------------------------------------
  // Sessions

  /** createSession: listed last in its workspace and noted there. */
  lemma SessionCreated(st: Store, w: WorkspaceId, sess: Session, leafId: PanelId)
    requires w in st.app.layouts ==> Shaped(st.app.layouts[w])
    ensures var st' := CreateSession(st, w, sess, leafId); var app, app' := st.app, st'.app;
      && app'.workspaces == app.workspaces && app'.activeWorkspace == app.activeWorkspace
      && ListIs(app, app', w, SessionsOf(app, w) + [sess])
      && NoteIs(app, app', w, Some(sess.id)) && NoMarksChange(st, st')
  {
    var app' := CreateSession(st, w, sess, leafId).app;
    ListSet(st.app, app', w, SessionsOf(st.app, w) + [sess]);
    NoteSet(st.app, app', w, Some(sess.id));
  }

  /** deleteSession: it leaves the list of the active workspace, in order, and a note of it passes on;
      nothing is remembered of it.  Without an active workspace only its tracking stops. */
  lemma SessionDeleted(st: Store, sid: SessionId)
    requires Inv(st)
    ensures var st' := DeleteSession(st, sid); var app, app' := st.app, st'.app;
      match app.activeWorkspace
      case None => app' == app && Cancelled(st, st', {sid})
      case Some(w) =>
        var remaining := SessionsOf(app', w);
        && app'.workspaces == app.workspaces && app'.activeWorkspace == app.activeWorkspace
        && Selected(SessionsOf(app, w), remaining, OtherSession(sid)) && ListIs(app, app', w, remaining)
        && NoteIs(app, app', w, PassedOn(NoteOf(app, w), sid, remaining)) && Forgotten(st, st', {sid})
        && (if w in app.layouts then FocusedIsShown(app', w)
            else app'.activeSession == PassedOn(app.activeSession, sid, remaining))
  {
    if st.app.activeWorkspace.Some? {
      var w := st.app.activeWorkspace.value;
      var st' := DeleteSession(st, sid);
      RemoveSessionSelects(SessionsOf(st.app, w), sid);
      NotePassedOn(st.app, st'.app, w, sid, SessionsOf(st'.app, w));
      ForgetGives(st, st', {sid});
      DeleteSessionKeepsInv(st, sid);
      if w in st.app.layouts { ActiveIsShown(DeleteSession(st, sid).app, w); }
    }
  }

  /** setActiveSession: noted, read and active, also where there is no layout to show it in. */
  lemma SessionActivated(st: Store, sid: SessionId)
    requires Inv(st)
    ensures forall v | v in st.app.layouts :: Shaped(st.app.layouts[v])
    ensures var st' := SetActiveSession(st, sid); var app, app' := st.app, st'.app;
      && SameLists(app, app') && MarkedRead(st, st', {sid}) && app'.activeWorkspace == app.activeWorkspace
      && (match app.activeWorkspace
          case None => app'.activeByWorkspace == app.activeByWorkspace
          case Some(w) => NoteIs(app, app', w, Some(sid)))
      && (LookupLayout(app, app.activeWorkspace).None? ==>
            app'.activeSession == Some(sid) && app'.layouts == app.layouts && app'.focused == app.focused)
  {
    LayoutsAreShaped(st.app);
    ReadGives(st, SetActiveSession(st, sid), {sid});
  }

  // ---------------------------------------------------------------------------------------
  // Output, marks and toasts

  /** markSessionOutput: a session on screen is not tracked; one that is not starts or prolongs its
      burst and is due 1500 ms from now.  Nothing a user sees changes. */
  lemma {:induction false} OutputRecorded(st: Store, sid: SessionId, now: nat)
    ensures var st' := MarkSessionOutput(st, sid, now);
      && st'.app == st.app
      && if OnScreen(st, sid) then Cancelled(st, st', {sid})
         else
           && st'.busy == st.busy[sid := Idle.Track(if sid in st.busy then st.busy[sid].startedAt else now, now)]
           && st'.timers == st.timers[sid := now + 1500] && st'.pageVisible == st.pageVisible
  {
    ForegroundIsOnScreen(st, sid);
  }

  /** The title the first entry for the session has. */
  ghost predicate IsTitle(list: seq<Session>, sid: SessionId, title: string) {
    exists i | 0 <= i < |list| ::
      list[i].id == sid && list[i].title == title && forall j | 0 <= j < i :: list[j].id != sid
  }

  lemma {:induction false} TitleIsFirst(list: seq<Session>, sid: SessionId)
    requires HasId(list, sid)
    ensures IsTitle(list, sid, TitleIn(list, sid))
  {
    var i :| 0 <= i < |list| && list[i].id == sid;
    if list[0].id != sid {
      assert list[1..][i - 1] == list[i];
      TitleIsFirst(list[1..], sid);
      var k :| 0 <= k < |list[1..]| && list[1..][k].id == sid && list[1..][k].title == TitleIn(list, sid)
            && forall j | 0 <= j < k :: list[1..][j].id != sid;
      assert list[k + 1] == list[1..][k];
      forall j | 0 <= j < k + 1 ensures list[j].id != sid { if j > 0 { assert list[j] == list[1..][j - 1]; } }
    }
  }

  /** The toast is last; before it the others, in order, the oldest dropped if there would be six. */
  ghost predicate Pushed(old_: seq<Toast>, now: seq<Toast>, toast: Toast) {
    exists kept: seq<Toast> ::
      && Selected(old_, kept, OfOthers({toast.sessionId}))
      && now == (if |kept| < 5 then kept else kept[|kept| - 4..]) + [toast]
  }

  lemma LastFive(kept: seq<Toast>, toast: Toast)
    ensures LastN(kept + [toast], MAX_TOASTS) == (if |kept| < 5 then kept else kept[|kept| - 4..]) + [toast]
  {
  }

  lemma {:induction false} NotifyPushes(app: App, sid: SessionId, at: nat, w: WorkspaceId)
    requires !IsUnread(app, sid)
    ensures var toast := Toast(sid, at, w, TitleIn(SessionsOf(app, w), sid));
      Pushed(app.toasts, Notify(app, sid, at, Some(w)).toasts, toast)
  {
    var kept := DropToasts(app.toasts, {sid});
    DropToastsSelects(app.toasts, {sid});
    LastFive(kept, Toast(sid, at, w, TitleIn(SessionsOf(app, w), sid)));
  }

  /** A burst is reported if it lasted 500 ms, the session is not on screen, and not unread already. */
  ghost predicate Reports(st: Store, sid: SessionId) {
    && sid in st.busy && st.busy[sid].lastByteAt - st.busy[sid].startedAt >= 500
    && !OnScreen(st, sid) && !IsUnread(st.app, sid)
  }

  /** The timer callback: tracking ends; a burst to report leaves the session unread as of its last
      output, and a toast with its title if a workspace lists it. */
  lemma {:induction false} TimerRecorded(st: Store, sid: SessionId, owner: Option<WorkspaceId>)
    requires OwnerOk(st.app, sid, owner)
    ensures var st' := FireTimer(st, sid, owner); var app, app' := st.app, st'.app;
      && Cancelled(st, st', {sid})
      && (!Reports(st, sid) ==> app' == app)
      && (Reports(st, sid) ==>
            var at := st.busy[sid].lastByteAt;
            && app' == app.(activity := app.activity[sid := Activity(true, at, at)], toasts := app'.toasts)
            && (match owner
                case None => app'.toasts == app.toasts
                case Some(w) => exists title ::
                  IsTitle(SessionsOf(app, w), sid, title) && Pushed(app.toasts, app'.toasts, Toast(sid, at, w, title))))
  {
    ForegroundIsOnScreen(st, sid);
    if Reports(st, sid) && owner.Some? {
      var w := owner.value;
      TitleIsFirst(SessionsOf(st.app, w), sid);
      NotifyPushes(st.app, sid, st.busy[sid].lastByteAt, w);
    }
  }

  ghost predicate OnlyMarksChange(a: App, b: App) {
    b == a.(activity := b.activity, toasts := b.toasts)
  }

  /** clearSessionUnread and clearWorkspaceVisibleUnread. */
  lemma MarksCleared(st: Store, sid: SessionId)
    ensures var st' := ClearSessionUnread(st, sid); OnlyMarksChange(st.app, st'.app) && MarkedRead(st, st', {sid})
    ensures var st' := ClearVisibleUnread(st);
      OnlyMarksChange(st.app, st'.app) && MarkedRead(st, st', VisibleSessions(st.app))
  {
    ReadGives(st, ClearSessionUnread(st, sid), {sid});
    ReadGives(st, ClearVisibleUnread(st), VisibleSessions(st.app));
  }

  /** dismissToast takes out that toast alone. */
  lemma ToastDismissed(st: Store, sid: SessionId, at: nat)
    ensures var st' := DismissToast(st, sid, at);
      && st' == st.(app := st.app.(toasts := st'.app.toasts))
      && Selected(st.app.toasts, st'.app.toasts, OtherToast(sid, at))
  {
    DropToastSelects(st.app.toasts, sid, at);
  }

  /** The sessions that coming back to the page reads are those then on screen. */
  lemma {:induction false} VisibleIsOnScreen(st: Store, sid: SessionId)
    requires st.pageVisible
    ensures sid in VisibleSessions(st.app) <==> OnScreen(st, sid)
  {
    if st.app.activeWorkspace.Some? && st.app.activeWorkspace.value in st.app.layouts {
      var layout := st.app.layouts[st.app.activeWorkspace.value];
      LeavesAreLeaves(layout);
      ShownIff(Leaves(layout), sid);
    }
  }

  // ---------------------------------------------------------------------------------------
  // Panels

  ghost predicate OnlyLayoutsChange(a: Store, b: Store) {
    && b == a.(app := b.app)
    && b.app == a.app.(layouts := b.app.layouts, focused := b.app.focused, activeSession := b.app.activeSession)
  }

  /** splitPanel: an empty leaf beside the panel, in a split of its own with equal halves; it is
      focused, so no session is active.  Without such a panel nothing changes. */
  lemma {:induction false} PanelSplitUp(st: Store, w: WorkspaceId, i: nat, dir: Direction, placement: Placement,
                                        newLeafId: PanelId, newSplitId: PanelId)
    requires Inv(st) && st.app.activeWorkspace == Some(w) && w in st.app.layouts && i < |Leaves(st.app.layouts[w])|
    requires newLeafId !in Ids(st.app.layouts[w]) && newSplitId !in Ids(st.app.layouts[w]) && newLeafId != newSplitId
    ensures var layout := st.app.layouts[w]; var ls := Leaves(layout);
      var st' := SplitPanel(st, ls[i].id, dir, placement, newLeafId, newSplitId);
      && OnlyLayoutsChange(st, st') && OtherLayoutsSame(st.app, st'.app, w)
      && st'.app.focused[w] == newLeafId && st'.app.activeSession == None
      && Leaves(st'.app.layouts[w])
         == ls[..i] + (if placement.Before? then [Leaf(newLeafId, None), ls[i]] else [ls[i], Leaf(newLeafId, None)])
            + ls[i + 1..]
      && HalvesAt(st'.app.layouts[w], newSplitId, dir)
      && (forall id | id != newSplitId :: FrameAt(st'.app.layouts[w], id) == FrameAt(layout, id))
  {
    var layout := st.app.layouts[w];
    assert LayoutOk(layout, st.app.focused[w]);
    IndexHasLeaf(layout, i);
    SplitLeafOk(layout, Leaves(layout)[i].id, dir, placement, newLeafId, newSplitId);
    SplitLeafLeaves(layout, i, dir, placement, newLeafId, newSplitId);
    SplitLeafFrames(layout, i, dir, placement, newLeafId, newSplitId);
    SplitRecords(st, w, Leaves(layout)[i].id, dir, placement, newLeafId, newSplitId);
    OneReplaced(st.app, SplitPanel(st, Leaves(layout)[i].id, dir, placement, newLeafId, newSplitId).app, w,
                SplitLeaf(layout, Leaves(layout)[i].id, dir, placement, newLeafId, newSplitId).value.root, newLeafId);
  }

  lemma SplitRecords(st: Store, w: WorkspaceId, panelId: PanelId, dir: Direction, placement: Placement,
                     newLeafId: PanelId, newSplitId: PanelId)
    requires st.app.activeWorkspace == Some(w) && w in st.app.layouts
    requires var r := SplitLeaf(st.app.layouts[w], panelId, dir, placement, newLeafId, newSplitId);
      r.Some? && r.value.newLeafId == newLeafId && Derive(r.value.root, newLeafId) == None
    ensures var st' := SplitPanel(st, panelId, dir, placement, newLeafId, newSplitId);
      var r := SplitLeaf(st.app.layouts[w], panelId, dir, placement, newLeafId, newSplitId).value;
      && OnlyLayoutsChange(st, st') && st'.app.layouts == st.app.layouts[w := r.root]
      && st'.app.focused == st.app.focused[w := newLeafId] && st'.app.activeSession == None
  {
  }

  lemma {:induction false} NoPanelToSplit(st: Store, panelId: PanelId, dir: Direction, placement: Placement,
                                          newLeafId: PanelId, newSplitId: PanelId)
    requires var layout := LookupLayout(st.app, st.app.activeWorkspace);
      layout.None? || !HasLeafId(Leaves(layout.value), panelId)
    ensures SplitPanel(st, panelId, dir, placement, newLeafId, newSplitId) == st
  {
    var layout := LookupLayout(st.app, st.app.activeWorkspace);
    if layout.Some? { SplitLeafNullIff(layout.value, panelId, dir, placement, newLeafId, newSplitId); }
  }

  /** closePanel: the session the panel showed leaves the list, in order, a note of it passes on, and
      nothing is remembered of it; without one only the layout changes. */
  lemma PanelClosed(st: Store, panelId: PanelId, captured: Option<SessionId>, leafId: PanelId, w: WorkspaceId)
    requires (forall v | v in st.app.layouts :: Shaped(st.app.layouts[v]))
    requires st.app.activeWorkspace == Some(w) && w in st.app.layouts
    ensures var st' := ClosePanel(st, panelId, captured, leafId); var app, app' := st.app, st'.app;
      && app'.workspaces == app.workspaces && app'.activeWorkspace == app.activeWorkspace
      && (match captured
          case None => OnlyLayoutsChange(st, st')
          case Some(sid) =>
            var remaining := SessionsOf(app', w);
            && Selected(SessionsOf(app, w), remaining, OtherSession(sid)) && ListIs(app, app', w, remaining)
            && NoteIs(app, app', w, PassedOn(NoteOf(app, w), sid, remaining)) && Forgotten(st, st', {sid}))
  {
    ClosedRecords(st, panelId, captured, leafId, w);
    if captured.Some? {
      var sid, app' := captured.value, ClosePanel(st, panelId, captured, leafId).app;
      RemoveSessionSelects(SessionsOf(st.app, w), sid);
      ListSet(st.app, app', w, SessionsOf(app', w));
      NotePassedOn(st.app, app', w, sid, SessionsOf(app', w));
      ForgetGives(st, ClosePanel(st, panelId, captured, leafId), {sid});
    }
  }

  lemma ClosedRecords(st: Store, panelId: PanelId, captured: Option<SessionId>, leafId: PanelId, w: WorkspaceId)
    requires (forall v | v in st.app.layouts :: Shaped(st.app.layouts[v]))
    requires st.app.activeWorkspace == Some(w) && w in st.app.layouts
    ensures var st' := ClosePanel(st, panelId, captured, leafId); var app, app' := st.app, st'.app;
      && app'.workspaces == app.workspaces && app'.activeWorkspace == app.activeWorkspace
      && (match captured
          case None => OnlyLayoutsChange(st, st')
          case Some(sid) =>
            var remaining := RemoveSession(SessionsOf(app, w), sid);
            && app'.sessions == app.sessions[w := remaining]
            && app'.activeByWorkspace == NextActive(app.activeByWorkspace, w, sid, remaining)
            && app'.activity == app.activity - {sid} && app'.toasts == DropToasts(app.toasts, {sid})
            && Cancelled(st, st', {sid}))
  {
  }

  /** And whatever the leaf then focused shows is active. */
  lemma {:induction false} ClosedIsShown(st: Store, panelId: PanelId, captured: Option<SessionId>, leafId: PanelId,
                                         w: WorkspaceId)
    requires Inv(st) && st.app.activeWorkspace == Some(w) && w in st.app.layouts
    ensures forall v | v in st.app.layouts :: Shaped(st.app.layouts[v])
    ensures FocusedIsShown(ClosePanel(st, panelId, captured, leafId).app, w)
  {
    LayoutsAreShaped(st.app);
    ClosePanelKeepsInv(st, panelId, captured, leafId);
    ClosedIsGone(st, panelId, captured, leafId, w);
    PanelClosed(st, panelId, captured, leafId, w);
    ActiveIsShown(ClosePanel(st, panelId, captured, leafId).app, w);
  }

  /** focusPanel on another existing leaf: its session is noted and read. */
  lemma {:induction false} PanelFocused(st: Store, panelId: PanelId, w: WorkspaceId)
    requires Inv(st) && st.app.activeWorkspace == Some(w) && w in st.app.layouts && st.app.focused[w] != panelId
    requires HasLeafId(Leaves(st.app.layouts[w]), panelId)
    ensures var st' := FocusPanel(st, panelId); var app, app' := st.app, st'.app;
      && SameLists(app, app') && app'.activeWorkspace == app.activeWorkspace
      && NoteIs(app, app', w, if app'.activeSession.Some? then app'.activeSession else NoteOf(app, w))
      && MarkedRead(st, st', OptSet(app'.activeSession))
  {
    HasLeafIff(st.app.layouts[w], panelId);
    ReadGives(st, FocusPanel(st, panelId), OptSet(FocusPanel(st, panelId).app.activeSession));
  }

  /** assignSession: the session moves to the leaf and is noted, read and active; if there is no such
      leaf, only its tracking stops. */
  lemma {:induction false} SessionAssigned(st: Store, panelId: PanelId, sid: SessionId)
    requires Inv(st)
    ensures var st' := AssignSession(st, panelId, sid); var app, app' := st.app, st'.app;
      var layout := LookupLayout(app, app.activeWorkspace);
      if layout.None? || !HasLeafId(Leaves(layout.value), panelId) then app' == app && Cancelled(st, st', {sid})
      else
        var w := app.activeWorkspace.value;
        && SameLists(app, app') && app'.activeWorkspace == Some(w) && app'.activeSession == Some(sid)
        && NoteIs(app, app', w, Some(sid)) && MarkedRead(st, st', {sid})
        && OtherLayoutsSame(app, app', w) && app'.focused[w] == panelId
        && Moved(Leaves(app.layouts[w]), Leaves(app'.layouts[w]), panelId, sid)
        && (forall id :: FrameAt(app'.layouts[w], id) == FrameAt(app.layouts[w], id))
  {
    var layout := LookupLayout(st.app, st.app.activeWorkspace);
    if layout.Some? {
      HasLeafIff(layout.value, panelId);
      if HasLeaf(layout.value, panelId) {
        var app', w := AssignSession(st, panelId, sid).app, st.app.activeWorkspace.value;
        MoveSessionOk(layout.value, panelId, sid);
        MoveSessionLeaves(layout.value, panelId, sid);
        MoveKeepsFrames(layout.value, panelId, sid);
        AssignedRecords(st, panelId, sid, w);
        OneReplaced(st.app, app', w, MoveSession(layout.value, panelId, sid), panelId);
        NoteSet(st.app, app', w, Some(sid));
        ReadGives(st, AssignSession(st, panelId, sid), {sid});
      }
    }
  }

  lemma AssignedRecords(st: Store, panelId: PanelId, sid: SessionId, w: WorkspaceId)
    requires st.app.activeWorkspace == Some(w) && w in st.app.layouts && HasLeaf(st.app.layouts[w], panelId)
    ensures var st' := AssignSession(st, panelId, sid); var app, app' := st.app, st'.app;
      && SameLists(app, app') && app'.activeWorkspace == Some(w) && Cancelled(st, st', {sid})
      && app'.activity == MarkRead(app.activity, {sid}) && app'.toasts == DropToasts(app.toasts, {sid})
      && app'.activeByWorkspace == app.activeByWorkspace[w := sid]
      && app'.layouts == app.layouts[w := MoveSession(app.layouts[w], panelId, sid)]
      && app'.focused == app.focused[w := panelId]
      && app'.activeSession == Derive(MoveSession(app.layouts[w], panelId, sid), panelId)
  {
  }

  /** resizeSplit changes one layout and nothing else. */
  lemma OnlyLayoutResized(st: Store, splitId: PanelId, sizes: seq<real>)
    ensures var st' := ResizeSplit(st, splitId, sizes); st' == st.(app := st.app.(layouts := st'.app.layouts))
  {
  }
}
