/** The store's unread marks are exactly what the history of each session calls for.

    A run of the store is projected, for one session, to the events of the idle tracker; the
    store's two maps and its activity record then follow the single-session machine step by
    step, and so the declarative account of busy bursts. */
module TrackerRefinement {
  import opened Wrappers
  import opened PanelTree
  import opened PanelInvariant
  import opened PanelPersistence
  import opened AppStore
  import opened StoreInvariant
  import opened StoreEffects
  import opened StoreRecords
  import opened StoreRuns
  import Idle = IdleTracker

  function TrackOf(st: Store, sid: SessionId): Option<Idle.Track> {
    if sid in st.busy then Some(st.busy[sid]) else None
  }

  /** The store, as far as the session is concerned, is in the machine's state. */
  ghost predicate Agrees(st: Store, sid: SessionId, m: Idle.Machine) {
    && m.track == TrackOf(st, sid)
    && m.unread == IsUnread(st.app, sid)
    && m.foreground == OnScreen(st, sid)
  }

  // ---------------------------------------------------------------------------------------
  // What each action cancels and reads, told from the action and the state it finds

  /** The session that comes into focus with a leaf, if the focus really moves to it. */
  function BroughtIntoFocus(app: App, panelId: PanelId): Option<SessionId> {
    match LookupLayout(app, app.activeWorkspace)
    case None => None
    case Some(layout) =>
      if FocusOf(app, app.activeWorkspace.value) == Some(panelId) || !HasLeaf(layout, panelId) then None
      else Derive(layout, panelId)
  }

  predicate HasActiveLeaf(app: App, panelId: PanelId) {
    match LookupLayout(app, app.activeWorkspace)
    case None => false
    case Some(layout) => HasLeaf(layout, panelId)
  }

  /** The sessions whose busy track an action cancels.  Polling, creating, splitting, resizing,
      dismissing a toast and hiding or showing the page cancel nothing. */
  function Cancels(st: Store, a: Action): set<SessionId> {
    match a
    case DoDeleteWorkspace(w) => IdsIn(SessionsOf(st.app, w))
    case DoSetActiveWorkspace(w, listed, _) => OptSet(Greeted(st.app, w, listed))
    case DoDeleteSession(sid) => {sid}
    case DoSetActiveSession(sid) => {sid}
    case DoOutput(sid) => if OnScreen(st, sid) then {sid} else {}
    case DoClearUnread(sid) => {sid}
    case DoClearVisibleUnread => VisibleSessions(st.app)
    case DoClosePanel(_, captured, _) => OptSet(captured)
    case DoFocusPanel(p) => OptSet(BroughtIntoFocus(st.app, p))
    case DoAssignSession(_, sid) => {sid}
    case _ => {}
  }

  /** The sessions whose unread mark an action clears: those it cancels, except that output reads
      nothing and that some actions give up when there is no workspace or leaf to act on. */
  function Reads(st: Store, a: Action): set<SessionId> {
    match a
    case DoOutput(_) => {}
    case DoDeleteSession(sid) => if st.app.activeWorkspace.Some? then {sid} else {}
    case DoClosePanel(_, captured, _) =>
      if LookupLayout(st.app, st.app.activeWorkspace).Some? then OptSet(captured) else {}
    case DoAssignSession(p, sid) => if HasActiveLeaf(st.app, p) then {sid} else {}
    case _ => Cancels(st, a)
  }

  /** For this session, exactly these cancels and reads happened. */
  ghost predicate Exactly(st: Store, st': Store, sid: SessionId, cancels: set<SessionId>, seen: set<SessionId>) {
    && TrackOf(st', sid) == (if sid in cancels then None else TrackOf(st, sid))
    && (IsUnread(st'.app, sid) <==> IsUnread(st.app, sid) && sid !in seen)
    && (forall t | t in st'.app.toasts && t.sessionId == sid :: t in st.app.toasts && sid !in seen)
  }

  /** Every action, on every session but one whose output it is: it cancels and reads exactly what
      it should, starts no track and sets no mark. */
  lemma ActionsCancelAndReadExactly(w: World, at: nat, a: Action, sid: SessionId)
    requires Ready(w) && Allowed(w, a) && a != DoOutput(sid)
    ensures Exactly(w.st, Perform(w, at, a), sid, Cancels(w.st, a), Reads(w.st, a))
  {
    if TouchesPanels(a) {
      TouchingExactly(w, at, a, sid);
    } else if ReshapesPanels(a) {
      ReshapingExactly(w, at, a, sid);
    } else if ListsSessions(a) {
      ListingExactly(w, at, a, sid);
    } else if PlacesSessions(a) {
      PlacingExactly(w, at, a, sid);
    } else if MarksSessions(a) {
      MarkingExactly(w, at, a, sid);
    } else {
      WorkspaceActionExactly(w, at, a, sid);
    }
  }

  lemma TouchingExactly(w: World, at: nat, a: Action, sid: SessionId)
    requires Ready(w) && Allowed(w, a) && TouchesPanels(a)
    ensures Exactly(w.st, Perform(w, at, a), sid, Cancels(w.st, a), Reads(w.st, a))
  {
    if a.DoFocusPanel? { FocusExactly(w.st, a.panelId, sid); }
  }

  lemma ReshapingExactly(w: World, at: nat, a: Action, sid: SessionId)
    requires Ready(w) && Allowed(w, a) && ReshapesPanels(a)
    ensures Exactly(w.st, Perform(w, at, a), sid, Cancels(w.st, a), Reads(w.st, a))
  {
    if a.DoClosePanel? { CloseExactly(w.st, a.panelId, a.captured, a.leafId, sid); }
  }

  lemma ListingExactly(w: World, at: nat, a: Action, sid: SessionId)
    requires Ready(w) && Allowed(w, a) && ListsSessions(a)
    ensures Exactly(w.st, Perform(w, at, a), sid, Cancels(w.st, a), Reads(w.st, a))
  {
    if a.DoDeleteSession? { DeleteExactly(w.st, a.sid, sid); }
  }

  lemma PlacingExactly(w: World, at: nat, a: Action, sid: SessionId)
    requires Ready(w) && Allowed(w, a) && PlacesSessions(a)
    ensures Exactly(w.st, Perform(w, at, a), sid, Cancels(w.st, a), Reads(w.st, a))
  {
    match a
    case DoSetActiveSession(x) => SetActiveExactly(w.st, x, sid);
    case DoAssignSession(p, x) => AssignExactly(w.st, p, x, sid);
  }

  lemma MarkingExactly(w: World, at: nat, a: Action, sid: SessionId)
    requires Ready(w) && Allowed(w, a) && MarksSessions(a) && a != DoOutput(sid)
    ensures Exactly(w.st, Perform(w, at, a), sid, Cancels(w.st, a), Reads(w.st, a))
  {
    match a
    case DoOutput(_) =>
    case DoClearUnread(x) => DropToastsFacts(w.st.app.toasts, {x});
    case DoClearVisibleUnread => DropToastsFacts(w.st.app.toasts, VisibleSessions(w.st.app));
    case DoDismissToast(x, createdAt) => DropToastFacts(w.st.app.toasts, x, createdAt);
  }

  lemma WorkspaceActionExactly(w: World, at: nat, a: Action, sid: SessionId)
    requires Ready(w) && Allowed(w, a) && ForWorkspaces(a)
    ensures Exactly(w.st, Perform(w, at, a), sid, Cancels(w.st, a), Reads(w.st, a))
  {
    match a
    case DoInit(_, _, _) =>
    case DoSetWorkspaces(_) =>
    case DoSetSessions(_, _) =>
    case DoCreateWorkspace(_, _, _) =>
    case DoDeleteWorkspace(v) => DeleteWorkspaceExactly(w.st, v, sid);
    case DoSetActiveWorkspace(v, listed, leafId) => SetActiveWorkspaceExactly(w.st, v, listed, leafId, sid);
  }

  /** Marking `sids` read, or forgetting them, and cancelling their tracks. */
  lemma {:induction false} MarkedExactly(st: Store, st': Store, sids: set<SessionId>, sid: SessionId)
    requires st'.busy == st.busy - sids && st'.app.toasts == DropToasts(st.app.toasts, sids)
    requires st'.app.activity == MarkRead(st.app.activity, sids) || st'.app.activity == st.app.activity - sids
    ensures Exactly(st, st', sid, sids, sids)
  {
    DropToastsFacts(st.app.toasts, sids);
  }

  lemma DeleteWorkspaceExactly(st: Store, w: WorkspaceId, sid: SessionId)
    ensures var a := DoDeleteWorkspace(w); Exactly(st, DeleteWorkspace(st, w), sid, Cancels(st, a), Reads(st, a))
  {
    MarkedExactly(st, DeleteWorkspace(st, w), IdsIn(SessionsOf(st.app, w)), sid);
  }

  lemma SetActiveWorkspaceExactly(st: Store, w: WorkspaceId, listed: seq<Session>, leafId: PanelId, sid: SessionId)
    ensures var a := DoSetActiveWorkspace(w, listed, leafId);
      Exactly(st, SetActiveWorkspace(st, w, listed, leafId), sid, Cancels(st, a), Reads(st, a))
  {
    var greeted := OptSet(Greeted(st.app, w, listed));
    GreetedIsActive(st, w, listed, leafId);
    MarkedExactly(st, SetActiveWorkspace(st, w, listed, leafId), greeted, sid);
  }

  lemma DeleteExactly(st: Store, x: SessionId, sid: SessionId)
    ensures var a := DoDeleteSession(x); Exactly(st, DeleteSession(st, x), sid, Cancels(st, a), Reads(st, a))
  {
    if st.app.activeWorkspace.Some? { MarkedExactly(st, DeleteSession(st, x), {x}, sid); }
  }

  lemma SetActiveExactly(st: Store, x: SessionId, sid: SessionId)
    requires forall w | w in st.app.layouts :: Shaped(st.app.layouts[w])
    ensures var a := DoSetActiveSession(x); Exactly(st, SetActiveSession(st, x), sid, Cancels(st, a), Reads(st, a))
  {
    ActivatedTracks(st, x);
    ActivatedReads(st, x);
    MarkedExactly(st, SetActiveSession(st, x), {x}, sid);
  }

  lemma CloseExactly(st: Store, p: PanelId, captured: Option<SessionId>, leafId: PanelId, sid: SessionId)
    requires forall w | w in st.app.layouts :: Shaped(st.app.layouts[w])
    ensures var a := DoClosePanel(p, captured, leafId);
      Exactly(st, ClosePanel(st, p, captured, leafId), sid, Cancels(st, a), Reads(st, a))
  {
    ClosedMarks(st, p, captured, leafId);
    MarksGiveExactly(st, ClosePanel(st, p, captured, leafId), DoClosePanel(p, captured, leafId), sid);
  }

  lemma MarksGiveExactly(st: Store, st': Store, a: Action, sid: SessionId)
    requires a.DoClosePanel? && st'.busy == st.busy - OptSet(a.captured)
    requires if LookupLayout(st.app, st.app.activeWorkspace).Some? && a.captured.Some? then
               && st'.app.activity == st.app.activity - {a.captured.value}
               && st'.app.toasts == DropToasts(st.app.toasts, {a.captured.value})
             else st'.app.activity == st.app.activity && st'.app.toasts == st.app.toasts
    ensures Exactly(st, st', sid, Cancels(st, a), Reads(st, a))
  {
    if LookupLayout(st.app, st.app.activeWorkspace).Some? && a.captured.Some? {
      MarkedExactly(st, st', {a.captured.value}, sid);
    }
  }

  lemma ClosedMarks(st: Store, p: PanelId, captured: Option<SessionId>, leafId: PanelId)
    requires forall w | w in st.app.layouts :: Shaped(st.app.layouts[w])
    ensures var st' := ClosePanel(st, p, captured, leafId);
      && st'.busy == st.busy - OptSet(captured)
      && (if LookupLayout(st.app, st.app.activeWorkspace).Some? && captured.Some? then
            && st'.app.activity == st.app.activity - {captured.value}
            && st'.app.toasts == DropToasts(st.app.toasts, {captured.value})
          else st'.app.activity == st.app.activity && st'.app.toasts == st.app.toasts)
  {
  }

  lemma FocusExactly(st: Store, p: PanelId, sid: SessionId)
    ensures var a := DoFocusPanel(p); Exactly(st, FocusPanel(st, p), sid, Cancels(st, a), Reads(st, a))
  {
    var focused := OptSet(BroughtIntoFocus(st.app, p));
    if FocusPanel(st, p) != st {
      FocusedMarks(st, p);
      MarkedExactly(st, FocusPanel(st, p), focused, sid);
    } else if focused != {} {
      FocusedMarks(st, p);
      MarkedExactly(st, st, focused, sid);
    }
  }

  lemma FocusedMarks(st: Store, p: PanelId)
    requires FocusPanel(st, p) != st || BroughtIntoFocus(st.app, p).Some?
    ensures var st', focused := FocusPanel(st, p), OptSet(BroughtIntoFocus(st.app, p));
      && st'.busy == st.busy - focused
      && st'.app.activity == MarkRead(st.app.activity, focused) && st'.app.toasts == DropToasts(st.app.toasts, focused)
  {
  }

  lemma AssignExactly(st: Store, p: PanelId, x: SessionId, sid: SessionId)
    ensures var a := DoAssignSession(p, x); Exactly(st, AssignSession(st, p, x), sid, Cancels(st, a), Reads(st, a))
  {
    if HasActiveLeaf(st.app, p) {
      AssignedMarks(st, p, x);
      MarkedExactly(st, AssignSession(st, p, x), {x}, sid);
    } else {
      assert AssignSession(st, p, x) == Cancel(st, {x});
    }
  }

  lemma AssignedMarks(st: Store, p: PanelId, x: SessionId)
    requires HasActiveLeaf(st.app, p)
    ensures var st' := AssignSession(st, p, x);
      && st'.busy == st.busy - {x}
      && st'.app.activity == MarkRead(st.app.activity, {x}) && st'.app.toasts == DropToasts(st.app.toasts, {x})
  {
  }

  // ---------------------------------------------------------------------------------------
  // The session's own history

  /** The moment a timer of the session fires: an event that cancels and reads nothing. */
  function FireEvent(st: Store, sid: SessionId, owner: Option<WorkspaceId>): Idle.Event
    requires sid in st.timers
  {
    Idle.Effect(st.timers[sid], false, false, OnScreen(FireTimer(st, sid, owner), sid))
  }

  /** What a step is to the session; a timer of another session is nothing. */
  ghost function Project(w: World, t: Step, sid: SessionId): seq<Idle.Event>
    requires WorldOk(w) && Enabled(w, t) && !t.Reload?
  {
    match t
    case Act(at, a, _) =>
      if a == DoOutput(sid) then [Idle.Output(at)]
      else [Idle.Effect(at, sid in Cancels(w.st, a), sid in Reads(w.st, a), OnScreen(Next(w, t).st, sid))]
    case Fire(s, owner) => if s == sid then [FireEvent(w.st, sid, owner)] else []
  }

  lemma OutputFollows(st: Store, sid: SessionId, at: nat, m: Idle.Machine)
    requires TimersOk(st) && AllAfter(st, at) && Agrees(st, sid, m)
    ensures Agrees(MarkSessionOutput(st, sid, at), sid, Idle.Step(m, Idle.Output(at)))
  {
    ForegroundIsOnScreen(st, sid);
  }

  lemma EffectFollows(st: Store, st': Store, sid: SessionId, at: nat, m: Idle.Machine,
                      cancels: set<SessionId>, seen: set<SessionId>)
    requires TimersOk(st) && AllAfter(st, at) && Agrees(st, sid, m) && Exactly(st, st', sid, cancels, seen)
    ensures Agrees(st', sid, Idle.Step(m, Idle.Effect(at, sid in cancels, sid in seen, OnScreen(st', sid))))
  {
  }

  /** The timer callback and the machine notify together, or neither does. */
  lemma FireFollows(st: Store, sid: SessionId, owner: Option<WorkspaceId>, m: Idle.Machine)
    requires TimersOk(st) && sid in st.timers && Agrees(st, sid, m)
    ensures var st', m' := FireTimer(st, sid, owner), Idle.Step(m, FireEvent(st, sid, owner));
      && Agrees(st', sid, m')
      && (m'.notified == m.notified ==> st'.app == st.app)
      && (m'.notified != m.notified ==>
            && sid in st.busy && m'.notified == m.notified + [st.busy[sid].lastByteAt]
            && !IsUnread(st.app, sid) && st'.app == Notify(st.app, sid, st.busy[sid].lastByteAt, owner))
  {
    ForegroundIsOnScreen(st, sid);
  }

  lemma OtherFireFollows(st: Store, s: SessionId, owner: Option<WorkspaceId>, sid: SessionId, m: Idle.Machine)
    requires Agrees(st, sid, m) && s != sid
    ensures Agrees(FireTimer(st, s, owner), sid, m)
  {
  }

  ghost function Steps(m: Idle.Machine, h: seq<Idle.Event>): Idle.Machine
    decreases h
  {
    if h == [] then m else Steps(Idle.Step(m, h[0]), h[1..])
  }

  lemma {:induction false} OneStep(m: Idle.Machine, e: Idle.Event)
    ensures Steps(m, [e]) == Idle.Step(m, e)
  {
    assert [e][1..] == [];
  }

  lemma {:induction false} ActFollows(w: World, at: nat, a: Action, rebuilt: bool, sid: SessionId, m: Idle.Machine)
    requires WorldOk(w) && Enabled(w, Act(at, a, rebuilt)) && Agrees(w.st, sid, m)
    ensures Agrees(Next(w, Act(at, a, rebuilt)).st, sid, Steps(m, Project(w, Act(at, a, rebuilt), sid)))
  {
    WorldReady(w);
    var t := Act(at, a, rebuilt);
    OneStep(m, Project(w, t, sid)[0]);
    if a == DoOutput(sid) {
      OutputFollows(w.st, sid, at, m);
    } else {
      ActionsCancelAndReadExactly(w, at, a, sid);
      EffectFollows(w.st, Next(w, t).st, sid, at, m, Cancels(w.st, a), Reads(w.st, a));
    }
  }

  lemma {:induction false} FiringFollows(w: World, s: SessionId, owner: Option<WorkspaceId>, sid: SessionId,
                                         m: Idle.Machine)
    requires WorldOk(w) && Enabled(w, Fire(s, owner)) && Agrees(w.st, sid, m)
    ensures Agrees(Next(w, Fire(s, owner)).st, sid, Steps(m, Project(w, Fire(s, owner), sid)))
  {
    if s == sid {
      OneStep(m, FireEvent(w.st, sid, owner));
      FireFollows(w.st, sid, owner, m);
    } else {
      OtherFireFollows(w.st, s, owner, sid, m);
    }
  }

  /** One step of the store, for the session: the events it projects to. */
  lemma {:induction false} StepFollows(w: World, t: Step, sid: SessionId, m: Idle.Machine)
    requires WorldOk(w) && Enabled(w, t) && !t.Reload? && Agrees(w.st, sid, m)
    ensures Agrees(Next(w, t).st, sid, Steps(m, Project(w, t, sid)))
  {
    match t
    case Act(at, a, rebuilt) => ActFollows(w, at, a, rebuilt, sid, m);
    case Fire(s, owner) => FiringFollows(w, s, owner, sid, m);
  }

  ghost predicate Within(h: seq<Idle.Event>, lo: nat, hi: nat) {
    forall i | 0 <= i < |h| :: lo <= h[i].at <= hi
  }

  lemma StepIsTimed(w: World, t: Step, sid: SessionId)
    requires WorldOk(w) && Enabled(w, t) && !t.Reload?
    ensures Within(Project(w, t, sid), Next(w, t).now, Next(w, t).now) && w.now <= Next(w, t).now
  {
    StepMovesClock(w, t);
  }

  lemma StepMovesClock(w: World, t: Step)
    requires WorldOk(w) && Enabled(w, t)
    ensures w.now <= Next(w, t).now == (if t.Fire? then w.st.timers[t.sid] else t.at)
  {
  }

  /** The history of the session over a run without reloads. */
  ghost function History(w: World, run: seq<Step>, sid: SessionId): seq<Idle.Event>
    requires WorldOk(w) && ValidRun(w, run) && OnePage(run)
    decreases |run|
  {
    if run == [] then []
    else
      StepKeepsWorld(w, run[0]);
      Project(w, run[0], sid) + History(Next(w, run[0]), run[1..], sid)
  }

  lemma {:induction false} StepsAppend(m: Idle.Machine, a: seq<Idle.Event>, b: seq<Idle.Event>)
    ensures Steps(m, a + b) == Steps(Steps(m, a), b)
    decreases a
  {
    if a == [] {
      assert a + b == b;
    } else {
      assert (a + b)[1..] == a[1..] + b;
      StepsAppend(Idle.Step(m, a[0]), a[1..], b);
    }
  }

  lemma {:induction false} RunAgrees(w: World, run: seq<Step>, sid: SessionId, m: Idle.Machine)
    requires WorldOk(w) && ValidRun(w, run) && OnePage(run)
    requires Agrees(w.st, sid, m)
    ensures Agrees(RunTo(w, run).st, sid, Steps(m, History(w, run, sid)))
    decreases |run|
  {
    if run != [] {
      var w1, rest := Next(w, run[0]), run[1..];
      StepKeepsWorld(w, run[0]);
      StepFollows(w, run[0], sid, m);
      assert forall i | 0 <= i < |rest| :: rest[i] == run[i + 1];
      RunAgrees(w1, rest, sid, Steps(m, Project(w, run[0], sid)));
      StepsAppend(m, Project(w, run[0], sid), History(w1, rest, sid));
    }
  }

  lemma {:induction false} RunInOrder(w: World, run: seq<Step>, sid: SessionId)
    requires WorldOk(w) && ValidRun(w, run) && OnePage(run)
    ensures Idle.InOrder(History(w, run, sid))
    ensures Within(History(w, run, sid), w.now, RunTo(w, run).now) && w.now <= RunTo(w, run).now
    decreases |run|
  {
    if run != [] {
      var w1, rest := Next(w, run[0]), run[1..];
      StepKeepsWorld(w, run[0]);
      StepIsTimed(w, run[0], sid);
      assert forall i | 0 <= i < |rest| :: rest[i] == run[i + 1];
      RunInOrder(w1, rest, sid);
      JoinedInOrder(Project(w, run[0], sid), History(w1, rest, sid), w1.now, RunTo(w1, rest).now);
    }
  }

  lemma JoinedInOrder(a: seq<Idle.Event>, b: seq<Idle.Event>, mid: nat, hi: nat)
    requires Within(a, mid, mid) && Within(b, mid, hi) && mid <= hi && Idle.InOrder(b)
    ensures Idle.InOrder(a + b) && Within(a + b, mid, hi)
  {
  }

  /** The machine's own account of a history is the same as stepping through it. */
  lemma {:induction false} AfterIsSteps(h: seq<Idle.Event>, fg0: bool, n: nat)
    requires n <= |h|
    ensures Steps(Idle.Start(fg0), h[..n]) == Idle.After(h, fg0, n)
  {
    if n == 0 {
      assert h[..0] == [];
    } else {
      AfterIsSteps(h, fg0, n - 1);
      assert h[..n] == h[..n - 1] + [h[n - 1]];
      StepsAppend(Idle.Start(fg0), h[..n - 1], [h[n - 1]]);
      assert [h[n - 1]][1..] == [];
    }
  }

  /** Nothing is known of the session: it has no track and is not unread.  That is so of every session
      when a page opens, and of one never heard of since. */
  ghost predicate Unheard(st: Store, sid: SessionId) {
    TrackOf(st, sid).None? && !IsUnread(st.app, sid)
  }

  ghost predicate OnePage(run: seq<Step>) {
    forall i | 0 <= i < |run| :: !run[i].Reload?
  }

  /** When a page opens, or opens again at any time, every session is unheard and in the background. */
  lemma ReloadForgets(w: World, at: nat, visible: bool, sid: SessionId)
    requires WorldOk(w) && Enabled(w, Reload(at, visible))
    ensures var page := Next(w, Reload(at, visible)).st;
      Unheard(page, sid) && !OnScreen(page, sid)
  {
  }

  /** From where the session is unheard, over any run: the store follows the machine that is run on the
      session's history. */
  lemma {:induction false} RunFollowsFromUnheard(w: World, run: seq<Step>, sid: SessionId)
    requires WorldOk(w) && ValidRun(w, run) && OnePage(run) && Unheard(w.st, sid)
    ensures var h := History(w, run, sid);
      && Idle.InOrder(h) && Agrees(RunTo(w, run).st, sid, Idle.After(h, OnScreen(w.st, sid), |h|))
      && Within(h, w.now, RunTo(w, run).now)
  {
    var h, fg0 := History(w, run, sid), OnScreen(w.st, sid);
    RunAgrees(w, run, sid, Idle.Start(fg0));
    RunInOrder(w, run, sid);
    AfterIsSteps(h, fg0, |h|);
    assert h[..|h|] == h;
  }

  /** From where it is unheard, over any run, a session is unread exactly when its history says so: some
      uncancelled background burst of at least 500 ms was followed by 1500 ms of silence, ended in
      the background, and has not been read since. */
  lemma {:induction false} UnreadExactlyAfterBusyBursts(w: World, run: seq<Step>, sid: SessionId)
    requires WorldOk(w) && ValidRun(w, run) && OnePage(run) && Unheard(w.st, sid)
    ensures var h := History(w, run, sid);
      IsUnread(RunTo(w, run).st.app, sid) <==> Idle.Unread(h, OnScreen(w.st, sid), |h|)
  {
    var h := History(w, run, sid);
    RunFollowsFromUnheard(w, run, sid);
    Idle.UnreadIsHistory(h, OnScreen(w.st, sid), |h|);
  }

  /** The session's burst that ended at `at` is announced: a toast with the title it is listed under
      is pushed, if a workspace lists it. */
  ghost predicate Announced(before: App, after: App, sid: SessionId, at: nat, owner: Option<WorkspaceId>) {
    match owner
    case None => after.toasts == before.toasts
    case Some(w) => exists title ::
      IsTitle(SessionsOf(before, w), sid, title) && Pushed(before.toasts, after.toasts, Toast(sid, at, w, title))
  }

  /** A burst turns the session unread at the last event of its history: a toast with the time of the
      burst's last output is pushed if the session is listed somewhere.  No turn, no change. */
  ghost predicate ToastsTurns(before: App, after: App, h: seq<Idle.Event>, fg0: bool, n: nat, sid: SessionId,
                              owner: Option<WorkspaceId>)
  {
    && (forall j :: Idle.TurnsUnread(h, fg0, j, n) ==>
          IsUnread(after, sid) && Announced(before, after, sid, h[j].at, owner))
    && ((forall j :: !Idle.TurnsUnread(h, fg0, j, n)) ==> after == before)
  }

  /** The machine's notifications at one more event, told from the history. */
  ghost predicate NotedTurns(h: seq<Idle.Event>, fg0: bool, n: nat, had: seq<nat>, has: seq<nat>) {
    && (forall j :: Idle.TurnsUnread(h, fg0, j, n) ==> has == had + [h[j].at])
    && ((forall j :: !Idle.TurnsUnread(h, fg0, j, n)) ==> has == had)
  }

  lemma {:induction false} LastEventNotesTurns(past: seq<Idle.Event>, fg0: bool, e: Idle.Event)
    requires Idle.InOrder(past + [e])
    ensures var m := Idle.After(past, fg0, |past|);
      NotedTurns(past + [e], fg0, |past|, m.notified, Idle.Step(m, e).notified)
  {
    var h, n := past + [e], |past|;
    var next := n + 1;
    SamePast(past, h, fg0, n);
    assert Idle.After(h, fg0, next) == Idle.Step(Idle.After(past, fg0, n), e);
    Idle.NotifiesExactlyTurns(h, fg0, n);
  }

  lemma NotifyAnnounces(app: App, sid: SessionId, at: nat, owner: Option<WorkspaceId>)
    requires !IsUnread(app, sid) && OwnerOk(app, sid, owner)
    ensures var app' := Notify(app, sid, at, owner); IsUnread(app', sid) && Announced(app, app', sid, at, owner)
  {
    if owner.Some? {
      TitleIsFirst(SessionsOf(app, owner.value), sid);
      NotifyPushes(app, sid, at, owner.value);
    }
  }

  /** A toast for each notification is a toast for each turn. */
  lemma NotedAreToasted(before: App, after: App, h: seq<Idle.Event>, fg0: bool, n: nat, sid: SessionId,
                        owner: Option<WorkspaceId>, had: seq<nat>, has: seq<nat>, at: nat)
    requires NotedTurns(h, fg0, n, had, has) && (has == had || has == had + [at])
    requires has == had ==> after == before
    requires has != had ==> IsUnread(after, sid) && Announced(before, after, sid, at, owner)
    ensures ToastsTurns(before, after, h, fg0, n, sid, owner)
  {
    forall j | Idle.TurnsUnread(h, fg0, j, n) ensures has != had && h[j].at == at {
      assert (had + [h[j].at])[|had|] == h[j].at && (had + [at])[|had|] == at;
    }
  }

  lemma {:induction false} FireToastsTurns(st: Store, past: seq<Idle.Event>, fg0: bool, sid: SessionId,
                                           owner: Option<WorkspaceId>)
    requires TimersOk(st) && sid in st.timers && OwnerOk(st.app, sid, owner)
    requires Agrees(st, sid, Idle.After(past, fg0, |past|))
    requires Idle.InOrder(past + [FireEvent(st, sid, owner)])
    ensures ToastsTurns(st.app, FireTimer(st, sid, owner).app, past + [FireEvent(st, sid, owner)], fg0, |past|, sid,
                        owner)
  {
    var e, m := FireEvent(st, sid, owner), Idle.After(past, fg0, |past|);
    LastEventNotesTurns(past, fg0, e);
    FireIsToasted(st, past + [e], fg0, |past|, sid, owner, m);
  }

  lemma FireIsToasted(st: Store, h: seq<Idle.Event>, fg0: bool, n: nat, sid: SessionId, owner: Option<WorkspaceId>,
                      m: Idle.Machine)
    requires TimersOk(st) && sid in st.timers && OwnerOk(st.app, sid, owner) && Agrees(st, sid, m)
    requires NotedTurns(h, fg0, n, m.notified, Idle.Step(m, FireEvent(st, sid, owner)).notified)
    ensures ToastsTurns(st.app, FireTimer(st, sid, owner).app, h, fg0, n, sid, owner)
  {
    var after, has := FireTimer(st, sid, owner).app, Idle.Step(m, FireEvent(st, sid, owner)).notified;
    var at := if sid in st.busy then st.busy[sid].lastByteAt else 0;
    FireFollows(st, sid, owner, m);
    if has != m.notified { NotifyAnnounces(st.app, sid, at, owner); }
    NotedAreToasted(st.app, after, h, fg0, n, sid, owner, m.notified, has, at);
  }

  lemma InOrderSnoc(past: seq<Idle.Event>, e: Idle.Event, lo: nat, hi: nat)
    requires Idle.InOrder(past) && Within(past, lo, hi) && hi <= e.at
    ensures Idle.InOrder(past + [e])
  {
  }

  /** When a timer fires after any run, a toast is pushed for exactly the turns of listed sessions. */
  lemma {:induction false} ToastsAreTurns(w: World, run: seq<Step>, sid: SessionId, owner: Option<WorkspaceId>)
    requires WorldOk(w) && ValidRun(w, run) && OnePage(run) && Unheard(w.st, sid)
    requires Enabled(RunTo(w, run), Fire(sid, owner))
    ensures var before, past := RunTo(w, run).st, History(w, run, sid);
      var h := past + [FireEvent(before, sid, owner)];
      ToastsTurns(before.app, FireTimer(before, sid, owner).app, h, OnScreen(w.st, sid), |past|, sid, owner)
  {
    var end, past, fg0 := RunTo(w, run), History(w, run, sid), OnScreen(w.st, sid);
    RunFollowsFromUnheard(w, run, sid);
    RunKeepsWorld(w, run);
    InOrderSnoc(past, FireEvent(end.st, sid, owner), w.now, end.now);
    FireToastsTurns(end.st, past, fg0, sid, owner);
  }

  lemma {:induction false} SamePast(past: seq<Idle.Event>, h: seq<Idle.Event>, fg0: bool, n: nat)
    requires n <= |past| <= |h| && past == h[..|past|]
    ensures Idle.After(past, fg0, n) == Idle.After(h, fg0, n)
  {
    if n > 0 {
      SamePast(past, h, fg0, n - 1);
      assert past[n - 1] == h[n - 1];
    }
  }

  /** And no action pushes a toast. */
  lemma OnlyTimersToast(w: World, at: nat, a: Action, t: Toast)
    requires Ready(w) && Allowed(w, a) && t in Perform(w, at, a).app.toasts
    ensures t in w.st.app.toasts
  {
    if a != DoOutput(t.sessionId) { ActionsCancelAndReadExactly(w, at, a, t.sessionId); }
  }
}
