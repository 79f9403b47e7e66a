# Verified model of Mansio's session lock, panel store and terminal bridge

Mansio keeps terminal sessions in tmux and shows them in browser windows. This project models the
three parts of it whose correctness depends on histories rather than on single calls, and proves
what they promise over every history:

1. **The cross-window session lock.** Windows announce what they want and when they were last
   focused; each works out on its own which sessions it owns. `SessionLock` is one window, as a
   class and as functions on values; `LockProtocol` is any finite set of windows with one FIFO queue
   per ordered pair; `LockTheorems` and `LockTermination` are what holds of it, and `LockClaims` what a
   window claims over any history and what becomes of a session given up. `LockTiming` follows the
   heartbeat and staleness constants in one window, `LockTimed` puts them under the whole protocol, and
   `LockRecovery` is what a crash costs and for how long.
2. **The panel tree, its persistence and the store.** `PanelTree`, `PanelEdit`, `PanelRestructure`
   and `PanelSplit` are the tree and its operations, `PanelFrames` what they do to directions and sizes,
   `PanelPersistence` the printer and validator over an abstract JSON value, and `StoredFormat` what
   these accept. `AppStore` is the store's state with its actions as functions,
   `StoreObject` the same actions as methods that update a mutable store step by step.
   `StoreEffects` and `StoreRecords` say what each action is for and all that it changes,
   `StoreInvariant` what every action keeps, `StoreRuns` what holds over every run, `StoreReload` what
   a reload brings back, `DragDrop` what a drop does; `LayoutRecords` follows the object identities
   that the persistence subscriber compares. `IdleTracker` is the idle-after-busy notifier against a
   definition over whole histories, and `TrackerRefinement` carries that over to the store.
3. **The tmux attach manager and the WebSocket bridge.** `TmuxManager` has the manager and the
   attach client as classes, `ResizeDedupe` the size cache over whole call sequences, `Bridge` any
   number of concurrent handlers with two pump goroutines each, `BridgeTheorems` what every
   interleaving keeps and how a doomed handler ends, and `BridgeCalls` what the handlers ask of the manager.

Where the original changes things in place, the model is a class or a loop whose contract ties the
new state to a function of the old one; the theorems are about those functions.

To check it all: `dafny verify dfyconfig.toml`. No proof relies on automatic induction: a lemma that
Dafny would try it on carries `{:induction false}` and recurses by hand.

## Assumptions

Session lock:

- Window ids are distinct, and all windows read one clock that never goes backwards. Equal focus
  times are possible and are broken by window id, as in the code.
- In the protocol a window is initialised once (`SessionLock.InitCoherentIff` says exactly when a
  second initialisation would do harm) and says goodbye only when it really closes, possibly more
  than once, since two events send it.
- In `LockProtocol` a heartbeat may forget a peer only if that peer is closed or crashed. `LockTimed`
  derives this from timing: live windows beat at least every 2000 ms, and messages between live
  windows arrive within 4000 ms.

Store:

- Ids of panels come from a generator that never repeats one: an action that makes a node takes the
  new ids as parameters, and a run requires them to be new. Session ids are non-empty: the code's
  truth tests on an id then only ask whether there is one, and so does the model.
- An action that awaits the server is represented by its commit, which runs on whatever the state
  has become; what it read before the await is a parameter. Runs interleave commits freely.
- Timers fire exactly at their deadline, and a timer that is due fires before a later event.
- What is in storage when the page opens was written by this store.

Manager and bridge:

- A body that runs under the manager's mutex is one step. What tmux and the operating system answer
  is a parameter.
- Reading or writing a closed endpoint fails; an open one may succeed or fail.

## Exact conditions and exceptions

- `removeLeaf` undoes `splitLeaf` only on trees whose splits all have at least two children, one
  size per child and sizes summing to 100: on any other tree it rescales or collapses something
  else on the way. `PanelRestructure.RemoveUndoesSplitIff` gives the exact condition.
- `saveLayouts` followed by `loadLayouts` loses a layout exactly when some split in it has fewer
  than two children or a size list of the wrong length (`PanelPersistence.LoadAfterSave`). Every
  layout the store can reach is free of that.
- A window initialised again, with peers left over from before its teardown, does not recompute what
  it owns. The cached set stays right if and only if the page is hidden, or the new focus time wins
  back none of the sessions it had lost (`SessionLock.InitCoherentIff`); `ReinitCanGoStale` is a run
  of five events on which it goes wrong, until an event that does recompute.
- A window may briefly own a session that a higher-ranked window wants in one case besides news on
  its way from that window: neither has heard of the other, and its own greeting, which will be
  answered, is on its way (`LockTheorems.LowerOwnerOnlyWhileNewsTravels`).
- "When all queues are empty every wanted session has exactly one owner" is false while a crashed
  window is remembered: `LockTheorems.CrashLeavesNoOwner` is a run that ends with a wanted session and
  no owner. There is never more than one (`AtMostOneOwner`), and the highest-ranked wanter is the owner
  if and only if it remembers no window that is gone, wanted the session and ranks higher
  (`OwnerIsTopWanter`, and `LockTermination.SettledHasTopOwner` in terms of the state before the
  deliveries). It is over 8000 ms after the last message of the crashed window has arrived
  (`LockRecovery.OwnersComeBack`).

## Model

| member | source | states |
|---|---|---|
| WindowOrder.StringLessTrichotomy | frontend/src/lib/sessionLock.ts:55-57 | of two different window ids exactly one is greater, so ties always break |
| WindowOrder.OutranksTotal | frontend/src/lib/sessionLock.ts:39-43 | of two different windows exactly one outranks the other: the rule is symmetric and deterministic |
| WindowOrder.OutranksTransitive | frontend/src/lib/sessionLock.ts:39-43 | ranking is transitive, so any set of windows has a top |
| LockClaims.RankingRule | frontend/src/lib/sessionLock.ts:39-43 | the window focused later ranks higher whatever the ids; on equal focus times the greater id does |
| LockClaims.FirstDifferenceDecides | frontend/src/lib/sessionLock.ts:55-57 | ids compare by their first different character, and a proper prefix is the smaller one |
| SessionLock.ComputeOwned | frontend/src/lib/sessionLock.ts:44-66 | the nested loop with the early break returns exactly the wanted sessions that no peer wanting them outranks this window for |
| SessionLock.PeersAsPresence | frontend/src/lib/sessionLock.ts:96-102 | exactly one entry per peer and no other, with its focus time and sessions, in some order |
| SessionLock.EventsKeepCoherent | frontend/src/lib/sessionLock.ts:104-250 | claim, release, focus, any message and any heartbeat leave the cached owned set equal to the arbitration over all recorded peers |
| SessionLock.FirstInitKeepsCoherent | frontend/src/lib/sessionLock.ts:181-189 | so does the one initialisation of a window that knows nobody yet |
| SessionLock.InitCoherentIff | frontend/src/lib/sessionLock.ts:181-256 | any initialisation, with whatever peers are left over, keeps the cache right if and only if the page is hidden or every lost session is still lost at the new focus time |
| SessionLock.ReinitCanGoStale | frontend/src/lib/sessionLock.ts:181-272 | a run of open, claim, hear, tear down, open again on which the condition fails and the cache is wrong |
| SessionLock.Lock.constructor | frontend/src/lib/sessionLock.ts:76-94 | a window starts with no claims, no peers and focus time 0 |
| SessionLock.Lock.RecomputeOwned | frontend/src/lib/sessionLock.ts:104-112 | the cache becomes the arbitration, and listeners are told exactly when it changed |
| SessionLock.Lock.Post | frontend/src/lib/sessionLock.ts:126-133 | a message goes out only while the channel is open |
| SessionLock.Lock.ClaimSession | frontend/src/lib/sessionLock.ts:140-145 | whole effect on window, channel and listeners; nothing at all for a session already claimed |
| SessionLock.Lock.ReleaseSession | frontend/src/lib/sessionLock.ts:148-152 | whole effect; nothing at all for a session not claimed |
| SessionLock.Lock.OnFocus | frontend/src/lib/sessionLock.ts:172-176 | whole effect of a focus gain, with its announcement |
| SessionLock.Lock.InitSessionLock | frontend/src/lib/sessionLock.ts:181-256 | nothing at all if already initialised; else the channel opens if the browser has one, and a visible window gains focus without recomputing, then greets |
| SessionLock.Lock.TearDown | frontend/src/lib/sessionLock.ts:256-271 | a goodbye, a closed channel, and claims, peers and cache left as they were |
| SessionLock.Lock.OnMessage | frontend/src/lib/sessionLock.ts:193-213 | whole effect of a presence or goodbye; a reply goes out on first contact only; own messages are ignored |
| SessionLock.Lock.OnHeartbeat | frontend/src/lib/sessionLock.ts:239-250 | whole effect of a tick: announce, then forget exactly the peers not heard for more than STALE_MS |
| SessionLock.Lock.OnPageHide | frontend/src/lib/sessionLock.ts:226-228 | a goodbye goes out and nothing else changes |
| LockClaims.ClaimedIsHistory | frontend/src/lib/sessionLock.ts:140-152 | over every history of one window, a session is claimed if and only if the last claim or release of it was a claim, or there was none and it was claimed to begin with |
| LockClaims.FocusIsHistory | frontend/src/lib/sessionLock.ts:169-176 | and the focus time is that of the last focus gain |
| LockClaims.PostsTellTheNewState | frontend/src/lib/sessionLock.ts:126-213 | whatever is announced is the new state; claims and releases are announced exactly if they change something, focus gains and ticks always, and a presence is answered exactly on first contact |
| LockProtocol.StepKeepsInv | frontend/src/lib/sessionLock.ts:104-272 | every step of every window, delivery, close, crash and tick of the clock keeps: coherent caches, records equal to the last delivered message, the last posted message equal to the sender's state, and first contact either made or under way |
| LockProtocol.RunKeepsInv | frontend/src/lib/sessionLock.ts:104-272 | and so does every run |
| LockClaims.ClaimsAreHistory | frontend/src/lib/sessionLock.ts:140-152 | over every run of any number of windows, what a window claims is what its own opening, claims and releases last said |
| LockTheorems.DeliveredRecordIsTrue | frontend/src/lib/sessionLock.ts:200-206 | once everything a window posted has arrived, the record of it is its true focus time and claims |
| LockTheorems.LowerOwnerOnlyWhileNewsTravels | frontend/src/lib/sessionLock.ts:44-213 | in every reachable state, of two live windows wanting a session the lower-ranked one owns it only while the other's presence is on its way to it, or the two have not met and its greeting is on its way |
| LockTheorems.AtMostOneOwner | frontend/src/lib/sessionLock.ts:44-213 | with nothing in flight between live windows no session has two owners, among any number of windows |
| LockTheorems.GoodbyesLeaveNoGhost | frontend/src/lib/sessionLock.ts:196-199 | a record of a window that is not live belongs to a crashed one or one whose goodbye is under way |
| LockTheorems.OwnerIsTopWanter | frontend/src/lib/sessionLock.ts:39-66 | with nothing in flight between live windows, a window owns a session if and only if it is its highest-ranked wanter and remembers no window that is gone, wanted it and ranks higher |
| LockTheorems.ExactlyOneOwner | frontend/src/lib/sessionLock.ts:39-66 | in such a state every wanted session has exactly one owner, the highest-ranked wanter, if that one remembers no such window; otherwise it has none |
| LockTheorems.CrashLeavesNoOwner | frontend/src/lib/sessionLock.ts:200-250 | a run of six steps, for any two windows and any session, after which a wanted session has no owner: the window focused later crashes once its greeting has arrived |
| LockTheorems.RecordsNeverAhead | frontend/src/lib/sessionLock.ts:200-206 | no record shows a window more recently focused than it is |
| LockTheorems.TakeFocusOwnsAllAtOnce | frontend/src/lib/sessionLock.ts:169-176 | a focus gain that outranks every other window makes the window own all it claims, before any message travels |
| LockTheorems.TakeoverCompletes | frontend/src/lib/sessionLock.ts:169-213 | after any run in which no other window gains focus it owns all it claims by then, and every window that has heard its news has let go of those sessions, unless that window opened meanwhile and its greeting is still unanswered |
| LockTermination.DeliveryDecreases | frontend/src/lib/sessionLock.ts:193-213 | every delivery lowers the measure: N per pair that has not met, 1 per presence and N + 1 per goodbye under way |
| LockTermination.DeliveriesAreBounded | frontend/src/lib/sessionLock.ts:208-211 | a run of deliveries alone is no longer than the measure at its start: replies die out |
| LockTermination.SettlingRun | frontend/src/lib/sessionLock.ts:208-211 | from every state some run of deliveries empties all queues |
| LockTermination.SettledIsExclusive | frontend/src/lib/sessionLock.ts:193-213 | whichever deliveries happen, in whatever order, when none is left no session has two owners |
| LockTermination.SettledHasTopOwner | frontend/src/lib/sessionLock.ts:193-213 | each wanted session then belongs to the window that ranked highest when the deliveries began, or to nobody if and only if a crashed window that this one knows, or has news of on the way, wanted it and outranks it |
| LockTermination.HauntedIffCrashed | frontend/src/lib/sessionLock.ts:200-206 | which windows defer to a crashed one when all is delivered can be told from the state before the deliveries |
| LockClaims.ReleaseHandsOver | frontend/src/lib/sessionLock.ts:148-152 | after a release and the deliveries that follow, the window neither wants nor owns the session; the highest-ranked of the others that want it owns it, unless a crashed window haunts that one |
| LockClaims.ClaimJoinsIn | frontend/src/lib/sessionLock.ts:140-145 | after a claim everybody goes on wanting what they wanted, and the session goes to its highest-ranked wanter under the same condition |
| LockTiming.RecordIsLastHeard | frontend/src/lib/sessionLock.ts:202-206 | `lastSeen` is the time of the last presence heard, over any history |
| LockTiming.SilentWindowIsForgotten | frontend/src/lib/sessionLock.ts:25-28 | a window not heard after a moment is forgotten 8000 ms after it, for any tick phase and any other traffic |
| LockTiming.LiveWindowIsNeverForgotten | frontend/src/lib/sessionLock.ts:239-250 | a window that beats every 2000 ms with delays of at most 4000 ms is known from the first time it is heard, for ever |
| LockTimed.LiveIsFresh | frontend/src/lib/sessionLock.ts:25-28 | a live window that a live window knows was heard by it within 6000 ms: two seconds between posts and four on the way |
| LockTimed.HeartbeatIsEnabled | frontend/src/lib/sessionLock.ts:239-250 | so at every heartbeat only windows that are really gone look stale: the premise the protocol asks for |
| LockTimed.TimedRunsAreRuns | frontend/src/lib/sessionLock.ts:25-28 | every timed run, of any number of windows, is a run of the protocol to the same state, so all its theorems hold |
| LockTimed.NoLiveWindowIsStale | frontend/src/lib/sessionLock.ts:239-250 | from the first window on, no live window is ever stale to a live one that knows it |
| LockRecovery.RememberedIsRecent | frontend/src/lib/sessionLock.ts:239-250 | in every timed run, whatever a live window remembers was heard in the last 8000 ms |
| LockRecovery.GoneIsForgotten | frontend/src/lib/sessionLock.ts:239-250 | a window that is gone, with or without a goodbye, is forgotten by every window 8000 ms after its last message has arrived everywhere |
| LockRecovery.OwnersComeBack | frontend/src/lib/sessionLock.ts:25-28 | so 8000 ms after that, with nothing left to deliver, every wanted session has exactly one owner again, whatever crashed before |
| PanelTree.FindsFirstById | frontend/src/lib/panelLayout.ts:51-58 | the search by id returns the first such leaf in reading order, and null only if there is none |
| PanelTree.FindsFirstBySession | frontend/src/lib/panelLayout.ts:60-67 | the same for the search by session |
| PanelTree.FirstLeafIsFirst | frontend/src/lib/panelLayout.ts:80-83 | descending to the first child ends at the first of the listed leaves |
| PanelTree.FindsThatLeaf | frontend/src/lib/panelLayout.ts:51-58 | with distinct ids, looking up a leaf's id finds that very leaf |
| PanelTree.ShownInOrder | frontend/src/lib/panelLayout.ts:74-78 | the visible sessions are listed in reading order |
| PanelEdit.MapTreeLeaves | frontend/src/lib/panelLayout.ts:85-135 | the leaves stay in place with their ids, and each session changes exactly as the edit says |
| PanelEdit.MapTreeKeepsNodes | frontend/src/lib/panelLayout.ts:85-135 | no edit adds, drops or renames a node, and shape is neither lost nor gained |
| PanelEdit.SessionEditKeepsFrame | frontend/src/lib/panelLayout.ts:93-135 | setting, detaching and pruning sessions leave every id, direction and size alone |
| PanelEdit.MapObjShares | frontend/src/lib/panelLayout.ts:85-91 | on objects with identity, every subtree whose content did not change is the same object in the result |
| PanelEdit.SameObjectIffSameContent | frontend/src/lib/panelLayout.ts:85-135 | the same object comes back if and only if no content changed, so reference comparison never misses or invents a change |
| LayoutRecords.EditRecordExact | frontend/src/stores/appStore.ts:872-876 | the record of layouts is replaced exactly if the edited layout's content changed, and no other layout's object is |
| LayoutRecords.ResizeIsSeen | frontend/src/stores/appStore.ts:866-878 | after a resize the subscriber's reference test says "changed" exactly if the store's layouts changed |
| LayoutRecords.DetachFromRecords | frontend/src/stores/appStore.ts:418-427 | the loop over all workspaces rebuilds the record exactly if it changes the content of some layout |
| LayoutRecords.DeleteFromRecords | frontend/src/stores/appStore.ts:418-452 | the same for a whole deletion, with the refill of the focused leaf: the record is another object exactly if some layout changed |
| LayoutRecords.RefillChanges | frontend/src/stores/appStore.ts:432-452 | refilling never puts back what the deletion took out |
| PanelRestructure.ReplaceNodeLoop | frontend/src/lib/panelLayout.ts:137-155 | the loop with its `changed` flag computes the recursive replacement, null where nothing was replaced |
| PanelRestructure.RemoveLeafLoop | frontend/src/lib/panelLayout.ts:177-196 | the loop that collects survivors computes the recursive removal |
| PanelRestructure.RescaledSum | frontend/src/lib/panelLayout.ts:190-194 | rescaled sizes sum to 100 on either branch |
| PanelRestructure.RemoveLeafLeaves | frontend/src/lib/panelLayout.ts:177-196 | for any tree, the leaves left are the old ones in order minus the removed id |
| PanelRestructure.RemoveLeafNullIff | frontend/src/lib/panelLayout.ts:174-196 | for any tree, null exactly when no other leaf exists |
| PanelRestructure.RemoveLeafWellSized | frontend/src/lib/panelLayout.ts:188-195 | for any tree, every split left has at least two children and sizes summing to 100 |
| PanelRestructure.SiblingsKeepRatios | frontend/src/lib/panelLayout.ts:190-194 | surviving siblings keep their size ratios when their total is positive |
| PanelRestructure.RemoveLeafIds | frontend/src/lib/panelLayout.ts:177-196 | removal adds no node and duplicates none |
| PanelRestructure.RemoveAbsentIff | frontend/src/lib/panelLayout.ts:177-196 | removing an id that is not there returns the same tree exactly if the tree was well sized |
| PanelRestructure.SplitThenRemove | frontend/src/lib/panelLayout.ts:157-196 | splitting a leaf and removing the new one equals removing an absent leaf, for any direction and placement |
| PanelRestructure.RemoveUndoesSplitIff | frontend/src/lib/panelLayout.ts:157-196 | removal undoes the split, sizes included, if and only if the tree was well sized |
| PanelFrames.RemovedFromSplit | frontend/src/lib/panelLayout.ts:177-196 | for any tree, a split keeps exactly the children that keep a leaf, in order; with none it goes, one takes its place, and otherwise it keeps its id and direction and its sizes become percentages in proportion to the old ones, or equal ones if those have no positive total |
| PanelSplit.SplitLeafLeaves | frontend/src/lib/panelLayout.ts:157-172 | one empty leaf appears directly before or after the target; no other leaf moves or changes |
| PanelSplit.SplitLeafIds | frontend/src/lib/panelLayout.ts:157-172 | exactly the two new ids are added |
| PanelSplit.SplitLeafNullIff | frontend/src/lib/panelLayout.ts:164-170 | for any tree, null exactly when no leaf has the id |
| PanelSplit.SplitLeafDirection | frontend/src/lib/panelLayout.ts:166-169 | the split that holds the new leaf has the requested direction |
| PanelFrames.SplitLeafFrames | frontend/src/lib/panelLayout.ts:157-172 | the new split has the requested direction and two equal sizes that sum to 100; every other split keeps its direction and sizes |
| PanelFrames.EditFrame | frontend/src/lib/panelLayout.ts:85-135 | resizing changes the sizes of the named split, if they are as many as before; no other edit touches any split |
| PanelInvariant.MoveSessionOk | frontend/src/stores/appStore.ts:837-840 | detaching a session and setting it on an existing leaf keeps the layout well-formed, each session in one place, and makes it the derived active session |
| PanelInvariant.SplitLeafOk | frontend/src/lib/panelLayout.ts:157-172 | splitting succeeds exactly on an existing leaf and keeps the layout well-formed with the new leaf as a valid, empty focus |
| PanelInvariant.RemoveLeafOk | frontend/src/lib/panelLayout.ts:177-196 | removal keeps distinct ids, one place per session, and shape |
| PanelInvariant.RemoveLeafKeepsOthers | frontend/src/stores/appStore.ts:746-750 | every leaf but the removed one is still found afterwards |
| PanelPersistence.EncodeDecode | frontend/src/lib/panelLayout.ts:198-222 | the validator accepts the written form of a tree exactly if its splits are well shaped, and reading it back gives the same tree |
| PanelPersistence.ValidIsShaped | frontend/src/lib/panelLayout.ts:198-222 | whatever the validator accepts, whoever wrote it, is a well-shaped tree |
| PanelPersistence.LoadLayoutsLoop | frontend/src/lib/panelPersistence.ts:23-45 | the loop over entries keeps exactly the valid ones; nothing stored, unparsable text or a wrong version give none |
| PanelPersistence.LoadAfterSave | frontend/src/lib/panelPersistence.ts:23-55 | loading after saving returns what was saved, for every workspace, if and only if all layouts are well shaped |
| PanelPersistence.LoadedIsShaped | frontend/src/lib/panelPersistence.ts:31-40 | a loaded layout is well shaped whatever is in storage |
| PanelPersistence.ReconcileOk | frontend/src/lib/panelPersistence.ts:66-77 | the reconciled layout is well-formed with an existing focus, keeps every node and an existing focus, and loses exactly the sessions that are gone |
| StoredFormat.AcceptedIff | frontend/src/lib/panelLayout.ts:198-223 | a value is accepted and read as a tree if and only if the tree is well shaped and the value has all that is written for it, with the same values; other properties do not matter |
| StoredFormat.LoadedIff | frontend/src/lib/panelPersistence.ts:23-45 | a workspace is loaded with a layout and focus if and only if the stored value so extends a file of version 1 with that entry |
| StoredFormat.TwoPanelsSpelledOut | frontend/src/lib/panelLayout.ts:7-20 | what is written for two panels side by side, property by property |
| IdleTracker.TracksHistory | frontend/src/stores/appStore.ts:573-591 | after any history the busy track is the start and end of the one burst still open, or absent if none is |
| IdleTracker.UnreadIsHistory | frontend/src/stores/appStore.ts:562-640 | the machine's unread flag equals the definition over the whole history: a maximal uncancelled background burst with gaps under 1500 ms, spanning at least 500 ms, followed by 1500 ms of silence, still in the background, not read since |
| IdleTracker.NotifiesExactlyTurns | frontend/src/stores/appStore.ts:600-602 | the machine notifies for exactly the bursts that turn the session unread, once each, stamped with the last output |
| StoreInvariant.PushedToast | frontend/src/stores/appStore.ts:631-632 | a new toast replaces the session's old one and keeps the list at five at most, one per session |
| StoreInvariant.InitKeepsInv | frontend/src/stores/appStore.ts:177-241 | init establishes focus, distinct ids, one place per session and the derived active session from any loaded layouts |
| StoreInvariant.CreateWorkspaceKeepsInv | frontend/src/stores/appStore.ts:248-262 | the commit keeps the store's invariant in whatever state it finds |
| StoreInvariant.DeleteWorkspaceKeepsInv | frontend/src/stores/appStore.ts:264-303 | likewise |
| StoreInvariant.SetActiveWorkspaceKeepsInv | frontend/src/stores/appStore.ts:312-357 | likewise, with the session list read before the await |
| StoreInvariant.CreateSessionKeepsInv | frontend/src/stores/appStore.ts:381-409 | likewise |
| StoreInvariant.DeleteSessionKeepsInv | frontend/src/stores/appStore.ts:411-487 | likewise |
| StoreInvariant.SetActiveSessionKeepsInv | frontend/src/stores/appStore.ts:505-555 | likewise |
| StoreInvariant.OutputKeepsInv | frontend/src/stores/appStore.ts:562-584 | likewise; the timer and track maps keep equal keys |
| StoreInvariant.FireKeepsInv | frontend/src/stores/appStore.ts:586-638 | a timer callback keeps it too |
| StoreInvariant.ReadingKeepsInv | frontend/src/stores/appStore.ts:642-689 | so does marking any set of sessions read |
| StoreInvariant.DismissKeepsInv | frontend/src/stores/appStore.ts:691-696 | so does dismissing a toast |
| StoreInvariant.SplitPanelKeepsInv | frontend/src/stores/appStore.ts:698-718 | so does splitting a panel |
| StoreInvariant.ClosePanelKeepsInv | frontend/src/stores/appStore.ts:738-786 | so does closing one, even if the layout or active workspace changed during the await |
| StoreInvariant.FocusPanelKeepsInv | frontend/src/stores/appStore.ts:789-826 | so does focusing one |
| StoreInvariant.AssignSessionKeepsInv | frontend/src/stores/appStore.ts:828-864 | so does assigning a session |
| StoreInvariant.ResizeKeepsInv | frontend/src/stores/appStore.ts:866-878 | so does resizing, with any sizes |
| StoreEffects.ActivatedIsShown | frontend/src/stores/appStore.ts:505-555 | the session becomes active and read; it takes the focused leaf's place, no other leaf changing, unless some leaf shows it already, and then no layout changes |
| StoreEffects.CreatedIsShown | frontend/src/stores/appStore.ts:381-409 | the new session is listed last and shown in its workspace's focused leaf, every other leaf and layout unchanged |
| StoreEffects.DeletedIsGone | frontend/src/stores/appStore.ts:411-487 | the active workspace no longer lists the session, and no mark, toast or timer of it is left; in other workspaces only its own leaf is cleared |
| StoreEffects.DeletedInActive | frontend/src/stores/appStore.ts:432-452 | in the active workspace no leaf shows it, and the first remaining session moves into the focused leaf exactly if that leaf is left empty |
| StoreEffects.ClosedIsGone | frontend/src/stores/appStore.ts:743-750 | the leaves are the old ones minus the closed one, or one new empty leaf; the focus stays if its leaf does and else goes to the first leaf |
| StoreEffects.ClosedIsForgotten | frontend/src/stores/appStore.ts:752-775 | nothing is remembered of the session the closed panel showed, and no other session's marks change |
| StoreEffects.FocusedIsActive | frontend/src/stores/appStore.ts:789-826 | what the newly focused leaf shows is active and read, layouts unchanged; an unknown panel changes nothing |
| StoreEffects.OpenedIsActive | frontend/src/stores/appStore.ts:312-357 | a workspace is shown with the layout it had, or a first leaf; what its focused leaf shows is active and read |
| StoreEffects.WorkspaceIsGone | frontend/src/stores/appStore.ts:264-303 | nothing of a deleted workspace or its listed sessions is left; the others keep layout and focus; the first one left becomes active |
| StoreEffects.VisibleAreRead | frontend/src/stores/appStore.ts:660-689 | coming back to the page reads exactly the sessions the active layout shows |
| StoreEffects.ResizedIsSized | frontend/src/stores/appStore.ts:866-878 | the named split takes the new sizes if they are as many as before; every other split and every leaf stays |
| StoreEffects.ForegroundIsOnScreen | frontend/src/stores/appStore.ts:153-163 | a session counts as visible exactly if the page is visible and a leaf of the active workspace shows it, or, while that has no layout, it is the active session |
| StoreRecords.InitRecords | frontend/src/stores/appStore.ts:177-241 | lists as fetched, the first workspace active, the first session of each noted, a layout and focus for each and for no other |
| StoreRecords.InitIsShown | frontend/src/stores/appStore.ts:230-241 | what the first workspace's focused leaf shows is active |
| StoreRecords.InitUnsaved | frontend/src/stores/appStore.ts:221-226 | a workspace with nothing saved gets one leaf with its first session, or an empty one |
| StoreRecords.ListsRefreshed | frontend/src/stores/appStore.ts:359-379 | replacing a list replaces that list and nothing else |
| StoreRecords.WorkspaceCreated | frontend/src/stores/appStore.ts:248-262 | the new workspace is listed last with its one session, noted, shown, active and focused; nothing else changes |
| StoreRecords.WorkspaceDeleted | frontend/src/stores/appStore.ts:264-303 | the other workspaces stay in order with their lists, notes, layouts and focus; exactly the listed sessions are forgotten; the first workspace left is active, with what its focused leaf shows |
| StoreRecords.WorkspaceOpened | frontend/src/stores/appStore.ts:312-357 | its list is the one at hand, no other changes; what is active is noted and read, and nothing else |
| StoreRecords.WorkspaceOpenedFirst | frontend/src/stores/appStore.ts:319-328 | a workspace opened for the first time has its one leaf focused and its first session active |
| StoreRecords.SessionCreated | frontend/src/stores/appStore.ts:381-409 | the session is listed last in its workspace and noted there; no other list, note or mark changes |
| StoreRecords.SessionDeleted | frontend/src/stores/appStore.ts:411-487 | the list of the active workspace loses exactly that session and keeps its order; a note of it passes to the first one left; nothing else is forgotten; without an active workspace only its tracking stops |
| StoreRecords.SessionActivated | frontend/src/stores/appStore.ts:505-555 | noted, read and active, also without a layout; lists and other marks stay |
| StoreRecords.OutputRecorded | frontend/src/stores/appStore.ts:562-590 | output of a session on screen stops its tracking; of any other it starts or prolongs its burst, with 1500 ms to go; the state itself does not change |
| StoreRecords.TimerRecorded | frontend/src/stores/appStore.ts:592-640 | the callback reports exactly a burst of 500 ms or more of a session that is off screen and not unread: it is unread as of its last output, and a toast with the title it is listed under is last, after the at most four latest others |
| StoreRecords.MarksCleared | frontend/src/stores/appStore.ts:642-689 | reading keeps the record but for its flag, takes out exactly the toasts of those sessions and stops their tracking |
| StoreRecords.VisibleIsOnScreen | frontend/src/stores/appStore.ts:663-671 | what coming back to the page reads is exactly what is then on screen |
| StoreRecords.ToastDismissed | frontend/src/stores/appStore.ts:691-696 | exactly the toast of that session and time goes |
| StoreRecords.PanelSplitUp | frontend/src/stores/appStore.ts:698-718 | an empty focused leaf beside the panel, in a split of equal halves; no session active; no other split, list, note or mark changes |
| StoreRecords.NoPanelToSplit | frontend/src/stores/appStore.ts:698-707 | without a layout or such a leaf nothing changes at all |
| StoreRecords.PanelClosed | frontend/src/stores/appStore.ts:735-787 | the captured session leaves the list in order, its note passes on and it alone is forgotten; without one only layout, focus and active session change |
| StoreRecords.ClosedIsShown | frontend/src/stores/appStore.ts:735-787 | what the leaf then focused shows is active |
| StoreRecords.PanelFocused | frontend/src/stores/appStore.ts:789-826 | what the leaf shows is noted and read; lists and other marks stay |
| StoreRecords.SessionAssigned | frontend/src/stores/appStore.ts:828-864 | the session moves to the leaf and is focused, active, noted and read, and no split changes; without such a leaf only its tracking stops |
| StoreRecords.OnlyLayoutResized | frontend/src/stores/appStore.ts:866-878 | a resize changes one layout and nothing else |
| StoreRuns.StepKeepsWorld | frontend/src/stores/appStore.ts:897-916 | every action, timer and reload keeps the invariant and keeps storage equal to the current layouts |
| StoreRuns.RunKeepsWorld | frontend/src/stores/appStore.ts:177-878 | over every run, with commits and timers interleaved in any order: layouts well-formed, focus existing, active session derived, toast and timer rules, storage in step |
| StoreRuns.BeginOk | frontend/src/stores/appStore.ts:165-175 | a page opened on empty storage is where such runs start |
| StoreReload.WorkspaceRestored | frontend/src/stores/appStore.ts:205-229 | one saved layout comes back with its ids, directions, sizes and focus; dead sessions are cleared; the first session is seeded only if none is left alive |
| StoreReload.ReloadRoundTrip | frontend/src/stores/appStore.ts:202-229 | reload followed by init does that for every workspace of every reachable store |
| TrackerRefinement.ActionsCancelAndReadExactly | frontend/src/stores/appStore.ts:248-878 | every action cancels tracks and clears marks of exactly the sessions told from the action and the state it finds (polling, creating, splitting, resizing none), starts no track, sets no mark and adds no toast |
| TrackerRefinement.FireFollows | frontend/src/stores/appStore.ts:586-638 | the timer callback changes the store exactly when the session's machine notifies, and then as a notification does |
| TrackerRefinement.UnreadExactlyAfterBusyBursts | frontend/src/stores/appStore.ts:562-640 | over every run within one page's life, from any state in which the session has no track and is not unread, it is unread exactly when the history of its outputs, the actions' cancels and reads, and its visibility says so |
| TrackerRefinement.ReloadForgets | frontend/src/stores/appStore.ts:165-175 | a page that opens or is reloaded starts with every session in that state, and in the background |
| TrackerRefinement.ToastsAreTurns | frontend/src/stores/appStore.ts:600-637 | when a timer fires after any such run, a toast with the burst's last output time is pushed for exactly the turns to unread of listed sessions, and otherwise nothing changes |
| TrackerRefinement.OnlyTimersToast | frontend/src/stores/appStore.ts:248-878 | no action pushes a toast |
| DragDrop.EdgeDrop | frontend/src/App.tsx:162-204 | dropping a tab on an edge: the old leaf sequence with the session cleared from its old leaf and one new leaf showing it right before or after the target, in a split of the zone's direction, focused and active |
| DragDrop.CenterDrop | frontend/src/App.tsx:197-200 | dropping it on the centre moves the session there and clears it elsewhere |
| DragDrop.OwnLeafDrop | frontend/src/App.tsx:184-195 | dropping it on the leaf that shows it changes nothing at all, in any zone |
| DragDrop.EdgeDropRecords | frontend/src/App.tsx:162-204 | an edge drop splits the target's space in two equal parts in the zone's direction, touches no other split, and notes and reads the session |
| DragDrop.IgnoredDrop | frontend/src/App.tsx:162-190 | what is no tab, lacks a target or zone, or names a leaf that is not there changes nothing on an edge |
| StoreObject.AppState.CancelIdleTracking | frontend/src/stores/appStore.ts:58-65 | timer and track of the session are gone, all others kept |
| StoreObject.AppState.InitStore | frontend/src/stores/appStore.ts:183-240 | the loops over workspaces build exactly the specified state, and the invariant holds |
| StoreObject.AppState.RemoveWorkspaceState | frontend/src/stores/appStore.ts:266-302 | the same for deleting a workspace, with its loop over the removed sessions |
| StoreObject.AppState.ShowWorkspace | frontend/src/stores/appStore.ts:318-356 | the same for switching workspace |
| StoreObject.AppState.AddSession | frontend/src/stores/appStore.ts:383-408 | the same for creating a session |
| StoreObject.AppState.RemoveSessionState | frontend/src/stores/appStore.ts:413-486 | the same for deleting one, with its loop over all layouts |
| StoreObject.AppState.ActivateSession | frontend/src/stores/appStore.ts:505-555 | the same for activating one |
| StoreObject.AppState.OnSessionOutput | frontend/src/stores/appStore.ts:562-584 | the same for an output chunk |
| StoreObject.AppState.OnTimer | frontend/src/stores/appStore.ts:586-638 | the same for the timer callback, with its search for the owning workspace |
| StoreObject.AppState.MarkOneRead | frontend/src/stores/appStore.ts:642-658 | the same for reading one session |
| StoreObject.AppState.MarkVisibleRead | frontend/src/stores/appStore.ts:663-689 | the same for reading all visible sessions, with its loops |
| StoreObject.AppState.SplitActivePanel | frontend/src/stores/appStore.ts:698-718 | the same for splitting, and the id returned is the new leaf's |
| StoreObject.AppState.FinishClosePanel | frontend/src/stores/appStore.ts:735-786 | the same for the commit of closing a panel |
| StoreObject.AppState.FocusOn | frontend/src/stores/appStore.ts:789-826 | the same for focusing |
| StoreObject.AppState.Assign | frontend/src/stores/appStore.ts:828-864 | the same for assigning a session |
| StoreObject.AppState.Resize | frontend/src/stores/appStore.ts:866-878 | the same for resizing |
| StoreObject.AppState.OnDragEnd | frontend/src/App.tsx:162-204 | the calls in sequence with their early returns have the effect the drop theorems are about |
| StoreObject.CollectLayouts | frontend/src/stores/appStore.ts:907-913 | the loop collects every layout with its focus for saving |
| TmuxManager.OneOpenClientEach | internal/tmux/manager.go:80-89 | two open attach clients of one session id are the same client |
| TmuxManager.AttachKeeps | internal/tmux/manager.go:90-120 | attaching keeps: open clients are exactly those in the map, under their own id, closed ones killed exactly once |
| TmuxManager.DetachKeeps | internal/tmux/manager.go:128-143 | so does detaching with any reference, stale or not |
| TmuxManager.EvictKeeps | internal/tmux/manager.go:186-199 | so does killing a session |
| TmuxManager.ShutdownKeeps | internal/tmux/manager.go:248-256 | so does shutdown, after which no client is open |
| TmuxManager.EvictThenShutdown | internal/tmux/manager.go:252-255 | the order in which shutdown walks the map makes no difference |
| TmuxManager.DetachTouchesOnlyItsClient | internal/tmux/manager.go:122-143 | a detach closes its own client, changes no other client and no other slot, and does nothing if the client was closed already |
| TmuxManager.Session.constructor | internal/tmux/session.go:20-42 | a new attach client is open and its process not killed |
| TmuxManager.Session.Close | internal/tmux/session.go:59-73 | closes the pty and kills the process on the first call only |
| TmuxManager.Session.ClosePTMX | internal/tmux/session.go:82-91 | closes the pty alone, and nothing once closed |
| TmuxManager.Manager.constructor | internal/tmux/manager.go:43-57 | both maps start empty |
| TmuxManager.Manager.AttachTo | internal/tmux/manager.go:90-120 | fails exactly on a failed creation or start, then with no change; else a new client takes the slot, a prior one is closed, and `recreated` tells whether the tmux session was missing |
| TmuxManager.Manager.DetachFrom | internal/tmux/manager.go:128-143 | compare-and-close: frees the slot only if it holds the caller's client, closes that client regardless, does nothing for nil |
| TmuxManager.Manager.KillSession | internal/tmux/manager.go:186-199 | closes whatever holds the slot, frees it, and drops the cached size |
| TmuxManager.Manager.ResizeTo | internal/tmux/manager.go:157-180 | asks tmux unless the size is the cached one, caches it only if tmux agreed, reports exactly tmux's failures |
| TmuxManager.Manager.ShutdownAll | internal/tmux/manager.go:248-256 | the closing and deleting loop, in any order, closes every client in the map and empties it |
| ResizeDedupe.CacheIsLastSuccess | internal/tmux/manager.go:157-199 | over any calls, also on other sessions, a request is skipped exactly if it asks for the size of the last successful shell-out since the last kill |
| ResizeDedupe.OneLastSuccess | internal/tmux/manager.go:157-199 | there is at most one such shell-out |
| ResizeDedupe.CommandsAreDedupedRequests | internal/tmux/manager.go:157-199 | if tmux accepts every resize of a session, its commands are the requests with adjacent repeats removed between kills |
| ResizeDedupe.DedupeRemovesRepeats | internal/tmux/manager.go:32-36 | that reference leaves no adjacent repeats and changes nothing where there are none |
| Bridge.StepKeepsInv | internal/ws/handler.go:54-159 | every step of any goroutine of any handler, and every kill and shutdown, keeps the manager's invariant, one client per handler, and the once, pump and endpoint conditions |
| Bridge.RunKeepsInv | internal/ws/handler.go:54-159 | and so does every interleaving |
| BridgeTheorems.OpenClientsAreTheSlots | internal/tmux/manager.go:80-143 | in every interleaving the open clients are exactly the map's values, at most one per id, each of a handler that has not detached |
| BridgeTheorems.OnlyTheseCloseAClient | internal/tmux/manager.go:110-143 | a client is closed exactly by its own handler's detach, a newer attach or kill of its id, or shutdown: never by a stale detach |
| BridgeTheorems.StaleDetachChangesNothing | internal/tmux/manager.go:122-143 | a detach by a handler whose client is closed leaves the manager as it was |
| BridgeTheorems.WhatDoomsAHandler | internal/ws/handler.go:93-109 | a handler becomes doomed exactly by a failed read or write of its own or by someone closing its client |
| BridgeTheorems.ActorCanMove | internal/ws/handler.go:98-158 | a doomed handler that has not finished always has a designated goroutine that is not blocked |
| BridgeTheorems.StepTowardsTheEnd | internal/ws/handler.go:98-158 | no step of anyone saves it or sets it back, and each step of the designated goroutine brings it nearer |
| BridgeTheorems.DoomedHandlersFinish | internal/ws/handler.go:84-159 | it finishes after at most eight such steps, with the process killed exactly once and socket and pty closed |
| BridgeTheorems.KilledAtMostOnce | internal/tmux/session.go:59-91 | over every interleaving of closes, a process is killed once if its client is closed and not at all otherwise |
| BridgeTheorems.WhenEndpointsAreClosed | internal/ws/handler.go:98-109 | once the guarded shutdown has run, or the handler has finished, both endpoints are closed |
| BridgeTheorems.NextBlockingCallFails | internal/ws/handler.go:111-156 | from then on the next read or write of either pump fails, and each of its steps is one nearer its stop |
| BridgeTheorems.SomePumpCanMove | internal/ws/handler.go:98-109 | a pump that has not stopped can move, or waits for the other one inside the once, which can |
| BridgeTheorems.PumpsStop | internal/ws/handler.go:111-156 | a pump takes at most six more steps and has then stopped |
| BridgeCalls.RunIsCalls | internal/ws/handler.go:80-156 | in every interleaving the manager's state is that of the calls the steps make: attach, detach, kill, shutdown, resize, and closing a pty |
| BridgeCalls.HandlersAreDeduped | internal/ws/handler.go:143-148 | so in every interleaving a size is skipped exactly if it was the session's last successful one since its last kill, and accepted commands are the handlers' requests without adjacent repeats |
| BridgeCalls.ResizeMessage | internal/ws/handler.go:143-148 | a resize message with both sides positive that tmux accepts leaves that size cached for that session alone; one with a zero side changes nothing |
| BridgeCalls.ReadsAreDealtWith | internal/ws/handler.go:114-156 | over every run a pump has sent or handled everything it read, but for the item it is busy with |

## Left out

- Bridge.StepKeepsInv: the goroutines are steps of a state machine on values, not threads of imperative code, because a run is any interleaving of them; what one step does between two blocking points is atomic. A connection whose attach fails is a step that touches nothing shared.
- Bridge.RunKeepsInv: message contents are not represented, only whether handling one changes the size cache, answers a ping, or does neither; resizing the pty itself is not part of this model.
- LockTiming.LiveWindowIsNeverForgotten: no drift between the windows' clocks and no throttling of background timers by the browser.
- LockProtocol.RunKeepsInv: windows in a browser without BroadcastChannel, which post and hear nothing, take no part in the protocol; listeners that call back into the lock.
- TrackerRefinement.UnreadExactlyAfterBusyBursts: a history does not reach back past a reload, which loses all marks and timers; the run after it is covered.
- StoreReload.ReloadRoundTrip: other windows that write the same storage key in between, and storage that is full or blocked.
- PanelPersistence.EncodeDecode: JSON text; the model starts from the parsed value. Properties a node does not use are dropped on reading, while the code keeps them; a stored `workspaces` that is a JSON array counts as none.
- PanelRestructure.SiblingsKeepRatios: sizes are reals, so floating-point rounding is not modelled.
- LayoutRecords.ResizeIsSeen: object identity is followed for the two actions that compare references before they commit; the others return the old state or build new records, which at worst makes the subscriber save once more.
- StoreObject.AppState.FinishClosePanel: the early returns before the await are not part of the commit; a toast is named by session and time instead of by the string made of the two.
- "The active workspace is listed", "every session in a layout is listed" and "a visible session is never unread" are not claimed: polling, late commits and focus fallbacks break them.
- Agreement of the cached size with tmux's real window size: attaching can recreate a tmux session without clearing the cache.
- Socket ownership in `useTerminal.ts`, xterm.js, and input methods.
- REST handlers, SQLite, authentication, uploads and server routing.
- React components, themes, and the classification of a drop position into a zone.
- `GetCwd`, listing tmux sessions, socket labels and tmux configuration.
