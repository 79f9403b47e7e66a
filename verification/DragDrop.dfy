/** Dropping a dragged tab on a panel. */
module DragDrop {
  import opened Wrappers
  import opened PanelTree
  import opened PanelEdit
  import opened PanelRestructure
  import opened PanelSplit
  import opened PanelInvariant
  import opened PanelPersistence
  import opened AppStore
  import opened StoreInvariant
  import opened StoreRecords
  import opened PanelFrames

  datatype DropZone = Top | Bottom | Left | Right | Center

  function ZoneDirection(zone: DropZone): Direction {
    if zone.Top? || zone.Bottom? then Column else Row
  }

  function ZonePlacement(zone: DropZone): Placement {
    if zone.Top? || zone.Left? then Before else After
  }

  /** What the drag library reports, as far as it is filled in. */
  datatype Drop = Drop(isTab: bool, session: Option<SessionId>, leafId: Option<PanelId>, zone: Option<DropZone>)

  /** The tab is already on the leaf it is dropped on. */
  predicate OwnLeaf(app: App, sid: SessionId, leafId: PanelId) {
    match LookupLayout(app, app.activeWorkspace)
    case None => false
    case Some(layout) =>
      var source := FindLeafBySession(layout, sid);
      source.Some? && source.value.id == leafId
  }

  /** splitPanel's return value. */
  function SplitPanelResult(st: Store, panelId: PanelId, dir: Direction, placement: Placement,
                            newLeafId: PanelId, newSplitId: PanelId): Option<PanelId>
  {
    match LookupLayout(st.app, st.app.activeWorkspace)
    case None => None
    case Some(layout) =>
      match SplitLeaf(layout, panelId, dir, placement, newLeafId, newSplitId)
      case None => None
      case Some(r) => Some(r.newLeafId)
  }

  function HandleDragEnd(st: Store, drop: Drop, newLeafId: PanelId, newSplitId: PanelId): Store {
    if !drop.isTab || drop.session.None? || drop.leafId.None? || drop.zone.None? then st
    else
      var sid, leafId, zone := drop.session.value, drop.leafId.value, drop.zone.value;
      if OwnLeaf(st.app, sid, leafId) then st
      else if zone.Center? then AssignSession(st, leafId, sid)
      else
        var dir, placement := ZoneDirection(zone), ZonePlacement(zone);
        var made := SplitPanelResult(st, leafId, dir, placement, newLeafId, newSplitId);
        var st' := SplitPanel(st, leafId, dir, placement, newLeafId, newSplitId);
        if made.Some? then AssignSession(st', made.value, sid) else st'
  }

  // ---------------------------------------------------------------------------------------

  lemma ActiveLayout(st: Store, layout: PanelNode)
    requires Inv(st) && LookupLayout(st.app, st.app.activeWorkspace) == Some(layout)
    ensures TreeOk(layout)
  {
  }

  /** A session shown by a leaf is found at that leaf. */
  lemma {:induction false} OwnLeafIff(layout: PanelNode, i: nat, sid: SessionId)
    requires TreeOk(layout) && i < |Leaves(layout)|
    ensures (FindLeafBySession(layout, sid).Some? && FindLeafBySession(layout, sid).value.id == Leaves(layout)[i].id)
        <==> Shows(Leaves(layout)[i], sid)
  {
    var ls := Leaves(layout);
    FindsFirstBySession(layout, sid);
    DistinctGivesDistinctLeaves(layout);
    if FindLeafBySession(layout, sid).Some? {
      FoundBySession(layout, sid);
      var k :| 0 <= k < |ls| && ls[k] == FindLeafBySession(layout, sid).value;
      if Shows(ls[i], sid) { assert k == i; }
    }
  }

  function ClearedLeaf(l: PanelNode, sid: SessionId): PanelNode
    requires l.Leaf?
  {
    if l.session == Some(sid) then Leaf(l.id, None) else l
  }

  function ClearedLeaves(ls: seq<PanelNode>, sid: SessionId): seq<PanelNode>
    requires forall i | 0 <= i < |ls| :: ls[i].Leaf?
  {
    seq(|ls|, i requires 0 <= i < |ls| => ClearedLeaf(ls[i], sid))
  }

  /** The leaf list a drop on an edge asks for. */
  ghost predicate Dropped(ls: seq<PanelNode>, i: nat, zone: DropZone, sid: SessionId, newLeafId: PanelId,
                          result: seq<PanelNode>)
    requires i < |ls| && forall k | 0 <= k < |ls| :: ls[k].Leaf?
  {
    var tab := Leaf(newLeafId, Some(sid));
    result == ClearedLeaves(ls[..i], sid)
              + (if zone.Top? || zone.Left? then [tab, ls[i]] else [ls[i], tab])
              + ClearedLeaves(ls[i + 1..], sid)
  }

  lemma DroppedLeaves(ls: seq<PanelNode>, i: nat, zone: DropZone, sid: SessionId, newLeafId: PanelId,
                      split: seq<PanelNode>, result: seq<PanelNode>)
    requires i < |ls| && (forall k | 0 <= k < |ls| :: ls[k].Leaf? && ls[k].id != newLeafId) && !Shows(ls[i], sid)
    requires split == ls[..i] + SplitPair(ls[i], ZonePlacement(zone), newLeafId) + ls[i + 1..]
    requires Moved(split, result, newLeafId, sid)
    ensures Dropped(ls, i, zone, sid, newLeafId, result)
  {
  }

  /** Dropping a tab on an edge of a leaf that does not show it: the leaf list is the old one with
      the session cleared from wherever it was and one new leaf showing it right before or after
      the target, as the zone says, in a split of the zone's direction; the new leaf is focused
      and its session active. */
  lemma {:induction false} EdgeDrop(st: Store, layout: PanelNode, i: nat, zone: DropZone, sid: SessionId,
                                    newLeafId: PanelId, newSplitId: PanelId)
    requires Inv(st) && LookupLayout(st.app, st.app.activeWorkspace) == Some(layout)
    requires i < |Leaves(layout)| && !zone.Center? && !Shows(Leaves(layout)[i], sid)
    requires newLeafId !in Ids(layout) && newSplitId !in Ids(layout) && newLeafId != newSplitId
    ensures var drop := Drop(true, Some(sid), Some(Leaves(layout)[i].id), Some(zone));
      var st' := HandleDragEnd(st, drop, newLeafId, newSplitId);
      var w := st.app.activeWorkspace.value;
      && st'.app.activeWorkspace == st.app.activeWorkspace
      && w in st'.app.layouts && w in st'.app.focused && st'.app.focused[w] == newLeafId
      && st'.app.activeSession == Some(sid)
      && (forall k | 0 <= k < |Leaves(layout)| :: Leaves(layout)[k].Leaf?)
      && Dropped(Leaves(layout), i, zone, sid, newLeafId, Leaves(st'.app.layouts[w]))
      && ParentDirection(st'.app.layouts[w], newLeafId) == Some(if zone.Left? || zone.Right? then Row else Column)
      && (forall v | v in st.app.layouts && v != w :: v in st'.app.layouts && st'.app.layouts[v] == st.app.layouts[v])
  {
    ActiveLayout(st, layout);
    LeavesAreLeaves(layout);
    EdgeDropTree(layout, i, zone, sid, newLeafId, newSplitId);
    EdgeDropState(st, layout, i, zone, sid, newLeafId, newSplitId);
  }

  /** The tree after a drop on an edge. */
  function EdgeDropped(layout: PanelNode, leafId: PanelId, zone: DropZone, sid: SessionId, newLeafId: PanelId,
                       newSplitId: PanelId): PanelNode {
    var r := SplitLeaf(layout, leafId, ZoneDirection(zone), ZonePlacement(zone), newLeafId, newSplitId);
    if r.None? then layout else MoveSession(r.value.root, newLeafId, sid)
  }

  lemma {:induction false} EdgeDropState(st: Store, layout: PanelNode, i: nat, zone: DropZone, sid: SessionId,
                                         newLeafId: PanelId, newSplitId: PanelId)
    requires LookupLayout(st.app, st.app.activeWorkspace) == Some(layout) && TreeOk(layout)
    requires i < |Leaves(layout)| && !zone.Center? && !Shows(Leaves(layout)[i], sid)
    requires newLeafId !in Ids(layout) && newSplitId !in Ids(layout) && newLeafId != newSplitId
    ensures var leafId := Leaves(layout)[i].id;
      var st' := HandleDragEnd(st, Drop(true, Some(sid), Some(leafId), Some(zone)), newLeafId, newSplitId);
      var w := st.app.activeWorkspace.value;
      && st'.app.activeWorkspace == st.app.activeWorkspace && st'.app.activeSession == Some(sid)
      && st'.app.layouts == st.app.layouts[w := EdgeDropped(layout, leafId, zone, sid, newLeafId, newSplitId)]
      && st'.app.focused == st.app.focused[w := newLeafId]
  {
    var dir, placement, leafId := ZoneDirection(zone), ZonePlacement(zone), Leaves(layout)[i].id;
    OwnLeafIff(layout, i, sid);
    IndexHasLeaf(layout, i);
    SplitLeafOk(layout, leafId, dir, placement, newLeafId, newSplitId);
    var r := SplitLeaf(layout, leafId, dir, placement, newLeafId, newSplitId).value;
    EdgeDropSteps(st, layout, leafId, zone, sid, newLeafId, newSplitId, r);
  }

  /** splitPanel, then assignSession to the leaf it made. */
  lemma EdgeDropSteps(st: Store, layout: PanelNode, leafId: PanelId, zone: DropZone, sid: SessionId,
                      newLeafId: PanelId, newSplitId: PanelId, r: SplitResult)
    requires LookupLayout(st.app, st.app.activeWorkspace) == Some(layout)
    requires !OwnLeaf(st.app, sid, leafId) && !zone.Center?
    requires SplitLeaf(layout, leafId, ZoneDirection(zone), ZonePlacement(zone), newLeafId, newSplitId) == Some(r)
    requires r.newLeafId == newLeafId && TreeOk(r.root) && HasLeaf(r.root, newLeafId)
    ensures var st' := HandleDragEnd(st, Drop(true, Some(sid), Some(leafId), Some(zone)), newLeafId, newSplitId);
      var w := st.app.activeWorkspace.value;
      && st'.app.activeWorkspace == st.app.activeWorkspace && st'.app.activeSession == Some(sid)
      && st'.app.layouts == st.app.layouts[w := EdgeDropped(layout, leafId, zone, sid, newLeafId, newSplitId)]
      && st'.app.focused == st.app.focused[w := newLeafId]
  {
    var dir, placement := ZoneDirection(zone), ZonePlacement(zone);
    SplitPanelState(st, layout, leafId, dir, placement, newLeafId, newSplitId, r);
    HandledAsSplitAndAssign(st, leafId, zone, sid, newLeafId, newSplitId, r.newLeafId);
    var st1 := SplitPanel(st, leafId, dir, placement, newLeafId, newSplitId);
    AssignedState(st1, st.app.activeWorkspace.value, r.root, newLeafId, sid);
  }

  lemma SplitPanelState(st: Store, layout: PanelNode, leafId: PanelId, dir: Direction, placement: Placement,
                        newLeafId: PanelId, newSplitId: PanelId, r: SplitResult)
    requires LookupLayout(st.app, st.app.activeWorkspace) == Some(layout)
    requires SplitLeaf(layout, leafId, dir, placement, newLeafId, newSplitId) == Some(r)
    ensures SplitPanelResult(st, leafId, dir, placement, newLeafId, newSplitId) == Some(r.newLeafId)
    ensures var st1, w := SplitPanel(st, leafId, dir, placement, newLeafId, newSplitId), st.app.activeWorkspace.value;
      && st1.app.activeWorkspace == st.app.activeWorkspace
      && st1.app.layouts == st.app.layouts[w := r.root] && st1.app.focused == st.app.focused[w := r.newLeafId]
  {
  }

  lemma HandledAsSplitAndAssign(st: Store, leafId: PanelId, zone: DropZone, sid: SessionId,
                                newLeafId: PanelId, newSplitId: PanelId, made: PanelId)
    requires !OwnLeaf(st.app, sid, leafId) && !zone.Center?
    requires SplitPanelResult(st, leafId, ZoneDirection(zone), ZonePlacement(zone), newLeafId, newSplitId) == Some(made)
    ensures var st1 := SplitPanel(st, leafId, ZoneDirection(zone), ZonePlacement(zone), newLeafId, newSplitId);
      HandleDragEnd(st, Drop(true, Some(sid), Some(leafId), Some(zone)), newLeafId, newSplitId)
        == AssignSession(st1, made, sid)
  {
  }

  lemma AssignedState(st: Store, w: WorkspaceId, layout: PanelNode, leafId: PanelId, sid: SessionId)
    requires st.app.activeWorkspace == Some(w) && w in st.app.layouts && st.app.layouts[w] == layout
    requires TreeOk(layout) && HasLeaf(layout, leafId)
    ensures var st' := AssignSession(st, leafId, sid);
      && st'.app.activeWorkspace == Some(w) && st'.app.activeSession == Some(sid)
      && st'.app.layouts == st.app.layouts[w := MoveSession(layout, leafId, sid)]
      && st'.app.focused == st.app.focused[w := leafId]
  {
    MoveSessionOk(layout, leafId, sid);
  }

  lemma {:induction false} EdgeDropTree(layout: PanelNode, i: nat, zone: DropZone, sid: SessionId, newLeafId: PanelId,
                                        newSplitId: PanelId)
    requires TreeOk(layout) && i < |Leaves(layout)| && !Shows(Leaves(layout)[i], sid) && newLeafId !in Ids(layout)
    requires !zone.Center?
    ensures forall k | 0 <= k < |Leaves(layout)| :: Leaves(layout)[k].Leaf?
    ensures var r := EdgeDropped(layout, Leaves(layout)[i].id, zone, sid, newLeafId, newSplitId);
      && Dropped(Leaves(layout), i, zone, sid, newLeafId, Leaves(r))
      && ParentDirection(r, newLeafId) == Some(if zone.Left? || zone.Right? then Row else Column)
  {
    var dir, placement, leafId := ZoneDirection(zone), ZonePlacement(zone), Leaves(layout)[i].id;
    LeavesAreLeaves(layout);
    SplitLeafLeaves(layout, i, dir, placement, newLeafId, newSplitId);
    SplitLeafDirection(layout, i, dir, placement, newLeafId, newSplitId);
    var split := SplitLeaf(layout, leafId, dir, placement, newLeafId, newSplitId).value.root;
    MoveSessionLeaves(split, newLeafId, sid);
    MoveKeepsDirection(split, newLeafId, sid);
    NewIdNotALeaf(layout, newLeafId);
    DroppedLeaves(Leaves(layout), i, zone, sid, newLeafId, Leaves(split), Leaves(MoveSession(split, newLeafId, sid)));
  }

  lemma {:induction false} NewIdNotALeaf(layout: PanelNode, id: PanelId)
    requires id !in Ids(layout)
    ensures forall k | 0 <= k < |Leaves(layout)| :: Leaves(layout)[k].id != id
  {
    LeafIdsAmongIds(layout);
    forall k | 0 <= k < |Leaves(layout)| ensures Leaves(layout)[k].id != id {
      IdSeqHas(Leaves(layout), k);
    }
  }

  lemma {:induction false} EditKeepsDirection(root: PanelNode, e: Edit, id: PanelId)
    ensures ParentDirection(MapTree(root, e), id) == ParentDirection(root, id)
    decreases root, 1
  {
    if root.Split? { EditKeepsDirectionIn(root.children, e, id); }
  }

  lemma {:induction false} EditKeepsDirectionIn(cs: seq<PanelNode>, e: Edit, id: PanelId)
    ensures ParentDirectionIn(MapAll(cs, e), id) == ParentDirectionIn(cs, id)
    ensures HasChildLeaf(MapAll(cs, e), id) <==> HasChildLeaf(cs, id)
    decreases cs, 0
  {
    if cs != [] {
      var ms := MapAll(cs, e);
      EditKeepsDirection(cs[0], e, id);
      EditKeepsDirectionIn(cs[1..], e, id);
      assert ms[1..] == MapAll(cs[1..], e);
      HasChildLeafCons(cs, id);
      HasChildLeafCons(ms, id);
    }
  }

  lemma {:induction false} MoveKeepsDirection(root: PanelNode, target: PanelId, sid: SessionId)
    ensures ParentDirection(MoveSession(root, target, sid), target) == ParentDirection(root, target)
  {
    EditKeepsDirection(root, Detach(sid), target);
    EditKeepsDirection(DetachSession(root, sid), SetSession(target, Some(sid)), target);
  }

  /** The new split divides the target's space in two equal parts and no other split changes; the
      session is noted and read, and nothing else is touched. */
  lemma {:induction false} EdgeDropRecords(st: Store, layout: PanelNode, i: nat, zone: DropZone, sid: SessionId,
                                           newLeafId: PanelId, newSplitId: PanelId)
    requires Inv(st) && LookupLayout(st.app, st.app.activeWorkspace) == Some(layout)
    requires i < |Leaves(layout)| && !zone.Center? && !Shows(Leaves(layout)[i], sid)
    requires newLeafId !in Ids(layout) && newSplitId !in Ids(layout) && newLeafId != newSplitId
    ensures var drop := Drop(true, Some(sid), Some(Leaves(layout)[i].id), Some(zone));
      var st', w := HandleDragEnd(st, drop, newLeafId, newSplitId), st.app.activeWorkspace.value;
      && SameLists(st.app, st'.app) && NoteIs(st.app, st'.app, w, Some(sid)) && MarkedRead(st, st', {sid})
      && w in st'.app.layouts
      && HalvesAt(st'.app.layouts[w], newSplitId, if zone.Left? || zone.Right? then Row else Column)
      && (forall id | id != newSplitId :: FrameAt(st'.app.layouts[w], id) == FrameAt(layout, id))
  {
    var leafId, w := Leaves(layout)[i].id, st.app.activeWorkspace.value;
    var dir, placement := ZoneDirection(zone), ZonePlacement(zone);
    ActiveLayout(st, layout);
    OwnLeafIff(layout, i, sid);
    MadeLeafIsThere(st, layout, i, dir, placement, newLeafId, newSplitId);
    HandledAsSplitAndAssign(st, leafId, zone, sid, newLeafId, newSplitId, newLeafId);
    SplitThenAssigned(st, w, i, dir, placement, sid, newLeafId, newSplitId);
  }

  /** splitPanel followed by assignSession. */
  lemma {:induction false} SplitThenAssigned(st: Store, w: WorkspaceId, i: nat, dir: Direction, placement: Placement,
                                             sid: SessionId, newLeafId: PanelId, newSplitId: PanelId)
    requires Inv(st) && st.app.activeWorkspace == Some(w) && w in st.app.layouts && i < |Leaves(st.app.layouts[w])|
    requires newLeafId !in Ids(st.app.layouts[w]) && newSplitId !in Ids(st.app.layouts[w]) && newLeafId != newSplitId
    ensures var st1 := SplitPanel(st, Leaves(st.app.layouts[w])[i].id, dir, placement, newLeafId, newSplitId);
      var st' := AssignSession(st1, newLeafId, sid);
      && SameLists(st.app, st'.app) && NoteIs(st.app, st'.app, w, Some(sid)) && MarkedRead(st, st', {sid})
      && w in st'.app.layouts && HalvesAt(st'.app.layouts[w], newSplitId, dir)
      && (forall id | id != newSplitId :: FrameAt(st'.app.layouts[w], id) == FrameAt(st.app.layouts[w], id))
  {
    var layout := st.app.layouts[w];
    var st1 := SplitPanel(st, Leaves(layout)[i].id, dir, placement, newLeafId, newSplitId);
    ActiveLayout(st, layout);
    PanelSplitUp(st, w, i, dir, placement, newLeafId, newSplitId);
    SplitPanelKeepsInv(st, Leaves(layout)[i].id, dir, placement, newLeafId, newSplitId);
    MadeLeafIsThere(st, layout, i, dir, placement, newLeafId, newSplitId);
    SessionAssigned(st1, newLeafId, sid);
    LayoutsAside(st, st1, AssignSession(st1, newLeafId, sid), w, sid);
  }

  /** What follows a change of layouts alone is the same as without it. */
  lemma LayoutsAside(st: Store, st1: Store, st': Store, w: WorkspaceId, sid: SessionId)
    requires OnlyLayoutsChange(st, st1)
    requires SameLists(st1.app, st'.app) && NoteIs(st1.app, st'.app, w, Some(sid)) && MarkedRead(st1, st', {sid})
    ensures SameLists(st.app, st'.app) && NoteIs(st.app, st'.app, w, Some(sid)) && MarkedRead(st, st', {sid})
  {
    assert forall v :: NoteOf(st1.app, v) == NoteOf(st.app, v);
  }

  lemma {:induction false} MadeLeafIsThere(st: Store, layout: PanelNode, i: nat, dir: Direction, placement: Placement,
                                           newLeafId: PanelId, newSplitId: PanelId)
    requires LookupLayout(st.app, st.app.activeWorkspace) == Some(layout) && TreeOk(layout) && i < |Leaves(layout)|
    requires newLeafId !in Ids(layout) && newSplitId !in Ids(layout) && newLeafId != newSplitId
    ensures SplitPanelResult(st, Leaves(layout)[i].id, dir, placement, newLeafId, newSplitId) == Some(newLeafId)
    ensures var st1 := SplitPanel(st, Leaves(layout)[i].id, dir, placement, newLeafId, newSplitId);
      var after := LookupLayout(st1.app, st1.app.activeWorkspace);
      after.Some? && HasLeafId(Leaves(after.value), newLeafId)
  {
    IndexHasLeaf(layout, i);
    SplitLeafOk(layout, Leaves(layout)[i].id, dir, placement, newLeafId, newSplitId);
    var r := SplitLeaf(layout, Leaves(layout)[i].id, dir, placement, newLeafId, newSplitId).value;
    SplitPanelState(st, layout, Leaves(layout)[i].id, dir, placement, newLeafId, newSplitId, r);
    HasLeafIff(r.root, newLeafId);
  }

  /** What is no tab, has no target or zone, or is dropped on an edge of a leaf that is not there,
      changes nothing. */
  lemma {:induction false} IgnoredDrop(st: Store, drop: Drop, newLeafId: PanelId, newSplitId: PanelId)
    requires
      || !drop.isTab || drop.session.None? || drop.leafId.None? || drop.zone.None?
      || (!drop.zone.value.Center? && var layout := LookupLayout(st.app, st.app.activeWorkspace);
            layout.None? || !HasLeafId(Leaves(layout.value), drop.leafId.value))
    ensures HandleDragEnd(st, drop, newLeafId, newSplitId) == st
  {
    if drop.isTab && drop.session.Some? && drop.leafId.Some? && drop.zone.Some? {
      var dir, placement := ZoneDirection(drop.zone.value), ZonePlacement(drop.zone.value);
      var layout := LookupLayout(st.app, st.app.activeWorkspace);
      NoPanelToSplit(st, drop.leafId.value, dir, placement, newLeafId, newSplitId);
      if layout.Some? { SplitLeafNullIff(layout.value, drop.leafId.value, dir, placement, newLeafId, newSplitId); }
    }
  }

  /** Dropping a tab on the leaf that already shows it changes nothing, whatever the zone. */
  lemma {:induction false} OwnLeafDrop(st: Store, layout: PanelNode, i: nat, zone: DropZone, sid: SessionId,
                                       newLeafId: PanelId, newSplitId: PanelId)
    requires Inv(st) && LookupLayout(st.app, st.app.activeWorkspace) == Some(layout)
    requires i < |Leaves(layout)| && Shows(Leaves(layout)[i], sid)
    ensures var drop := Drop(true, Some(sid), Some(Leaves(layout)[i].id), Some(zone));
      HandleDragEnd(st, drop, newLeafId, newSplitId) == st
  {
    ActiveLayout(st, layout);
    OwnLeafIff(layout, i, sid);
  }

  /** Dropping it in the centre of another leaf moves the session there and clears it elsewhere. */
  lemma {:induction false} CenterDrop(st: Store, layout: PanelNode, i: nat, sid: SessionId, newLeafId: PanelId,
                                      newSplitId: PanelId)
    requires Inv(st) && LookupLayout(st.app, st.app.activeWorkspace) == Some(layout)
    requires i < |Leaves(layout)| && !Shows(Leaves(layout)[i], sid)
    ensures var leafId := Leaves(layout)[i].id;
      var st' := HandleDragEnd(st, Drop(true, Some(sid), Some(leafId), Some(Center)), newLeafId, newSplitId);
      var w := st.app.activeWorkspace.value;
      && w in st'.app.layouts && w in st'.app.focused && st'.app.focused[w] == leafId
      && st'.app.activeSession == Some(sid)
      && Moved(Leaves(layout), Leaves(st'.app.layouts[w]), leafId, sid)
  {
    ActiveLayout(st, layout);
    OwnLeafIff(layout, i, sid);
    IndexHasLeaf(layout, i);
    MoveSessionOk(layout, Leaves(layout)[i].id, sid);
    MoveSessionLeaves(layout, Leaves(layout)[i].id, sid);
  }
}
