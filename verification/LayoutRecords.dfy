/** The layout record as an object.

    The persistence subscriber compares references: it writes only if `layoutByWorkspace` is
    another object than before.  Most actions rebuild that record whenever they commit; the two
    that first compare references themselves, resizing a split and deleting a session, are
    followed here on objects, with an address for the record and for every node. */
module LayoutRecords {
  import opened Wrappers
  import opened PanelTree
  import opened PanelEdit
  import opened PanelRestructure
  import opened PanelInvariant
  import opened PanelPersistence
  import opened AppStore
  import opened StoreInvariant
  import opened StoreEffects

  /** `ref` is the identity of the record, `next` the next free address. */
  datatype Records = Records(ref: nat, layouts: map<WorkspaceId, Obj>, next: nat)

  ghost predicate Sound(r: Records) {
    r.ref < r.next && forall w | w in r.layouts :: Allocated(r.layouts[w], r.next)
  }

  function Contents(r: Records): map<WorkspaceId, PanelNode> {
    map w | w in r.layouts :: Content(r.layouts[w])
  }

  /** `{ ...layoutByWorkspace, [w]: layout }` */
  function Rebuilt(r: Records, w: WorkspaceId, m: Made): Records {
    Records(m.next, r.layouts[w := m.obj], m.next + 1)
  }

  /** Maps one layout; the record is rebuilt only if another object comes back. */
  function EditRecord(r: Records, w: WorkspaceId, e: Edit): Records
    requires w in r.layouts
  {
    var m := MapObj(r.layouts[w], e, r.next);
    if m.obj.addr == r.layouts[w].addr then r else Rebuilt(r, w, m)
  }

  lemma {:induction false} AllocatedIn(o: Obj, next: nat, later: nat)
    requires Allocated(o, next) && next <= later
    ensures Allocated(o, later)
  {
    if o.SplitObj? { AllocatedLater(o.children, next, later); }
  }

  lemma {:induction false} MadeIsAllocated(o: Obj, e: Edit, next: nat)
    requires Allocated(o, next)
    ensures var m := MapObj(o, e, next); next <= m.next && Allocated(m.obj, m.next)
    decreases o, 1
  {
    MapObjShares(o, e, next);
    if o.SplitObj? {
      var m := MapObjs(o.children, e, next);
      MadeAreAllocated(o.children, e, next);
      AllocatedLater(m.objs, m.next, m.next + 1);
      AllocatedLater(m.objs, m.next, m.next + 2);
      AllocatedLater(o.children, next, m.next);
      AllocatedLater(o.children, next, m.next + 1);
    }
  }

  lemma {:induction false} MadeAreAllocated(cs: seq<Obj>, e: Edit, next: nat)
    requires AllocatedAll(cs, next)
    ensures var m := MapObjs(cs, e, next); next <= m.next && AllocatedAll(m.objs, m.next)
    decreases cs, 0
  {
    if cs != [] {
      var first := MapObj(cs[0], e, next);
      MadeIsAllocated(cs[0], e, next);
      AllocatedLater(cs[1..], next, first.next);
      MadeAreAllocated(cs[1..], e, first.next);
      var rest := MapObjs(cs[1..], e, first.next);
      AllocatedIn(first.obj, first.next, rest.next);
      assert MapObjs(cs, e, next).objs[1..] == rest.objs;
    }
  }

  /** The record is another object exactly if the content of the layout changed. */
  lemma {:induction false} EditRecordExact(r: Records, w: WorkspaceId, e: Edit)
    requires Sound(r) && w in r.layouts
    ensures var r' := EditRecord(r, w, e);
      && Sound(r') && r.next <= r'.next && (r'.ref == r.ref || r'.ref >= r.next)
      && Contents(r') == Contents(r)[w := MapTree(Content(r.layouts[w]), e)]
      && (r'.ref == r.ref <==> MapTree(Content(r.layouts[w]), e) == Content(r.layouts[w]))
      && forall v | v in r.layouts && v != w :: v in r'.layouts && r'.layouts[v] == r.layouts[v]
  {
    var m := MapObj(r.layouts[w], e, r.next);
    var r' := EditRecord(r, w, e);
    MapObjShares(r.layouts[w], e, r.next);
    SameObjectIffSameContent(r.layouts[w], e, r.next);
    MadeIsAllocated(r.layouts[w], e, r.next);
    forall v | v in r'.layouts ensures Allocated(r'.layouts[v], r'.next) {
      if r'.ref != r.ref {
        if v == w { AllocatedIn(m.obj, m.next, m.next + 1); } else { AllocatedIn(r.layouts[v], r.next, m.next + 1); }
      }
    }
  }

  /** resizeSplit: the subscriber sees another record exactly if the layouts changed. */
  lemma ResizeIsSeen(st: Store, w: WorkspaceId, splitId: PanelId, sizes: seq<real>, r: Records)
    requires Sound(r) && Contents(r) == st.app.layouts && st.app.activeWorkspace == Some(w) && w in r.layouts
    ensures var r' := EditRecord(r, w, SetSizes(splitId, sizes));
      && Contents(r') == ResizeSplit(st, splitId, sizes).app.layouts
      && (r'.ref == r.ref <==> ResizeSplit(st, splitId, sizes).app.layouts == st.app.layouts)
  {
    EditRecordExact(r, w, SetSizes(splitId, sizes));
    assert w in Contents(r);
    var edited := SetSplitSizes(st.app.layouts[w], splitId, sizes);
    if st.app.layouts[w := edited] == st.app.layouts { assert st.app.layouts[w := edited][w] == edited; }
  }

  // ---------------------------------------------------------------------------------------
  // deleteSession

  /** The layouts in `rest` are still to be visited, the others are done. */
  ghost predicate Visited(r: Records, r': Records, rest: set<WorkspaceId>, sid: SessionId) {
    && rest <= r.layouts.Keys == r'.layouts.Keys
    && (forall w | w in rest :: r'.layouts[w] == r.layouts[w])
    && (forall w | w in r.layouts.Keys - rest :: Content(r'.layouts[w]) == DetachSession(Content(r.layouts[w]), sid))
  }

  predicate Unchanged(o: Obj, sid: SessionId) {
    DetachSession(Content(o), sid) == Content(o)
  }

  /** The record has been rebuilt exactly if some layout visited so far has changed. */
  ghost predicate Recorded(r: Records, r': Records, rest: set<WorkspaceId>, sid: SessionId) {
    && r.next <= r'.next && (r'.ref == r.ref || r'.ref >= r.next)
    && (r'.ref == r.ref <==> forall w | w in r.layouts.Keys - rest :: Unchanged(r.layouts[w], sid))
  }

  ghost predicate Partly(r: Records, r': Records, rest: set<WorkspaceId>, sid: SessionId) {
    Sound(r') && Visited(r, r', rest, sid) && Recorded(r, r', rest, sid)
  }

  lemma VisitOne(r: Records, r': Records, r2: Records, rest: set<WorkspaceId>, sid: SessionId, w: WorkspaceId)
    requires Visited(r, r', rest, sid) && w in rest && r2.layouts.Keys == r'.layouts.Keys
    requires Content(r2.layouts[w]) == DetachSession(Content(r'.layouts[w]), sid)
    requires forall v | v in r'.layouts && v != w :: r2.layouts[v] == r'.layouts[v]
    ensures Visited(r, r2, rest - {w}, sid)
  {
  }

  lemma RecordOne(r: Records, r': Records, r2: Records, rest: set<WorkspaceId>, sid: SessionId, w: WorkspaceId)
    requires r.ref < r.next && r'.ref < r'.next && w in rest && rest <= r.layouts.Keys && Recorded(r, r', rest, sid)
    requires r'.next <= r2.next && (r2.ref == r'.ref || r2.ref >= r'.next)
    requires r2.ref == r'.ref <==> Unchanged(r.layouts[w], sid)
    ensures Recorded(r, r2, rest - {w}, sid)
  {
    assert r.layouts.Keys - (rest - {w}) == (r.layouts.Keys - rest) + {w};
  }

  lemma PartlyStep(r: Records, r': Records, rest: set<WorkspaceId>, sid: SessionId, w: WorkspaceId)
    requires Sound(r) && Partly(r, r', rest, sid) && w in rest
    ensures Partly(r, EditRecord(r', w, Detach(sid)), rest - {w}, sid)
  {
    var r2 := EditRecord(r', w, Detach(sid));
    EditRecordExact(r', w, Detach(sid));
    assert r2.layouts.Keys == r'.layouts.Keys by { assert Contents(r2).Keys == r2.layouts.Keys; }
    assert Contents(r2)[w] == Content(r2.layouts[w]);
    VisitOne(r, r', r2, rest, sid, w);
    RecordOne(r, r', r2, rest, sid, w);
  }

  lemma PartlyDone(r: Records, r': Records, sid: SessionId)
    requires Partly(r, r', {}, sid)
    ensures Contents(r') == DetachEverywhere(Contents(r), sid)
    ensures r'.ref == r.ref <==> Contents(r') == Contents(r)
  {
    if Contents(r') == Contents(r) {
      forall w | w in r.layouts.Keys ensures Unchanged(r.layouts[w], sid) { assert Contents(r')[w] == Contents(r)[w]; }
    }
  }

  /** The loop over all layouts, which rebuilds the record once per layout that really changed. */
  method DetachFromRecords(r: Records, sid: SessionId) returns (r': Records)
    requires Sound(r)
    ensures Sound(r') && Contents(r') == DetachEverywhere(Contents(r), sid)
    ensures r'.ref == r.ref <==> Contents(r') == Contents(r)
    ensures r.next <= r'.next && (r'.ref == r.ref || r'.ref >= r.next)
  {
    r' := r;
    var rest := r.layouts.Keys;
    while rest != {}
      invariant Partly(r, r', rest, sid)
      decreases rest
    {
      var w :| w in rest;
      PartlyStep(r, r', rest, sid, w);
      r' := EditRecord(r', w, Detach(sid));
      rest := rest - {w};
    }
    PartlyDone(r, r', sid);
  }

  /** Filling the focused leaf, which the deleted session or nobody was in, changes the layout. */
  lemma {:induction false} RefillChanges(layout: PanelNode, focus: PanelId, sid: SessionId, next: SessionId)
    requires sid != next && FindLeafById(DetachSession(layout, sid), focus) == Some(Leaf(focus, None))
    ensures MoveSession(DetachSession(layout, sid), focus, next) != layout
  {
    var detached := DetachSession(layout, sid);
    var ls := Leaves(detached);
    FindsFirstById(detached, focus);
    var i :| 0 <= i < |ls| && ls[i] == FindLeafById(detached, focus).value && ls[i].id == focus;
    MapTreeLeaves(layout, Detach(sid));
    MoveSessionLeaves(detached, focus, next);
    assert Leaves(MoveSession(detached, focus, next))[i] != Leaves(layout)[i];
  }

  /** The layouts a deletion leaves, and whether the subscriber sees another record: exactly if one
      of them changed. */
  method DeleteFromRecords(r: Records, ghost st: Store, w: WorkspaceId, focus: Option<PanelId>,
                           remaining: seq<Session>, sid: SessionId) returns (r': Records)
    requires Sound(r) && Contents(r) == st.app.layouts && st.app.activeWorkspace == Some(w)
    requires focus == FocusOf(st.app, w) && remaining == RemoveSession(SessionsOf(st.app, w), sid)
    ensures Contents(r') == DeleteSession(st, sid).app.layouts
    ensures r'.ref == r.ref <==> DeleteSession(st, sid).app.layouts == st.app.layouts
  {
    DeletedParts(st, sid, w, remaining);
    r' := DetachFromRecords(r, sid);
    if w !in r'.layouts || focus.None? || remaining == [] { return; }
    var layout := Content(r'.layouts[w]);
    assert Contents(r')[w] == layout == DetachSession(Contents(r)[w], sid);
    var leaf := FindLeafById(layout, focus.value);
    FindReturnsNamedLeaf(layout, focus.value);
    if leaf.None? || leaf.value.session != None { return; }
    var next := remaining[0].id;
    RemovedFromList(SessionsOf(st.app, w), sid);
    assert remaining[0] in remaining;
    RefillChanges(Contents(r)[w], focus.value, sid, next);
    r' := RefillRecord(r', w, focus.value, next);
    assert Contents(r')[w] != Contents(r)[w];
  }

  /** setLeafSession(detachSession(...)) on the active layout, and a new record in any case. */
  method RefillRecord(r: Records, w: WorkspaceId, focus: PanelId, next: SessionId) returns (r': Records)
    requires Sound(r) && w in r.layouts
    ensures r'.ref >= r.next && Contents(r') == Contents(r)[w := MoveSession(Content(r.layouts[w]), focus, next)]
  {
    var detached := MapObj(r.layouts[w], Detach(next), r.next);
    MapObjShares(r.layouts[w], Detach(next), r.next);
    MadeIsAllocated(r.layouts[w], Detach(next), r.next);
    var filled := MapObj(detached.obj, SetSession(focus, Some(next)), detached.next);
    MapObjShares(detached.obj, SetSession(focus, Some(next)), detached.next);
    r' := Rebuilt(r, w, filled);
  }
}
