/** What the store keeps true of every workspace's layout, and how tree operations keep it. */
module PanelInvariant {
  import opened Wrappers
  import opened PanelTree
  import opened PanelEdit
  import opened PanelRestructure
  import opened PanelSplit

  /** Well-formed: splits have at least two children and a size for each, node ids are distinct,
      and no session is shown twice. */
  ghost predicate TreeOk(root: PanelNode) {
    Shaped(root) && Distinct(root) && OnePlaceEach(Leaves(root))
  }

  predicate HasLeaf(root: PanelNode, id: PanelId) {
    FindLeafById(root, id).Some?
  }

  ghost predicate LayoutOk(root: PanelNode, focus: PanelId) {
    TreeOk(root) && HasLeaf(root, focus)
  }

  /** deriveActiveSession for a layout and focus that are present. */
  function Derive(layout: PanelNode, focus: PanelId): Option<SessionId> {
    match FindLeafById(layout, focus)
    case None => None
    case Some(leaf) => if leaf.Leaf? then leaf.session else None
  }

  // ---------------------------------------------------------------------------------------
  // Leaves by position

  predicate HasLeafId(ls: seq<PanelNode>, id: PanelId) {
    exists i | 0 <= i < |ls| :: ls[i].id == id
  }

  lemma {:induction false} HasLeafIff(root: PanelNode, id: PanelId)
    ensures HasLeaf(root, id) <==> HasLeafId(Leaves(root), id)
  {
    FindsFirstById(root, id);
    if HasLeaf(root, id) {
      var l := FindLeafById(root, id).value;
      FindReturnsNamedLeaf(root, id);
      var i :| 0 <= i < |Leaves(root)| && Leaves(root)[i] == l;
    }
  }

  lemma {:induction false} IndexHasLeaf(root: PanelNode, i: nat)
    requires i < |Leaves(root)|
    ensures HasLeaf(root, Leaves(root)[i].id)
  {
    HasLeafIff(root, Leaves(root)[i].id);
  }

  lemma LeafIndex(root: PanelNode, id: PanelId) returns (i: nat)
    requires Distinct(root) && HasLeaf(root, id)
    ensures i < |Leaves(root)| && Leaves(root)[i].id == id && Leaves(root)[i].Leaf?
    ensures FindLeafById(root, id) == Some(Leaves(root)[i])
    ensures Derive(root, id) == Leaves(root)[i].session
    ensures forall j | 0 <= j < |Leaves(root)| && j != i :: Leaves(root)[j].id != id
  {
    HasLeafIff(root, id);
    var k :| 0 <= k < |Leaves(root)| && Leaves(root)[k].id == id;
    i := k;
    DistinctGivesDistinctLeaves(root);
    FindsThatLeaf(root, i);
  }

  lemma {:induction false} FirstLeafIsThere(root: PanelNode)
    requires Shaped(root)
    ensures Inhabited(root) && HasLeaf(root, FirstLeaf(root).id)
  {
    ShapedIsInhabited(root);
    FirstLeafIsFirst(root);
    HasLeafIff(root, FirstLeaf(root).id);
  }

  lemma SingleLeafOk(id: PanelId, session: Option<SessionId>)
    ensures LayoutOk(Leaf(id, session), id) && Derive(Leaf(id, session), id) == session
  {
  }

  // ---------------------------------------------------------------------------------------
  // Edits

  /** An edit moves no leaf, so whatever had a leaf still has it. */
  lemma {:induction false} EditKeepsLeaf(root: PanelNode, e: Edit, id: PanelId)
    ensures HasLeaf(MapTree(root, e), id) <==> HasLeaf(root, id)
  {
    MapTreeLeaves(root, e);
    HasLeafIff(root, id);
    HasLeafIff(MapTree(root, e), id);
    var a, b := Leaves(root), Leaves(MapTree(root, e));
    if HasLeaf(root, id) {
      var i :| 0 <= i < |a| && a[i].id == id;
      IndexHasLeaf(MapTree(root, e), i);
    }
    if HasLeaf(MapTree(root, e), id) {
      var i :| 0 <= i < |b| && b[i].id == id;
      IndexHasLeaf(root, i);
    }
  }

  lemma {:induction false} EditKeepsTree(root: PanelNode, e: Edit)
    requires TreeOk(root) && OnePlaceEach(Leaves(MapTree(root, e)))
    ensures TreeOk(MapTree(root, e))
  {
    MapTreeKeepsNodes(root, e);
  }

  /** Clearing sessions never makes one appear twice. */
  lemma {:induction false} ClearingKeepsOnePlace(root: PanelNode, e: Edit)
    requires TreeOk(root) && !e.SetSession?
    ensures TreeOk(MapTree(root, e))
  {
    MapTreeLeaves(root, e);
    var a, b := Leaves(root), Leaves(MapTree(root, e));
    forall i | 0 <= i < |b| ensures b[i].session.Some? ==> b[i].session == a[i].session {}
    EditKeepsTree(root, e);
  }

  /** The leaf list after moving a session to a leaf: cleared elsewhere, set there. */
  ghost predicate Moved(a: seq<PanelNode>, b: seq<PanelNode>, target: PanelId, sid: SessionId) {
    && |a| == |b|
    && forall i | 0 <= i < |a| :: a[i].Leaf? && b[i] == Leaf(a[i].id,
         if a[i].id == target then Some(sid) else if a[i].session == Some(sid) then None else a[i].session)
  }

  /** setLeafSession(detachSession(root, sid), target, sid), which four store actions use. */
  function MoveSession(root: PanelNode, target: PanelId, sid: SessionId): PanelNode {
    SetLeafSession(DetachSession(root, sid), target, Some(sid))
  }

  lemma {:induction false} MoveSessionLeaves(root: PanelNode, target: PanelId, sid: SessionId)
    ensures Moved(Leaves(root), Leaves(MoveSession(root, target, sid)), target, sid)
  {
    MapTreeLeaves(root, Detach(sid));
    MapTreeLeaves(DetachSession(root, sid), SetSession(target, Some(sid)));
  }

  /** Moving a session to an existing leaf keeps the layout well-formed and shows the session there. */
  lemma MoveSessionOk(root: PanelNode, target: PanelId, sid: SessionId)
    requires TreeOk(root) && HasLeaf(root, target)
    ensures LayoutOk(MoveSession(root, target, sid), target)
    ensures Derive(MoveSession(root, target, sid), target) == Some(sid)
  {
    var d, r := DetachSession(root, sid), MoveSession(root, target, sid);
    MoveSessionLeaves(root, target, sid);
    DistinctGivesDistinctLeaves(root);
    MovedOnePlace(Leaves(root), Leaves(r), target, sid);
    ClearingKeepsOnePlace(root, Detach(sid));
    EditKeepsTree(d, SetSession(target, Some(sid)));
    EditKeepsLeaf(root, Detach(sid), target);
    EditKeepsLeaf(d, SetSession(target, Some(sid)), target);
    var i := LeafIndex(r, target);
  }

  lemma MovedOnePlace(a: seq<PanelNode>, b: seq<PanelNode>, target: PanelId, sid: SessionId)
    requires Moved(a, b, target, sid) && OnePlaceEach(a) && DistinctLeaves(a)
    ensures OnePlaceEach(b)
  {
  }

  /** Filling a leaf of a layout that shows nothing keeps it well-formed. */
  lemma {:induction false} SeedOk(root: PanelNode, target: PanelId, sid: SessionId)
    requires TreeOk(root) && HasLeaf(root, target)
    requires forall i | 0 <= i < |Leaves(root)| :: Leaves(root)[i].session == None
    ensures LayoutOk(SetLeafSession(root, target, Some(sid)), target)
    ensures Derive(SetLeafSession(root, target, Some(sid)), target) == Some(sid)
  {
    var e := SetSession(target, Some(sid));
    MapTreeLeaves(root, e);
    DistinctGivesDistinctLeaves(root);
    EditKeepsTree(root, e);
    EditKeepsLeaf(root, e, target);
    var i := LeafIndex(MapTree(root, e), target);
  }

  // ---------------------------------------------------------------------------------------
  // Splitting and removing

  lemma {:induction false} SplitLeafOk(root: PanelNode, leafId: PanelId, dir: Direction, placement: Placement,
                                       newLeafId: PanelId, newSplitId: PanelId)
    requires TreeOk(root) && newLeafId !in Ids(root) && newSplitId !in Ids(root) && newLeafId != newSplitId
    ensures var r := SplitLeaf(root, leafId, dir, placement, newLeafId, newSplitId);
      && (r.Some? <==> HasLeaf(root, leafId))
      && (r.Some? ==> r.value.newLeafId == newLeafId && LayoutOk(r.value.root, newLeafId)
                      && Derive(r.value.root, newLeafId) == None)
  {
    if HasLeaf(root, leafId) {
      var i := LeafIndex(root, leafId);
      SplitLeafLeaves(root, i, dir, placement, newLeafId, newSplitId);
      var r := SplitLeaf(root, leafId, dir, placement, newLeafId, newSplitId).value.root;
      SplitDistinct(root, i, dir, placement, newLeafId, newSplitId);
      var ls, pair := Leaves(root), SplitPair(Leaves(root)[i], placement, newLeafId);
      InsertedOnePlace(ls, i, placement, newLeafId);
      var at := if placement.Before? then i else i + 1;
      assert Leaves(r)[at] == Leaf(newLeafId, None);
      HasLeafIff(r, newLeafId);
      FindsThatLeaf(r, at);
    }
  }

  lemma {:induction false} SplitDistinct(root: PanelNode, i: nat, dir: Direction, placement: Placement,
                                         newLeafId: PanelId, newSplitId: PanelId)
    requires Distinct(root) && i < |Leaves(root)|
    requires newLeafId !in Ids(root) && newSplitId !in Ids(root) && newLeafId != newSplitId
    ensures var r := SplitLeaf(root, Leaves(root)[i].id, dir, placement, newLeafId, newSplitId);
      r.Some? && Distinct(r.value.root)
  {
    SplitLeafLeaves(root, i, dir, placement, newLeafId, newSplitId);
    var r := SplitLeaf(root, Leaves(root)[i].id, dir, placement, newLeafId, newSplitId).value.root;
    forall x ensures Ids(r)[x] <= 1 {
      SplitLeafIds(root, i, dir, placement, newLeafId, newSplitId, x);
      assert Ids(root)[x] <= 1;
    }
  }

  lemma InsertedOnePlace(ls: seq<PanelNode>, i: nat, placement: Placement, newLeafId: PanelId)
    requires OnePlaceEach(ls) && i < |ls|
    ensures OnePlaceEach(ls[..i] + SplitPair(ls[i], placement, newLeafId) + ls[i + 1..])
  {
  }

  lemma {:induction false} WithoutKeeps(ls: seq<PanelNode>, id: PanelId, l: PanelNode)
    ensures l in Without(ls, id) <==> l in ls && l.id != id
  {
    if ls != [] { WithoutKeeps(ls[1..], id, l); }
  }

  lemma {:induction false} WithoutOnePlace(ls: seq<PanelNode>, id: PanelId)
    requires OnePlaceEach(ls)
    ensures OnePlaceEach(Without(ls, id))
  {
    if ls != [] {
      WithoutOnePlace(ls[1..], id);
      var rest := Without(ls[1..], id);
      forall j | 0 <= j < |rest| ensures rest[j] in ls[1..] {
        WithoutKeeps(ls[1..], id, rest[j]);
      }
      if ls[0].id != id {
        assert Without(ls, id) == [ls[0]] + rest;
        forall j | 0 <= j < |rest| && ls[0].session.Some? ensures rest[j].session != ls[0].session {
          var k :| 0 <= k < |ls[1..]| && ls[1..][k] == rest[j];
          assert ls[k + 1] == rest[j];
        }
      }
    }
  }

  lemma {:induction false} WellSizedIsShaped(root: PanelNode)
    requires WellSized(root)
    ensures Shaped(root)
    decreases root, 1
  {
    if root.Split? { WellSizedAllIsShaped(root.children); }
  }

  lemma {:induction false} WellSizedAllIsShaped(cs: seq<PanelNode>)
    requires WellSizedAll(cs)
    ensures ShapedAll(cs)
    decreases cs, 0
  {
    if cs != [] {
      WellSizedIsShaped(cs[0]);
      WellSizedAllIsShaped(cs[1..]);
    }
  }

  /** Removing a leaf keeps the tree well-formed; any other leaf is still there. */
  lemma {:induction false} RemoveLeafOk(root: PanelNode, leafId: PanelId)
    requires TreeOk(root)
    ensures RemoveLeaf(root, leafId).Some? ==> TreeOk(RemoveLeaf(root, leafId).value)
  {
    var o := RemoveLeaf(root, leafId);
    if o.Some? {
      RemoveLeafLeaves(root, leafId);
      WithoutOnePlace(Leaves(root), leafId);
      RemoveLeafWellSized(root, leafId);
      WellSizedIsShaped(o.value);
      RemoveLeafIds(root, leafId);
      forall x ensures Ids(o.value)[x] <= 1 { assert Ids(root)[x] <= 1; }
    }
  }

  lemma {:induction false} RemoveLeafKeepsOthers(root: PanelNode, leafId: PanelId, other: PanelId)
    requires RemoveLeaf(root, leafId).Some?
    ensures HasLeaf(RemoveLeaf(root, leafId).value, other) <==> other != leafId && HasLeaf(root, other)
  {
    var r := RemoveLeaf(root, leafId).value;
    RemoveLeafLeaves(root, leafId);
    HasLeafIff(root, other);
    HasLeafIff(r, other);
    if i :| 0 <= i < |Leaves(root)| && Leaves(root)[i].id == other {
      WithoutKeeps(Leaves(root), leafId, Leaves(root)[i]);
      if other != leafId {
        var k :| 0 <= k < |Leaves(r)| && Leaves(r)[k] == Leaves(root)[i];
      }
    }
    if k :| 0 <= k < |Leaves(r)| && Leaves(r)[k].id == other {
      WithoutKeeps(Leaves(root), leafId, Leaves(r)[k]);
      var i :| 0 <= i < |Leaves(root)| && Leaves(root)[i] == Leaves(r)[k];
    }
  }
}
