/** What splitting a leaf adds to the tree, and that it changes nothing else. */
module PanelSplit {
  import opened Wrappers
  import opened PanelTree
  import opened PanelRestructure

  ghost function Expand(ls: seq<PanelNode>, id: PanelId, by_: seq<PanelNode>): seq<PanelNode> {
    if ls == [] then [] else (if ls[0].id == id then by_ else [ls[0]]) + Expand(ls[1..], id, by_)
  }

  lemma {:induction false} ExpandAppend(a: seq<PanelNode>, b: seq<PanelNode>, id: PanelId, by_: seq<PanelNode>)
    ensures Expand(a + b, id, by_) == Expand(a, id, by_) + Expand(b, id, by_)
  {
    if a == [] {
      assert a + b == b;
    } else {
      assert (a + b)[1..] == a[1..] + b;
      ExpandAppend(a[1..], b, id, by_);
    }
  }

  lemma {:induction false} ExpandAbsent(ls: seq<PanelNode>, id: PanelId, by_: seq<PanelNode>)
    requires id !in IdSeq(ls)
    ensures Expand(ls, id, by_) == ls
  {
    if ls != [] { ExpandAbsent(ls[1..], id, by_); }
  }

  ghost predicate NoneNamed(ls: seq<PanelNode>, id: PanelId) {
    forall i | 0 <= i < |ls| :: ls[i].id != id
  }

  lemma {:induction false} ExpandElsewhere(ls: seq<PanelNode>, id: PanelId, by_: seq<PanelNode>)
    requires NoneNamed(ls, id)
    ensures Expand(ls, id, by_) == ls
  {
    if ls != [] { ExpandElsewhere(ls[1..], id, by_); }
  }

  lemma {:induction false} ExpandAround(a: seq<PanelNode>, x: PanelNode, b: seq<PanelNode>, by_: seq<PanelNode>)
    requires NoneNamed(a, x.id) && NoneNamed(b, x.id)
    ensures Expand(a + [x] + b, x.id, by_) == a + by_ + b
  {
    ExpandElsewhere(a, x.id, by_);
    ExpandElsewhere(b, x.id, by_);
    ExpandOne(x, by_);
    ExpandAppend(a, [x], x.id, by_);
    ExpandAppend(a + [x], b, x.id, by_);
  }

  lemma {:induction false} ExpandOne(x: PanelNode, by_: seq<PanelNode>)
    ensures Expand([x], x.id, by_) == by_
  {
  }

  /** Nowhere or, as the lookup finds it, a leaf. */
  ghost predicate AtMostLeaf(root: PanelNode, target: PanelNode) {
    && target.Leaf? && Distinct(root)
    && (FindLeafById(root, target.id) == Some(target) || target.id !in Ids(root))
  }

  ghost predicate AtMostLeafIn(cs: seq<PanelNode>, target: PanelNode) {
    && target.Leaf? && (forall x :: IdsOf(cs)[x] <= 1)
    && (FindById(cs, target.id) == Some(target) || target.id !in IdsOf(cs))
  }

  /** The single place of a target among children is either in the first or in the rest. */
  lemma TailKeepsTarget(cs: seq<PanelNode>, target: PanelNode)
    requires cs != [] && AtMostLeafIn(cs, target)
    ensures AtMostLeaf(cs[0], target) && AtMostLeafIn(cs[1..], target)
    ensures !(target.id in Ids(cs[0]) && target.id in IdsOf(cs[1..]))
  {
    assert IdsOf(cs) == Ids(cs[0]) + IdsOf(cs[1..]);
    forall x ensures Ids(cs[0])[x] <= 1 && IdsOf(cs[1..])[x] <= 1 { assert IdsOf(cs)[x] <= 1; }
    FoundIsThere(cs[0], target.id);
    FoundIsThereIn(cs[1..], target.id);
    assert IdsOf(cs)[target.id] <= 1;
  }

  lemma {:induction false} ChildrenAtMostLeaf(root: PanelNode, target: PanelNode)
    requires AtMostLeaf(root, target)
    ensures root.id == target.id ==> root == target
    ensures root.Split? ==> AtMostLeafIn(root.children, target)
    ensures root.Split? && root.id != target.id ==> (target.id in Ids(root) <==> target.id in IdsOf(root.children))
  {
    OnlyNode(root, target);
    if root.Split? { IdsSplit(root); }
  }

  /** For any tree: something is replaced exactly if some node has the id. */
  lemma {:induction false} ReplaceNodeIffThere(root: PanelNode, target: PanelId, by_: PanelNode)
    ensures ReplaceNode(root, target, by_).Some? <==> target in Ids(root)
    decreases root, 1
  {
    if root.Split? && root.id != target { ReplaceInIffThere(root.children, target, by_); }
  }

  lemma {:induction false} ReplaceInIffThere(cs: seq<PanelNode>, target: PanelId, by_: PanelNode)
    ensures var r := ReplaceIn(cs, target, by_);
      && (r.changed <==> target in IdsOf(cs)) && |r.children| == |cs| && (!r.changed ==> r.children == cs)
    decreases cs, 0
  {
    if cs != [] {
      ReplaceNodeIffThere(cs[0], target, by_);
      ReplaceInIffThere(cs[1..], target, by_);
    }
  }

  lemma {:induction false} ReplaceNodeLeaves(root: PanelNode, target: PanelNode, by_: PanelNode)
    requires AtMostLeaf(root, target)
    ensures var r := ReplaceNode(root, target.id, by_);
      r.Some? ==> Leaves(r.value) == Expand(Leaves(root), target.id, Leaves(by_))
    decreases root, 1
  {
    ChildrenAtMostLeaf(root, target);
    if root.id == target.id {
      assert Leaves(root)[1..] == [];
    } else if root.Split? {
      ReplaceInLeaves(root.children, target, by_);
    }
  }

  lemma {:induction false} ReplaceInLeaves(cs: seq<PanelNode>, target: PanelNode, by_: PanelNode)
    requires AtMostLeafIn(cs, target)
    ensures LeavesOf(ReplaceIn(cs, target.id, by_).children) == Expand(LeavesOf(cs), target.id, Leaves(by_))
    decreases cs, 0
  {
    if cs != [] {
      TailKeepsTarget(cs, target);
      ReplaceNodeLeaves(cs[0], target, by_);
      ReplaceInLeaves(cs[1..], target, by_);
      ReplaceNodeIffThere(cs[0], target.id, by_);
      LeafIdsAmongIds(cs[0]);
      ExpandAppend(Leaves(cs[0]), LeavesOf(cs[1..]), target.id, Leaves(by_));
      if target.id !in Ids(cs[0]) { ExpandAbsent(Leaves(cs[0]), target.id, Leaves(by_)); }
      assert ReplaceIn(cs, target.id, by_).children[1..] == ReplaceIn(cs[1..], target.id, by_).children;
    }
  }

  ghost function One(x: PanelId, y: PanelId): nat { if x == y then 1 else 0 }

  lemma {:induction false} ReplaceNodeIds(root: PanelNode, target: PanelNode, by_: PanelNode, x: PanelId)
    requires AtMostLeaf(root, target)
    ensures var r := ReplaceNode(root, target.id, by_);
      r.Some? ==> Ids(r.value)[x] + One(x, target.id) == Ids(root)[x] + Ids(by_)[x]
    decreases root, 1
  {
    ChildrenAtMostLeaf(root, target);
    if root.Split? && root.id != target.id { ReplaceInIds(root.children, target, by_, x); }
  }

  lemma {:induction false} ReplaceInIds(cs: seq<PanelNode>, target: PanelNode, by_: PanelNode, x: PanelId)
    requires AtMostLeafIn(cs, target)
    ensures var r := ReplaceIn(cs, target.id, by_);
      r.changed ==> IdsOf(r.children)[x] + One(x, target.id) == IdsOf(cs)[x] + Ids(by_)[x]
    decreases cs, 0
  {
    if cs != [] {
      TailKeepsTarget(cs, target);
      ReplaceNodeIds(cs[0], target, by_, x);
      ReplaceInIds(cs[1..], target, by_, x);
      ReplaceNodeIffThere(cs[0], target.id, by_);
      ReplaceInIffThere(cs[1..], target.id, by_);
      assert ReplaceIn(cs, target.id, by_).children[1..] == ReplaceIn(cs[1..], target.id, by_).children;
    }
  }

  lemma {:induction false} ReplaceNodeShaped(root: PanelNode, target: PanelId, by_: PanelNode)
    requires Shaped(root) && Shaped(by_)
    ensures ReplaceNode(root, target, by_).Some? ==> Shaped(ReplaceNode(root, target, by_).value)
    decreases root, 1
  {
    if root.Split? { ReplaceInShaped(root.children, target, by_); }
  }

  lemma {:induction false} ReplaceInShaped(cs: seq<PanelNode>, target: PanelId, by_: PanelNode)
    requires ShapedAll(cs) && Shaped(by_)
    ensures ShapedAll(ReplaceIn(cs, target, by_).children) && |ReplaceIn(cs, target, by_).children| == |cs|
    decreases cs, 0
  {
    if cs != [] {
      ReplaceNodeShaped(cs[0], target, by_);
      ReplaceInShaped(cs[1..], target, by_);
      assert ReplaceIn(cs, target, by_).children[1..] == ReplaceIn(cs[1..], target, by_).children;
    }
  }

  /** The two leaves that stand where the split leaf stood. */
  function SplitPair(target: PanelNode, placement: Placement, newLeafId: PanelId): seq<PanelNode> {
    if placement.Before? then [Leaf(newLeafId, None), target] else [target, Leaf(newLeafId, None)]
  }

  /** Among distinct leaves the expansion happens in one place. */
  lemma {:induction false} ExpandInPlace(root: PanelNode, i: nat, by_: seq<PanelNode>)
    requires Distinct(root) && i < |Leaves(root)|
    ensures var ls := Leaves(root); Expand(ls, ls[i].id, by_) == ls[..i] + by_ + ls[i + 1..]
  {
    var ls := Leaves(root);
    DistinctGivesDistinctLeaves(root);
    assert ls == ls[..i] + [ls[i]] + ls[i + 1..];
    ExpandAround(ls[..i], ls[i], ls[i + 1..], by_);
  }

  /** The replacement splitLeaf puts in. */
  function SplitNode(target: PanelNode, dir: Direction, placement: Placement, newLeafId: PanelId,
                     newSplitId: PanelId): PanelNode {
    Split(newSplitId, dir, [50.0, 50.0], SplitPair(target, placement, newLeafId))
  }

  lemma SplitNodeLeaves(target: PanelNode, dir: Direction, placement: Placement, newLeafId: PanelId,
                        newSplitId: PanelId)
    requires target.Leaf?
    ensures var n := SplitNode(target, dir, placement, newLeafId, newSplitId);
      Leaves(n) == SplitPair(target, placement, newLeafId) && Shaped(n)
  {
    var pair := SplitPair(target, placement, newLeafId);
    TwoLeaves(pair[0], pair[1], "");
    assert pair == [pair[0], pair[1]];
  }

  lemma SplitNodeIds(target: PanelNode, dir: Direction, placement: Placement, newLeafId: PanelId, newSplitId: PanelId,
                     x: PanelId)
    requires target.Leaf?
    ensures Ids(SplitNode(target, dir, placement, newLeafId, newSplitId))[x]
         == One(x, target.id) + One(x, newLeafId) + One(x, newSplitId)
  {
    var pair := SplitPair(target, placement, newLeafId);
    TwoLeaves(pair[0], pair[1], x);
    assert pair == [pair[0], pair[1]];
  }

  lemma TwoLeaves(a: PanelNode, b: PanelNode, x: PanelId)
    requires a.Leaf? && b.Leaf?
    ensures LeavesOf([a, b]) == [a, b] && ShapedAll([a, b])
    ensures IdsOf([a, b])[x] == One(x, a.id) + One(x, b.id)
  {
    var none: seq<PanelNode> := [];
    assert [a, b][1..] == [b] && [b][1..] == none;
    assert [b] == [b] + none && [a, b] == [a] + [b];
    LeavesOfCons(b, none);
    LeavesOfCons(a, [b]);
    assert ShapedAll(none) && ShapedAll([b]);
  }

  /** splitLeaf puts an empty leaf next to the target, before or after it as told, and moves no
      other leaf. */
  lemma {:induction false} SplitLeafLeaves(root: PanelNode, i: nat, dir: Direction, placement: Placement,
                                           newLeafId: PanelId, newSplitId: PanelId)
    requires Distinct(root) && i < |Leaves(root)|
    ensures var ls := Leaves(root);
      var r := SplitLeaf(root, ls[i].id, dir, placement, newLeafId, newSplitId);
      && r.Some? && r.value.newLeafId == newLeafId
      && Leaves(r.value.root)
         == ls[..i] + (if placement.Before? then [Leaf(newLeafId, None), ls[i]] else [ls[i], Leaf(newLeafId, None)])
            + ls[i + 1..]
      && (Shaped(root) ==> Shaped(r.value.root))
  {
    var target := Leaves(root)[i];
    var by_ := SplitNode(target, dir, placement, newLeafId, newSplitId);
    SplitLeafReplaces(root, i, dir, placement, newLeafId, newSplitId);
    SplitNodeLeaves(target, dir, placement, newLeafId, newSplitId);
    ReplaceNodeLeaves(root, target, by_);
    if Shaped(root) { ReplaceNodeShaped(root, target.id, by_); }
    ExpandInPlace(root, i, SplitPair(target, placement, newLeafId));
  }

  lemma {:induction false} SplitTarget(root: PanelNode, i: nat)
    requires Distinct(root) && i < |Leaves(root)|
    ensures AtMostLeaf(root, Leaves(root)[i]) && Leaves(root)[i].id in Ids(root)
    ensures FindLeafById(root, Leaves(root)[i].id) == Some(Leaves(root)[i])
  {
    LeavesAreLeaves(root);
    FindsThatLeaf(root, i);
    FoundIsThere(root, Leaves(root)[i].id);
  }

  lemma {:induction false} SplitLeafReplaces(root: PanelNode, i: nat, dir: Direction, placement: Placement,
                                             newLeafId: PanelId, newSplitId: PanelId)
    requires Distinct(root) && i < |Leaves(root)|
    ensures var target := Leaves(root)[i];
      var r := ReplaceNode(root, target.id, SplitNode(target, dir, placement, newLeafId, newSplitId));
      && AtMostLeaf(root, target) && r.Some?
      && SplitLeaf(root, target.id, dir, placement, newLeafId, newSplitId) == Some(SplitResult(r.value, newLeafId))
  {
    SplitTarget(root, i);
    ReplaceNodeIffThere(root, Leaves(root)[i].id, SplitNode(Leaves(root)[i], dir, placement, newLeafId, newSplitId));
  }

  /** It adds exactly the two new ids. */
  lemma {:induction false} SplitLeafIds(root: PanelNode, i: nat, dir: Direction, placement: Placement,
                                        newLeafId: PanelId, newSplitId: PanelId, x: PanelId)
    requires Distinct(root) && i < |Leaves(root)|
    ensures var r := SplitLeaf(root, Leaves(root)[i].id, dir, placement, newLeafId, newSplitId);
      r.Some? && Ids(r.value.root)[x] == Ids(root)[x] + One(x, newLeafId) + One(x, newSplitId)
  {
    var target := Leaves(root)[i];
    var by_ := SplitNode(target, dir, placement, newLeafId, newSplitId);
    SplitLeafReplaces(root, i, dir, placement, newLeafId, newSplitId);
    ReplaceNodeIds(root, target, by_, x);
    SplitNodeIds(target, dir, placement, newLeafId, newSplitId, x);
  }

  /** For any tree. */
  lemma {:induction false} SplitLeafNullIff(root: PanelNode, leafId: PanelId, dir: Direction, placement: Placement,
                         newLeafId: PanelId, newSplitId: PanelId)
    ensures SplitLeaf(root, leafId, dir, placement, newLeafId, newSplitId).None? <==>
            forall l | l in Leaves(root) :: l.id != leafId
  {
    FindsFirstById(root, leafId);
    match FindLeafById(root, leafId)
    case None =>
    case Some(target) =>
      FoundIsThere(root, leafId);
      ReplaceNodeIffThere(root, leafId, SplitNode(target, dir, placement, newLeafId, newSplitId));
  }

  // ---------------------------------------------------------------------------------------
  // The direction in which the new leaf sits

  predicate HasChildLeaf(cs: seq<PanelNode>, id: PanelId) {
    exists i | 0 <= i < |cs| :: cs[i].Leaf? && cs[i].id == id
  }

  /** The direction of the split that holds leaf `id`. */
  function ParentDirection(root: PanelNode, id: PanelId): Option<Direction>
    decreases root, 1
  {
    match root
    case Leaf(_, _) => None
    case Split(_, dir, _, cs) => if HasChildLeaf(cs, id) then Some(dir) else ParentDirectionIn(cs, id)
  }

  function ParentDirectionIn(cs: seq<PanelNode>, id: PanelId): Option<Direction>
    decreases cs, 0
  {
    if cs == [] then None
    else
      var d := ParentDirection(cs[0], id);
      if d.Some? then d else ParentDirectionIn(cs[1..], id)
  }

  lemma HasChildLeafCons(cs: seq<PanelNode>, id: PanelId)
    requires cs != []
    ensures HasChildLeaf(cs, id) <==> (cs[0].Leaf? && cs[0].id == id) || HasChildLeaf(cs[1..], id)
  {
  }

  lemma {:induction false} NoParentIfAbsent(root: PanelNode, id: PanelId)
    requires id !in Ids(root)
    ensures ParentDirection(root, id) == None
    decreases root, 1
  {
    if root.Split? { NoParentIfAbsentIn(root.children, id); }
  }

  lemma {:induction false} NoParentIfAbsentIn(cs: seq<PanelNode>, id: PanelId)
    requires id !in IdsOf(cs)
    ensures ParentDirectionIn(cs, id) == None && !HasChildLeaf(cs, id)
    decreases cs, 0
  {
    if cs != [] {
      NoParentIfAbsent(cs[0], id);
      NoParentIfAbsentIn(cs[1..], id);
      HasChildLeafCons(cs, id);
    }
  }

  lemma {:induction false} ReplacedHoldsNew(root: PanelNode, target: PanelId, by_: PanelNode, newLeafId: PanelId)
    requires by_.Split? && HasChildLeaf(by_.children, newLeafId) && newLeafId !in Ids(root)
    ensures var r := ReplaceNode(root, target, by_);
      r.Some? ==> r.value.Split? && ParentDirection(r.value, newLeafId) == Some(by_.direction)
    decreases root, 1
  {
    if root.Split? && root.id != target { ReplacedHoldsNewIn(root.children, target, by_, newLeafId); }
  }

  lemma {:induction false} ReplacedHoldsNewIn(cs: seq<PanelNode>, target: PanelId, by_: PanelNode, newLeafId: PanelId)
    requires by_.Split? && HasChildLeaf(by_.children, newLeafId) && newLeafId !in IdsOf(cs)
    ensures var r := ReplaceIn(cs, target, by_);
      && !HasChildLeaf(r.children, newLeafId)
      && ParentDirectionIn(r.children, newLeafId) == if r.changed then Some(by_.direction) else None
    decreases cs, 0
  {
    if cs != [] {
      ReplacedHoldsNew(cs[0], target, by_, newLeafId);
      ReplacedHoldsNewIn(cs[1..], target, by_, newLeafId);
      NoParentIfAbsent(cs[0], newLeafId);
      var r, rest := ReplaceIn(cs, target, by_), ReplaceIn(cs[1..], target, by_);
      assert r.children[1..] == rest.children;
      HasChildLeafCons(r.children, newLeafId);
    }
  }

  /** The new leaf sits in a split of the requested direction. */
  lemma {:induction false} SplitLeafDirection(root: PanelNode, i: nat, dir: Direction, placement: Placement,
                                              newLeafId: PanelId, newSplitId: PanelId)
    requires Distinct(root) && i < |Leaves(root)| && newLeafId !in Ids(root)
    ensures var r := SplitLeaf(root, Leaves(root)[i].id, dir, placement, newLeafId, newSplitId);
      r.Some? && ParentDirection(r.value.root, newLeafId) == Some(dir)
  {
    var target := Leaves(root)[i];
    var by_ := SplitNode(target, dir, placement, newLeafId, newSplitId);
    SplitLeafReplaces(root, i, dir, placement, newLeafId, newSplitId);
    assert by_.children[if placement.Before? then 0 else 1] == Leaf(newLeafId, None);
    ReplacedHoldsNew(root, target.id, by_, newLeafId);
  }
}
