/** The direction and the sizes of the splits, which the leaf lists do not show: what resizing,
    editing, splitting and removing do to each of them. */
module PanelFrames {
  import opened Wrappers
  import opened Lists
  import opened PanelTree
  import opened PanelEdit
  import opened PanelRestructure
  import opened PanelSplit
  import opened PanelInvariant

  datatype Frame = Frame(direction: Direction, sizes: seq<real>)

  /** The direction and sizes of the split with this id, if there is one. */
  function FrameAt(root: PanelNode, id: PanelId): Option<Frame>
    decreases root, 1
  {
    match root
    case Leaf(_, _) => None
    case Split(splitId, dir, sizes, cs) => if splitId == id then Some(Frame(dir, sizes)) else FrameIn(cs, id)
  }

  function FrameIn(cs: seq<PanelNode>, id: PanelId): Option<Frame>
    decreases cs, 0
  {
    if cs == [] then None
    else
      var found := FrameAt(cs[0], id);
      if found.Some? then found else FrameIn(cs[1..], id)
  }

  lemma {:induction false} NoFrameIfAbsent(root: PanelNode, id: PanelId)
    requires id !in Ids(root)
    ensures FrameAt(root, id) == None
    decreases root, 1
  {
    if root.Split? { NoFrameIfAbsentIn(root.children, id); }
  }

  lemma {:induction false} NoFrameIfAbsentIn(cs: seq<PanelNode>, id: PanelId)
    requires id !in IdsOf(cs)
    ensures FrameIn(cs, id) == None
    decreases cs, 0
  {
    if cs != [] {
      NoFrameIfAbsent(cs[0], id);
      NoFrameIfAbsentIn(cs[1..], id);
    }
  }

  // ---------------------------------------------------------------------------------------
  // Edits

  /** A split takes new sizes only if it is the one named and they are as many as the old ones. */
  function EditedFrame(f: Option<Frame>, e: Edit, id: PanelId): Option<Frame> {
    if f.Some? && e.SetSizes? && e.splitId == id && |f.value.sizes| == |e.sizes|
    then Some(Frame(f.value.direction, e.sizes)) else f
  }

  lemma {:induction false} EditFrame(root: PanelNode, e: Edit, id: PanelId)
    ensures FrameAt(MapTree(root, e), id) == EditedFrame(FrameAt(root, id), e, id)
    decreases root, 1
  {
    if root.Split? { EditFrameIn(root.children, e, id); }
  }

  lemma {:induction false} EditFrameIn(cs: seq<PanelNode>, e: Edit, id: PanelId)
    ensures FrameIn(MapAll(cs, e), id) == EditedFrame(FrameIn(cs, id), e, id)
    decreases cs, 0
  {
    if cs != [] {
      EditFrame(cs[0], e, id);
      EditFrameIn(cs[1..], e, id);
      assert MapAll(cs, e)[1..] == MapAll(cs[1..], e);
    }
  }

  /** Moving a session touches no split. */
  lemma {:induction false} MoveKeepsFrames(root: PanelNode, target: PanelId, sid: SessionId)
    ensures forall id :: FrameAt(MoveSession(root, target, sid), id) == FrameAt(root, id)
  {
    forall id ensures FrameAt(MoveSession(root, target, sid), id) == FrameAt(root, id) {
      EditFrame(root, Detach(sid), id);
      EditFrame(DetachSession(root, sid), SetSession(target, Some(sid)), id);
    }
  }

  // ---------------------------------------------------------------------------------------
  // Splitting

  /** Replacing the one leaf `target` adds the splits of the replacement and touches no other. */
  lemma {:induction false} ReplaceFrame(root: PanelNode, target: PanelNode, by_: PanelNode, id: PanelId)
    requires AtMostLeaf(root, target) && target.Leaf?
    ensures var r := ReplaceNode(root, target.id, by_);
      r.Some? ==>
        && (FrameAt(by_, id) == None ==> FrameAt(r.value, id) == FrameAt(root, id))
        && (id !in Ids(root) ==> FrameAt(r.value, id) == FrameAt(by_, id))
    decreases root, 1
  {
    ChildrenAtMostLeaf(root, target);
    if root.Split? { ReplaceFrameIn(root.children, target, by_, id); }
  }

  lemma {:induction false} ReplaceFrameIn(cs: seq<PanelNode>, target: PanelNode, by_: PanelNode, id: PanelId)
    requires AtMostLeafIn(cs, target) && target.Leaf?
    ensures var r := ReplaceIn(cs, target.id, by_);
      && (FrameAt(by_, id) == None ==> FrameIn(r.children, id) == FrameIn(cs, id))
      && (r.changed && id !in IdsOf(cs) ==> FrameIn(r.children, id) == FrameAt(by_, id))
    decreases cs, 0
  {
    if cs != [] {
      TailKeepsTarget(cs, target);
      ReplaceFrame(cs[0], target, by_, id);
      ReplaceFrameIn(cs[1..], target, by_, id);
      ReplaceInIffThere(cs[1..], target.id, by_);
      ReplaceNodeIffThere(cs[0], target.id, by_);
      assert ReplaceIn(cs, target.id, by_).children[1..] == ReplaceIn(cs[1..], target.id, by_).children;
      if id !in IdsOf(cs) {
        NoFrameIfAbsent(cs[0], id);
        NoFrameIfAbsentIn(cs[1..], id);
      }
    }
  }

  /** The split divides the space in two equal parts. */
  predicate HalvesAt(root: PanelNode, id: PanelId, dir: Direction) {
    var made := FrameAt(root, id);
    && made.Some? && made.value.direction == dir
    && |made.value.sizes| == 2 && made.value.sizes[0] == made.value.sizes[1]
    && made.value.sizes[0] + made.value.sizes[1] == 100.0
  }

  /** splitLeaf makes a split of the requested direction that gives each half of the space, and
      leaves the direction and sizes of every other split as they were. */
  lemma {:induction false} SplitLeafFrames(root: PanelNode, i: nat, dir: Direction, placement: Placement,
                                           newLeafId: PanelId, newSplitId: PanelId)
    requires Distinct(root) && i < |Leaves(root)| && newSplitId !in Ids(root)
    ensures var r := SplitLeaf(root, Leaves(root)[i].id, dir, placement, newLeafId, newSplitId);
      && r.Some? && HalvesAt(r.value.root, newSplitId, dir)
      && forall id | id != newSplitId :: FrameAt(r.value.root, id) == FrameAt(root, id)
  {
    var target := Leaves(root)[i];
    var by_ := SplitNode(target, dir, placement, newLeafId, newSplitId);
    SplitLeafReplaces(root, i, dir, placement, newLeafId, newSplitId);
    LeavesAreLeaves(root);
    ReplaceFrame(root, target, by_, newSplitId);
    var r := SplitLeaf(root, target.id, dir, placement, newLeafId, newSplitId).value.root;
    forall id | id != newSplitId ensures FrameAt(r, id) == FrameAt(root, id) {
      OnlyLeavesNoFrame(SplitPair(target, placement, newLeafId), id);
      ReplaceFrame(root, target, by_, id);
    }
  }

  lemma {:induction false} OnlyLeavesNoFrame(pair: seq<PanelNode>, id: PanelId)
    requires |pair| == 2 && pair[0].Leaf? && pair[1].Leaf?
    ensures FrameIn(pair, id) == None
  {
    assert pair[1..] == [pair[1]] && pair[1..][1..] == [];
    assert FrameIn(pair[1..][1..], id) == None;
    assert FrameIn(pair[1..], id) == None;
  }

  // ---------------------------------------------------------------------------------------
  // Removing

  /** What removal makes of each child. */
  function Reduced(cs: seq<PanelNode>, leafId: PanelId): seq<Option<PanelNode>> {
    seq(|cs|, i requires 0 <= i < |cs| => RemoveLeaf(cs[i], leafId))
  }

  function Collected(rs: seq<Option<PanelNode>>, sizes: seq<real>, from: nat): seq<Survivor> {
    if rs == [] then []
    else
      var first := if rs[0].Some? then [Survivor(rs[0].value, SizeAt(sizes, from))] else [];
      first + Collected(rs[1..], sizes, from + 1)
  }

  lemma {:induction false} SurvivorsAreCollected(cs: seq<PanelNode>, sizes: seq<real>, from: nat, leafId: PanelId)
    ensures Survivors(cs, sizes, from, leafId) == Collected(Reduced(cs, leafId), sizes, from)
    decreases cs, 0
  {
    if cs != [] {
      SurvivorsAreCollected(cs[1..], sizes, from + 1, leafId);
      assert Reduced(cs, leafId)[1..] == Reduced(cs[1..], leafId);
    }
  }

  /** Entry k of `sv` is what is left of child `at[k]`. */
  ghost predicate Survives(rs: seq<Option<PanelNode>>, sizes: seq<real>, from: nat, i: nat, s: Survivor) {
    i < |rs| && rs[i] == Some(s.child) && s.oldSize == SizeAt(sizes, from + i)
  }

  /** `at` has the places, from `skip` on, of the children that survive, and `sv` what is left of them. */
  ghost predicate PlacesOf(rs: seq<Option<PanelNode>>, sizes: seq<real>, from: nat, skip: nat, at: seq<nat>,
                           sv: seq<Survivor>)
  {
    && |at| == |sv| && Increasing(at)
    && (forall k | 0 <= k < |at| :: skip <= at[k] && Survives(rs, sizes, from, at[k], sv[k]))
    && (forall i: nat | skip <= i < |rs| && rs[i].Some? :: i in at)
  }

  /** Places among the tail are places from 1 on among all. */
  lemma TailPlaces(rs: seq<Option<PanelNode>>, sizes: seq<real>, from: nat, later: seq<nat>, sv: seq<Survivor>)
    requires rs != [] && PlacesOf(rs[1..], sizes, from + 1, 0, later, sv)
    ensures PlacesOf(rs, sizes, from, 1, Later(later), sv)
  {
    LaterIncreases(later);
    forall k | 0 <= k < |later| ensures 1 <= Later(later)[k] && Survives(rs, sizes, from, Later(later)[k], sv[k]) {
      assert Survives(rs[1..], sizes, from + 1, later[k], sv[k]);
      TailSurvives(rs, sizes, from, later[k], sv[k]);
    }
    TailCovers(rs, later);
  }

  lemma TailSurvives(rs: seq<Option<PanelNode>>, sizes: seq<real>, from: nat, i: nat, s: Survivor)
    requires rs != [] && Survives(rs[1..], sizes, from + 1, i, s)
    ensures Survives(rs, sizes, from, i + 1, s)
  {
    assert rs[1..][i] == rs[i + 1];
  }

  lemma TailCovers(rs: seq<Option<PanelNode>>, later: seq<nat>)
    requires rs != [] && forall i: nat | i < |rs[1..]| && rs[1..][i].Some? :: i in later
    ensures forall i: nat | 1 <= i < |rs| && rs[i].Some? :: i in Later(later)
  {
    forall i: nat | 1 <= i < |rs| && rs[i].Some? ensures i in Later(later) {
      assert rs[1..][i - 1] == rs[i];
      var k :| 0 <= k < |later| && later[k] == i - 1;
      assert Later(later)[k] == i;
    }
  }

  lemma FirstPlace(rs: seq<Option<PanelNode>>, sizes: seq<real>, from: nat, at: seq<nat>, sv: seq<Survivor>)
    requires rs != [] && PlacesOf(rs, sizes, from, 1, at, sv)
    ensures rs[0].Some? ==> PlacesOf(rs, sizes, from, 0, [0] + at, [Survivor(rs[0].value, SizeAt(sizes, from))] + sv)
    ensures rs[0].None? ==> PlacesOf(rs, sizes, from, 0, at, sv)
  {
    if rs[0].Some? {
      var all, whole := [0] + at, [Survivor(rs[0].value, SizeAt(sizes, from))] + sv;
      forall i: nat | i < |rs| && rs[i].Some? ensures i in all {
        if i > 0 { assert i in at; }
      }
      forall k | 0 <= k < |all| ensures Survives(rs, sizes, from, all[k], whole[k]) {
        if k > 0 { assert Survives(rs, sizes, from, at[k - 1], sv[k - 1]); }
      }
    }
  }

  /** Which children survive, and what is left of them. */
  lemma {:induction false} SurvivorPlaces(rs: seq<Option<PanelNode>>, sizes: seq<real>, from: nat)
    returns (at: seq<nat>)
    ensures PlacesOf(rs, sizes, from, 0, at, Collected(rs, sizes, from))
    decreases |rs|
  {
    at := [];
    if rs != [] {
      var later := SurvivorPlaces(rs[1..], sizes, from + 1);
      var rest := Collected(rs[1..], sizes, from + 1);
      TailPlaces(rs, sizes, from, later, rest);
      FirstPlace(rs, sizes, from, Later(later), rest);
      assert [] + rest == rest;
      at := if rs[0].Some? then [0] + Later(later) else Later(later);
    }
  }

  /** A new size: in proportion to the old one if these have a positive total, and else one of n
      equal ones.  Sizes are percentages. */
  predicate SharedOut(size: real, old_: real, total: real, n: nat) {
    if total > 0.0 then size * total == old_ * 100.0 else size * n as real == 100.0
  }

  ghost predicate Reshared(old_: seq<real>, sizes: seq<real>) {
    && |sizes| == |old_|
    && forall k | 0 <= k < |sizes| :: SharedOut(sizes[k], old_[k], Total(old_), |old_|)
  }

  lemma {:induction false} RescaledReshares(old_: seq<real>)
    requires old_ != []
    ensures Reshared(old_, Rescaled(old_))
  {
    RescaledSum(old_);
    forall k | 0 <= k < |old_| ensures SharedOut(Rescaled(old_)[k], old_[k], Total(old_), |old_|) {
      RescaledAt(old_, k);
    }
  }

  lemma {:induction false} RescaledAt(old_: seq<real>, k: nat)
    requires k < |old_|
    ensures k < |Rescaled(old_)| && SharedOut(Rescaled(old_)[k], old_[k], Total(old_), |old_|)
  {
    var n, total := |old_|, Total(old_);
    if total > 0.0 {
      ScaledAt(old_, total, k);
      ScaleTimes(old_[k], total);
    } else {
      EqualAt(n, Share(n), k);
      ShareTimes(n);
    }
  }

  lemma ScaleTimes(size: real, total: real)
    requires total > 0.0
    ensures Scale(size, total) * total == size * 100.0
  {
  }

  lemma ShareTimes(n: nat)
    requires n > 0
    ensures Share(n) * n as real == 100.0
  {
  }

  lemma {:induction false} EqualAt(n: nat, share: real, k: nat)
    requires k < n
    ensures |Equal(n, share)| == n && Equal(n, share)[k] == share
  {
    SumEqual(n, share);
    if k > 0 { EqualAt(n - 1, share, k - 1); }
  }

  /** removeLeaf on a split, for any tree: it keeps the children that keep a leaf, in order, each
      reduced by itself.  With none left it is gone, a single one takes its place, and otherwise it
      keeps its id and direction and shares the space out again. `at` has the places of those
      children, `old_` their sizes before, where a missing size counts as zero. */
  lemma {:induction false} RemovedFromSplit(root: PanelNode, leafId: PanelId) returns (at: seq<nat>, old_: seq<real>)
    requires root.Split?
    ensures |old_| == |at| && (forall k, l | 0 <= k < l < |at| :: at[k] < at[l])
    ensures forall i: nat :: i in at <==>
              i < |root.children| && exists l :: l in Leaves(root.children[i]) && l.id != leafId
    ensures forall k | 0 <= k < |at| :: at[k] < |root.children| && RemoveLeaf(root.children[at[k]], leafId).Some?
    ensures forall k | 0 <= k < |at| :: old_[k] == if at[k] < |root.sizes| then root.sizes[at[k]] else 0.0
    ensures var r := RemoveLeaf(root, leafId);
      && (|at| == 0 ==> r == None)
      && (|at| == 1 ==> r == RemoveLeaf(root.children[at[0]], leafId))
      && (|at| >= 2 ==>
            && r.Some? && r.value.Split? && r.value.id == root.id && r.value.direction == root.direction
            && Reshared(old_, r.value.sizes) && |r.value.children| == |at|
            && forall k | 0 <= k < |at| :: Some(r.value.children[k]) == RemoveLeaf(root.children[at[k]], leafId))
  {
    var rs := Reduced(root.children, leafId);
    var sv := Survivors(root.children, root.sizes, 0, leafId);
    SurvivorsAreCollected(root.children, root.sizes, 0, leafId);
    at := SurvivorPlaces(rs, root.sizes, 0);
    old_ := OldSizes(sv);
    forall k | 0 <= k < |at| ensures RemoveLeaf(root.children[at[k]], leafId) == Some(sv[k].child) {
      assert Survives(rs, root.sizes, 0, at[k], sv[k]);
    }
    forall i: nat | i < |root.children|
      ensures i in at <==> exists l :: l in Leaves(root.children[i]) && l.id != leafId
    {
      RemoveLeafNullIff(root.children[i], leafId);
      assert rs[i] == RemoveLeaf(root.children[i], leafId);
    }
    if |sv| >= 2 { RescaledReshares(old_); }
  }
}
