/** Splitting and removing leaves: the operations that change a panel tree's structure. */
module PanelRestructure {
  import opened Wrappers
  import opened PanelTree

  // ---------------------------------------------------------------------------------------
  // replaceNode and splitLeaf

  /** None stands for the original's null: no node named `target` was met. */
  function ReplaceNode(root: PanelNode, target: PanelId, by_: PanelNode): Option<PanelNode>
    decreases root, 1
  {
    if root.id == target then Some(by_)
    else match root
      case Leaf(_, _) => None
      case Split(id, dir, sizes, cs) =>
        var r := ReplaceIn(cs, target, by_);
        if r.changed then Some(Split(id, dir, sizes, r.children)) else None
  }

  datatype Replaced = Replaced(children: seq<PanelNode>, changed: bool)

  function ReplaceIn(cs: seq<PanelNode>, target: PanelId, by_: PanelNode): (r: Replaced)
    decreases cs, 0
  {
    if cs == [] then Replaced([], false)
    else
      var rest := ReplaceIn(cs[1..], target, by_);
      match ReplaceNode(cs[0], target, by_)
      case Some(n) => Replaced([n] + rest.children, true)
      case None => Replaced([cs[0]] + rest.children, rest.changed)
  }

  /** `done` children are replaced already; the rest of them follow. */
  function Resumed(done: seq<PanelNode>, changed: bool, rest: Replaced): Replaced {
    Replaced(done + rest.children, changed || rest.changed)
  }

  lemma {:induction false} ReplaceInStep(cs: seq<PanelNode>, i: nat, target: PanelId, by_: PanelNode,
                                         done: seq<PanelNode>, changed: bool)
    requires i < |cs|
    ensures Resumed(done, changed, ReplaceIn(cs[i..], target, by_)) == match ReplaceNode(cs[i], target, by_)
      case Some(n) => Resumed(done + [n], true, ReplaceIn(cs[i + 1..], target, by_))
      case None => Resumed(done + [cs[i]], changed, ReplaceIn(cs[i + 1..], target, by_))
  {
  }

  /** The same as a loop over the children that records whether anything changed. */
  method ReplaceNodeLoop(root: PanelNode, target: PanelId, by_: PanelNode) returns (res: Option<PanelNode>)
    ensures res == ReplaceNode(root, target, by_)
    decreases root
  {
    if root.id == target { return Some(by_); }
    if root.Leaf? { return None; }
    var changed := false;
    var children: seq<PanelNode> := [];
    ghost var all := ReplaceIn(root.children, target, by_);
    assert [] + all.children == all.children && root.children[0..] == root.children;
    for i := 0 to |root.children|
      invariant Resumed(children, changed, ReplaceIn(root.children[i..], target, by_)) == all
    {
      ReplaceInStep(root.children, i, target, by_, children, changed);
      var replaced := ReplaceNodeLoop(root.children[i], target, by_);
      if replaced.Some? {
        changed := true;
        children := children + [replaced.value];
      } else {
        children := children + [root.children[i]];
      }
    }
    assert children + [] == children;
    if !changed { return None; }
    return Some(Split(root.id, root.direction, root.sizes, children));
  }

  datatype SplitResult = SplitResult(root: PanelNode, newLeafId: PanelId)

  /** The two new ids come from the caller, standing for the generator of fresh ids. */
  function SplitLeaf(root: PanelNode, leafId: PanelId, dir: Direction, placement: Placement,
                     newLeafId: PanelId, newSplitId: PanelId): Option<SplitResult>
  {
    match FindLeafById(root, leafId)
    case None => None
    case Some(target) =>
      var newLeaf := Leaf(newLeafId, None);
      var children := if placement.Before? then [newLeaf, target] else [target, newLeaf];
      match ReplaceNode(root, leafId, Split(newSplitId, dir, [50.0, 50.0], children))
      case None => None
      case Some(next) => Some(SplitResult(next, newLeafId))
  }

  // ---------------------------------------------------------------------------------------
  // removeLeaf

  datatype Survivor = Survivor(child: PanelNode, oldSize: real)

  /** `root.sizes[i] ?? 0` */
  function SizeAt(sizes: seq<real>, i: nat): real {
    if i < |sizes| then sizes[i] else 0.0
  }

  function Total(sizes: seq<real>): real {
    if sizes == [] then 0.0 else sizes[0] + Total(sizes[1..])
  }

  function OldSizes(sv: seq<Survivor>): seq<real> {
    seq(|sv|, i requires 0 <= i < |sv| => sv[i].oldSize)
  }

  function Children(sv: seq<Survivor>): seq<PanelNode> {
    seq(|sv|, i requires 0 <= i < |sv| => sv[i].child)
  }

  /** `size` as a percentage of `total`. */
  function Scale(size: real, total: real): real
    requires total > 0.0
  {
    size / total * 100.0
  }

  /** One of n equal percentages. */
  function Share(n: nat): real
    requires n > 0
  {
    100.0 / n as real
  }

  function Scaled(sizes: seq<real>, total: real): (r: seq<real>)
    requires total > 0.0
  {
    if sizes == [] then [] else [Scale(sizes[0], total)] + Scaled(sizes[1..], total)
  }

  function Equal(n: nat, share: real): seq<real> {
    if n == 0 then [] else [share] + Equal(n - 1, share)
  }

  /** The surviving siblings' sizes scaled to a total of 100, or equal sizes if their total is not positive. */
  function Rescaled(old_: seq<real>): seq<real>
    requires old_ != []
  {
    var total := Total(old_);
    if total > 0.0 then Scaled(old_, total) else Equal(|old_|, Share(|old_|))
  }

  /** What is left of a split, given the children that survive. */
  function Rebuild(root: PanelNode, sv: seq<Survivor>): Option<PanelNode>
    requires root.Split?
  {
    if |sv| == 0 then None
    else if |sv| == 1 then Some(sv[0].child)
    else Some(Split(root.id, root.direction, Rescaled(OldSizes(sv)), Children(sv)))
  }

  function RemoveLeaf(root: PanelNode, leafId: PanelId): Option<PanelNode>
    decreases root, 1
  {
    match root
    case Leaf(id, _) => if id == leafId then None else Some(root)
    case Split(_, _, sizes, cs) => Rebuild(root, Survivors(cs, sizes, 0, leafId))
  }

  /** The survivors among `cs`, whose sizes start at position `from` of `sizes`. */
  function Survivors(cs: seq<PanelNode>, sizes: seq<real>, from: nat, leafId: PanelId): seq<Survivor>
    decreases cs, 0
  {
    if cs == [] then []
    else
      var rest := Survivors(cs[1..], sizes, from + 1, leafId);
      match RemoveLeaf(cs[0], leafId)
      case None => rest
      case Some(c) => [Survivor(c, SizeAt(sizes, from))] + rest
  }

  lemma SurvivorsStep(cs: seq<PanelNode>, sizes: seq<real>, i: nat, leafId: PanelId)
    requires i < |cs|
    ensures var rest := Survivors(cs[i + 1..], sizes, i + 1, leafId);
      Survivors(cs[i..], sizes, i, leafId) == match RemoveLeaf(cs[i], leafId)
        case None => rest
        case Some(c) => [Survivor(c, SizeAt(sizes, i))] + rest
  {
  }

  /** The same as a loop that pushes the survivors. */
  method RemoveLeafLoop(root: PanelNode, leafId: PanelId) returns (res: Option<PanelNode>)
    ensures res == RemoveLeaf(root, leafId)
    decreases root
  {
    if root.Leaf? {
      return if root.id == leafId then None else Some(root);
    }
    var survivors: seq<Survivor> := [];
    for i := 0 to |root.children|
      invariant Survivors(root.children, root.sizes, 0, leafId)
             == survivors + Survivors(root.children[i..], root.sizes, i, leafId)
    {
      SurvivorsStep(root.children, root.sizes, i, leafId);
      var reduced := RemoveLeafLoop(root.children[i], leafId);
      if reduced.Some? {
        survivors := survivors + [Survivor(reduced.value, SizeAt(root.sizes, i))];
      }
    }
    assert survivors + [] == survivors;
    if |survivors| == 0 { return None; }
    if |survivors| == 1 { return Some(survivors[0].child); }
    var totalOld := Total(OldSizes(survivors));
    var sizes := if totalOld > 0.0 then Scaled(OldSizes(survivors), totalOld)
                 else Equal(|survivors|, Share(|survivors|));
    return Some(Split(root.id, root.direction, sizes, Children(survivors)));
  }

  // ---------------------------------------------------------------------------------------
  // Sums

  lemma {:induction false} SumScaled(s: seq<real>, total: real)
    requires total > 0.0
    ensures Total(Scaled(s, total)) == Scale(Total(s), total) && |Scaled(s, total)| == |s|
  {
    if s != [] {
      SumScaled(s[1..], total);
      assert Scaled(s, total)[1..] == Scaled(s[1..], total);
    }
  }

  lemma {:induction false} ScaledAt(s: seq<real>, total: real, i: nat)
    requires total > 0.0 && i < |s|
    ensures |Scaled(s, total)| == |s| && Scaled(s, total)[i] == Scale(s[i], total)
  {
    if i == 0 {
      SumScaled(s, total);
    } else {
      ScaledAt(s[1..], total, i - 1);
    }
  }

  lemma {:induction false} SumEqual(n: nat, share: real)
    ensures Total(Equal(n, share)) == n as real * share && |Equal(n, share)| == n
  {
    if n > 0 {
      SumEqual(n - 1, share);
      assert Equal(n, share)[1..] == Equal(n - 1, share);
    }
  }

  lemma ScaleWhole(total: real)
    requires total > 0.0
    ensures Scale(total, total) == 100.0
  {
  }

  lemma ShareWhole(n: nat)
    requires n > 0
    ensures n as real * Share(n) == 100.0
  {
  }

  lemma {:induction false} ScaledTo100(s: seq<real>)
    ensures Scaled(s, 100.0) == s
  {
    if s != [] { ScaledTo100(s[1..]); }
  }

  lemma RescaledSum(old_: seq<real>)
    requires old_ != []
    ensures Total(Rescaled(old_)) == 100.0 && |Rescaled(old_)| == |old_|
  {
    var n := |old_|;
    if Total(old_) > 0.0 {
      SumScaled(old_, Total(old_));
      ScaleWhole(Total(old_));
    } else {
      SumEqual(n, Share(n));
      ShareWhole(n);
    }
  }

  /** Scaling keeps the ratio of any two sizes. */
  lemma {:induction false} RescaledRatio(old_: seq<real>, i: nat, j: nat)
    requires i < |old_| && j < |old_| && Total(old_) > 0.0
    ensures |Rescaled(old_)| == |old_|
    ensures Rescaled(old_)[i] * old_[j] == Rescaled(old_)[j] * old_[i]
  {
    ScaledAt(old_, Total(old_), i);
    ScaledAt(old_, Total(old_), j);
    RatioArith(old_[i], old_[j], Total(old_));
  }

  lemma RatioArith(a: real, b: real, t: real)
    requires t > 0.0
    ensures Scale(a, t) * b == Scale(b, t) * a
  {
  }

  // ---------------------------------------------------------------------------------------
  // What removeLeaf leaves

  ghost function Without(ls: seq<PanelNode>, id: PanelId): seq<PanelNode> {
    if ls == [] then [] else (if ls[0].id == id then [] else [ls[0]]) + Without(ls[1..], id)
  }

  lemma {:induction false} WithoutAppend(a: seq<PanelNode>, b: seq<PanelNode>, id: PanelId)
    ensures Without(a + b, id) == Without(a, id) + Without(b, id)
  {
    if a == [] {
      assert a + b == b;
    } else {
      assert (a + b)[1..] == a[1..] + b;
      WithoutAppend(a[1..], b, id);
    }
  }

  ghost function LeavesOpt(o: Option<PanelNode>): seq<PanelNode> {
    if o.None? then [] else Leaves(o.value)
  }

  lemma ChildrenCons(s: Survivor, sv: seq<Survivor>)
    ensures Children([s] + sv) == [s.child] + Children(sv)
    ensures OldSizes([s] + sv) == [s.oldSize] + OldSizes(sv)
  {
  }

  lemma {:induction false} LeavesOfCons(c: PanelNode, cs: seq<PanelNode>)
    ensures LeavesOf([c] + cs) == Leaves(c) + LeavesOf(cs)
    ensures IdsOf([c] + cs) == Ids(c) + IdsOf(cs)
  {
  }

  /** For any tree: the leaves of the result are the original leaves, in order, minus the removed
      id; null stands for no leaves at all. */
  lemma {:induction false} RemoveLeafLeaves(root: PanelNode, leafId: PanelId)
    ensures LeavesOpt(RemoveLeaf(root, leafId)) == Without(Leaves(root), leafId)
    ensures RemoveLeaf(root, leafId).Some? ==> Leaves(RemoveLeaf(root, leafId).value) != []
    decreases root, 1
  {
    match root
    case Leaf(_, _) => assert Leaves(root)[1..] == [];
    case Split(_, _, sizes, cs) =>
      SurvivorLeaves(cs, sizes, 0, leafId);
      var sv := Survivors(cs, sizes, 0, leafId);
      if |sv| == 1 {
        assert Children(sv) == [sv[0].child] + [];
        LeavesOfCons(sv[0].child, []);
      } else if |sv| > 1 {
        assert Children(sv)[0] == sv[0].child;
      }
  }

  lemma {:induction false} SurvivorLeaves(cs: seq<PanelNode>, sizes: seq<real>, from: nat, leafId: PanelId)
    ensures LeavesOf(Children(Survivors(cs, sizes, from, leafId))) == Without(LeavesOf(cs), leafId)
    ensures forall s | s in Survivors(cs, sizes, from, leafId) :: Leaves(s.child) != []
    decreases cs, 0
  {
    if cs != [] {
      RemoveLeafLeaves(cs[0], leafId);
      SurvivorLeaves(cs[1..], sizes, from + 1, leafId);
      WithoutAppend(Leaves(cs[0]), LeavesOf(cs[1..]), leafId);
      var rest := Survivors(cs[1..], sizes, from + 1, leafId);
      match RemoveLeaf(cs[0], leafId) {
        case None =>
        case Some(c) =>
          ChildrenCons(Survivor(c, SizeAt(sizes, from)), rest);
          LeavesOfCons(c, Children(rest));
      }
    }
  }

  lemma {:induction false} WithoutEmpty(ls: seq<PanelNode>, id: PanelId)
    ensures Without(ls, id) == [] <==> forall l | l in ls :: l.id == id
  {
    if ls != [] {
      WithoutEmpty(ls[1..], id);
      assert forall l | l in ls :: l == ls[0] || l in ls[1..];
    }
  }

  /** For any tree: null exactly when no other leaf exists. */
  lemma {:induction false} RemoveLeafNullIff(root: PanelNode, leafId: PanelId)
    ensures RemoveLeaf(root, leafId).None? <==> forall l | l in Leaves(root) :: l.id == leafId
  {
    RemoveLeafLeaves(root, leafId);
    WithoutEmpty(Leaves(root), leafId);
  }

  /** Every split has at least two children, one size per child, and sizes that sum to 100. */
  predicate WellSized(root: PanelNode)
    decreases root, 1
  {
    root.Split? ==>
      && |root.children| >= 2 && |root.sizes| == |root.children| && Total(root.sizes) == 100.0
      && WellSizedAll(root.children)
  }

  predicate WellSizedAll(cs: seq<PanelNode>)
    decreases cs, 0
  {
    cs != [] ==> WellSized(cs[0]) && WellSizedAll(cs[1..])
  }

  /** For any tree: every split of the result is well sized. */
  lemma {:induction false} RemoveLeafWellSized(root: PanelNode, leafId: PanelId)
    ensures RemoveLeaf(root, leafId).Some? ==> WellSized(RemoveLeaf(root, leafId).value)
    decreases root, 1
  {
    match root
    case Leaf(_, _) =>
    case Split(_, _, sizes, cs) =>
      SurvivorsWellSized(cs, sizes, 0, leafId);
      var sv := Survivors(cs, sizes, 0, leafId);
      if |sv| == 1 {
        assert Children(sv)[0] == sv[0].child;
      } else if |sv| > 1 {
        RescaledSum(OldSizes(sv));
      }
  }

  lemma {:induction false} SurvivorsWellSized(cs: seq<PanelNode>, sizes: seq<real>, from: nat, leafId: PanelId)
    ensures WellSizedAll(Children(Survivors(cs, sizes, from, leafId)))
    decreases cs, 0
  {
    if cs != [] {
      RemoveLeafWellSized(cs[0], leafId);
      SurvivorsWellSized(cs[1..], sizes, from + 1, leafId);
      var rest := Survivors(cs[1..], sizes, from + 1, leafId);
      match RemoveLeaf(cs[0], leafId) {
        case None =>
        case Some(c) =>
          ChildrenCons(Survivor(c, SizeAt(sizes, from)), rest);
          assert ([c] + Children(rest))[1..] == Children(rest);
      }
    }
  }

  /** If a split remains a split, its surviving children keep their relative sizes. */
  lemma {:induction false} SiblingsKeepRatios(root: PanelNode, leafId: PanelId, i: nat, j: nat)
    requires root.Split?
    requires var sv := Survivors(root.children, root.sizes, 0, leafId);
      i < |sv| && j < |sv| && |sv| >= 2 && Total(OldSizes(sv)) > 0.0
    ensures var sv, r := Survivors(root.children, root.sizes, 0, leafId), RemoveLeaf(root, leafId);
      && r.Some? && r.value.Split? && r.value.id == root.id && r.value.direction == root.direction
      && |r.value.sizes| == |sv|
      && r.value.sizes[i] * sv[j].oldSize == r.value.sizes[j] * sv[i].oldSize
  {
    RescaledRatio(OldSizes(Survivors(root.children, root.sizes, 0, leafId)), i, j);
  }

  /** No node appears that was not there. */
  lemma {:induction false} RemoveLeafIds(root: PanelNode, leafId: PanelId)
    ensures RemoveLeaf(root, leafId).Some? ==> Ids(RemoveLeaf(root, leafId).value) <= Ids(root)
    decreases root, 1
  {
    match root
    case Leaf(_, _) =>
    case Split(_, _, sizes, cs) =>
      SurvivorIds(cs, sizes, 0, leafId);
      var sv := Survivors(cs, sizes, 0, leafId);
      if |sv| == 1 { OnlyChildIds(sv); }
  }

  lemma OnlyChildIds(sv: seq<Survivor>)
    requires |sv| == 1
    ensures IdsOf(Children(sv)) == Ids(sv[0].child)
  {
  }

  lemma {:induction false} SurvivorIds(cs: seq<PanelNode>, sizes: seq<real>, from: nat, leafId: PanelId)
    ensures IdsOf(Children(Survivors(cs, sizes, from, leafId))) <= IdsOf(cs)
    decreases cs, 0
  {
    if cs != [] {
      RemoveLeafIds(cs[0], leafId);
      SurvivorIds(cs[1..], sizes, from + 1, leafId);
      var rest := Survivors(cs[1..], sizes, from + 1, leafId);
      match RemoveLeaf(cs[0], leafId) {
        case None =>
        case Some(c) =>
          ChildrenCons(Survivor(c, SizeAt(sizes, from)), rest);
          LeavesOfCons(c, Children(rest));
      }
    }
  }

  // ---------------------------------------------------------------------------------------
  // removeLeaf on a leaf that is not there: only a well sized tree comes back as it was

  lemma {:induction false} RemoveAbsent(root: PanelNode, leafId: PanelId)
    requires leafId !in Ids(root) && WellSized(root)
    ensures RemoveLeaf(root, leafId) == Some(root)
    decreases root, 1
  {
    match root
    case Leaf(_, _) =>
    case Split(_, _, sizes, cs) =>
      assert IdsOf(cs) <= Ids(root);
      SurvivorsAbsent(cs, sizes, 0, leafId);
      var sv := Survivors(cs, sizes, 0, leafId);
      assert OldSizes(sv) == sizes;
      ScaledTo100(sizes);
  }

  lemma {:induction false} SurvivorsAbsent(cs: seq<PanelNode>, sizes: seq<real>, from: nat, leafId: PanelId)
    requires leafId !in IdsOf(cs) && WellSizedAll(cs)
    ensures var sv := Survivors(cs, sizes, from, leafId);
      |sv| == |cs| && Children(sv) == cs && forall i | 0 <= i < |sv| :: sv[i].oldSize == SizeAt(sizes, from + i)
    decreases cs, 0
  {
    if cs != [] {
      RemoveAbsent(cs[0], leafId);
      SurvivorsAbsent(cs[1..], sizes, from + 1, leafId);
      var rest := Survivors(cs[1..], sizes, from + 1, leafId);
      ChildrenCons(Survivor(cs[0], SizeAt(sizes, from)), rest);
      assert cs == [cs[0]] + cs[1..];
      var sv := Survivors(cs, sizes, from, leafId);
      forall i | 0 <= i < |sv| ensures sv[i].oldSize == SizeAt(sizes, from + i) {
        if i > 0 { assert sv[i] == rest[i - 1]; }
      }
    }
  }

  lemma {:induction false} RemoveAbsentIff(root: PanelNode, leafId: PanelId)
    requires leafId !in Ids(root)
    ensures RemoveLeaf(root, leafId) == Some(root) <==> WellSized(root)
  {
    RemoveLeafWellSized(root, leafId);
    if WellSized(root) { RemoveAbsent(root, leafId); }
  }

  // ---------------------------------------------------------------------------------------
  // removeLeaf undoes splitLeaf

  lemma RemoveFromNewSplit(target: PanelNode, newLeafId: PanelId, newSplitId: PanelId, dir: Direction,
                           placement: Placement)
    requires target.Leaf? && target.id != newLeafId
    ensures var newLeaf := Leaf(newLeafId, None);
      var children := if placement.Before? then [newLeaf, target] else [target, newLeaf];
      RemoveLeaf(Split(newSplitId, dir, [50.0, 50.0], children), newLeafId) == Some(target)
  {
    var newLeaf := Leaf(newLeafId, None);
    var sizes := [50.0, 50.0];
    assert Survivors([], sizes, 2, newLeafId) == [];
    if placement.Before? {
      assert [newLeaf, target][1..] == [target] && [target][1..] == [];
      assert Survivors([target], sizes, 1, newLeafId) == [Survivor(target, 50.0)];
      assert Survivors([newLeaf, target], sizes, 0, newLeafId) == [Survivor(target, 50.0)];
    } else {
      assert [target, newLeaf][1..] == [newLeaf] && [newLeaf][1..] == [];
      assert Survivors([newLeaf], sizes, 1, newLeafId) == [];
      assert Survivors([target, newLeaf], sizes, 0, newLeafId) == [Survivor(target, 50.0)];
    }
  }

  /** Replacing the one node named `target` by something that reduces to it is undone by the removal. */
  lemma {:induction false} RemoveReplaced(root: PanelNode, target: PanelNode, by_: PanelNode, newLeafId: PanelId)
    requires target.Leaf? && Distinct(root) && newLeafId !in Ids(root)
    requires RemoveLeaf(by_, newLeafId) == Some(target)
    requires root.id == target.id ==> root == target
    requires FindLeafById(root, target.id) == Some(target) || target.id !in Ids(root)
    ensures var r := ReplaceNode(root, target.id, by_);
      && (r.Some? <==> target.id in Ids(root))
      && (r.Some? ==> RemoveLeaf(r.value, newLeafId) == RemoveLeaf(root, newLeafId))
    decreases root, 1
  {
    if root.Split? && root.id != target.id {
      IdsSplit(root);
      ReplacedSurvivors(root.children, target, by_, root.sizes, 0, newLeafId);
    }
  }

  lemma {:induction false} IdsSplit(root: PanelNode)
    requires root.Split? && Distinct(root)
    ensures IdsOf(root.children) <= Ids(root) && root.id !in IdsOf(root.children)
    ensures forall x :: IdsOf(root.children)[x] <= 1
  {
  }

  lemma {:induction false} FoundIsThere(root: PanelNode, id: PanelId)
    ensures FindLeafById(root, id).Some? ==> id in Ids(root)
    decreases root, 1
  {
    if root.Split? { FoundIsThereIn(root.children, id); }
  }

  lemma {:induction false} FoundIsThereIn(cs: seq<PanelNode>, id: PanelId)
    ensures FindById(cs, id).Some? ==> id in IdsOf(cs)
    decreases cs, 0
  {
    if cs != [] {
      FoundIsThere(cs[0], id);
      FoundIsThereIn(cs[1..], id);
    }
  }

  lemma {:induction false} ReplacedSurvivors(cs: seq<PanelNode>, target: PanelNode, by_: PanelNode,
                                            sizes: seq<real>, from: nat, newLeafId: PanelId)
    requires target.Leaf? && newLeafId !in IdsOf(cs) && forall x :: IdsOf(cs)[x] <= 1
    requires RemoveLeaf(by_, newLeafId) == Some(target)
    requires FindById(cs, target.id) == Some(target) || target.id !in IdsOf(cs)
    ensures var r := ReplaceIn(cs, target.id, by_);
      && (r.changed <==> target.id in IdsOf(cs))
      && Survivors(r.children, sizes, from, newLeafId) == Survivors(cs, sizes, from, newLeafId)
    decreases cs, 0
  {
    if cs != [] {
      var c, tail := cs[0], cs[1..];
      HeadAndTail(cs, target);
      OnlyNode(c, target);
      RemoveReplaced(c, target, by_, newLeafId);
      ReplacedSurvivors(tail, target, by_, sizes, from + 1, newLeafId);
      var r := ReplaceIn(cs, target.id, by_);
      assert r.children[1..] == ReplaceIn(tail, target.id, by_).children;
    }
  }

  /** Where ids are distinct among siblings, the target sits in the first of them or in the others. */
  lemma {:induction false} HeadAndTail(cs: seq<PanelNode>, target: PanelNode)
    requires cs != [] && (forall x :: IdsOf(cs)[x] <= 1)
    requires FindById(cs, target.id) == Some(target) || target.id !in IdsOf(cs)
    ensures IdsOf(cs) == Ids(cs[0]) + IdsOf(cs[1..])
    ensures Distinct(cs[0]) && forall x :: IdsOf(cs[1..])[x] <= 1
    ensures FindLeafById(cs[0], target.id) == Some(target) || target.id !in Ids(cs[0])
    ensures FindById(cs[1..], target.id) == Some(target) || target.id !in IdsOf(cs[1..])
    ensures target.id in Ids(cs[0]) ==> target.id !in IdsOf(cs[1..])
  {
    var c, tail := cs[0], cs[1..];
    forall x ensures Ids(c)[x] <= 1 && IdsOf(tail)[x] <= 1 { assert IdsOf(cs)[x] <= 1; }
    FoundIsThere(c, target.id);
    FoundIsThereIn(tail, target.id);
    assert IdsOf(cs)[target.id] <= 1;
  }

  /** If looking an id up in a tree of distinct ids finds a leaf, no split bears the id. */
  lemma {:induction false} OnlyNode(c: PanelNode, target: PanelNode)
    requires Distinct(c) && (FindLeafById(c, target.id) == Some(target) || target.id !in Ids(c))
    ensures c.id == target.id ==> c == target
  {
    if c.Split? && c.id == target.id {
      IdsSplit(c);
      FoundIsThereIn(c.children, target.id);
    }
  }

  lemma {:induction false} FindReturnsNamedLeaf(root: PanelNode, id: PanelId)
    ensures FindLeafById(root, id).Some? ==> FindLeafById(root, id).value.Leaf? && FindLeafById(root, id).value.id == id
    decreases root, 1
  {
    if root.Split? { FindByIdReturnsNamedLeaf(root.children, id); }
  }

  lemma {:induction false} FindByIdReturnsNamedLeaf(cs: seq<PanelNode>, id: PanelId)
    ensures FindById(cs, id).Some? ==> FindById(cs, id).value.Leaf? && FindById(cs, id).value.id == id
    decreases cs, 0
  {
    if cs != [] {
      FindReturnsNamedLeaf(cs[0], id);
      FindByIdReturnsNamedLeaf(cs[1..], id);
    }
  }

  /** Splitting any leaf and removing the new one is the same as removing a leaf that is not there. */
  lemma {:induction false} SplitThenRemove(root: PanelNode, leafId: PanelId, dir: Direction, placement: Placement,
                        newLeafId: PanelId, newSplitId: PanelId)
    requires Distinct(root) && newLeafId !in Ids(root) && FindLeafById(root, leafId).Some?
    ensures var r := SplitLeaf(root, leafId, dir, placement, newLeafId, newSplitId);
      r.Some? && r.value.newLeafId == newLeafId && RemoveLeaf(r.value.root, newLeafId) == RemoveLeaf(root, newLeafId)
  {
    var target := FindLeafById(root, leafId).value;
    FindReturnsNamedLeaf(root, leafId);
    FoundIsThere(root, leafId);
    OnlyNode(root, target);
    RemoveFromNewSplit(target, newLeafId, newSplitId, dir, placement);
    var newLeaf := Leaf(newLeafId, None);
    var children := if placement.Before? then [newLeaf, target] else [target, newLeaf];
    RemoveReplaced(root, target, Split(newSplitId, dir, [50.0, 50.0], children), newLeafId);
  }

  /** removeLeaf undoes splitLeaf, sizes included, exactly on the trees whose splits each have at
      least two children, one size per child, and sizes summing to 100. */
  lemma {:induction false} RemoveUndoesSplitIff(root: PanelNode, leafId: PanelId, dir: Direction, placement: Placement,
                             newLeafId: PanelId, newSplitId: PanelId)
    requires Distinct(root) && newLeafId !in Ids(root) && FindLeafById(root, leafId).Some?
    ensures var r := SplitLeaf(root, leafId, dir, placement, newLeafId, newSplitId);
      r.Some? && (RemoveLeaf(r.value.root, r.value.newLeafId) == Some(root) <==> WellSized(root))
  {
    SplitThenRemove(root, leafId, dir, placement, newLeafId, newSplitId);
    RemoveAbsentIff(root, newLeafId);
  }
}
