/** The panel layout of a workspace: an n-ary split tree whose leaves show sessions. */
module PanelTree {
  import opened Wrappers

  type PanelId = string

  datatype Direction = Row | Column
  datatype Placement = Before | After

  datatype PanelNode =
    | Leaf(id: PanelId, session: Option<SessionId>)
    | Split(id: PanelId, direction: Direction, sizes: seq<real>, children: seq<PanelNode>)

  // ---------------------------------------------------------------------------------------
  // Finders and listers

  function FindLeafById(root: PanelNode, id: PanelId): Option<PanelNode>
    decreases root, 1
  {
    match root
    case Leaf(lid, _) => if lid == id then Some(root) else None
    case Split(_, _, _, cs) => FindById(cs, id)
  }

  function FindById(cs: seq<PanelNode>, id: PanelId): Option<PanelNode>
    decreases cs, 0
  {
    if cs == [] then None
    else
      var found := FindLeafById(cs[0], id);
      if found.Some? then found else FindById(cs[1..], id)
  }

  function FindLeafBySession(root: PanelNode, sid: SessionId): Option<PanelNode>
    decreases root, 1
  {
    match root
    case Leaf(_, s) => if s == Some(sid) then Some(root) else None
    case Split(_, _, _, cs) => FindBySession(cs, sid)
  }

  function FindBySession(cs: seq<PanelNode>, sid: SessionId): Option<PanelNode>
    decreases cs, 0
  {
    if cs == [] then None
    else
      var found := FindLeafBySession(cs[0], sid);
      if found.Some? then found else FindBySession(cs[1..], sid)
  }

  function Leaves(root: PanelNode): seq<PanelNode>
    decreases root, 1
  {
    match root
    case Leaf(_, _) => [root]
    case Split(_, _, _, cs) => LeavesOf(cs)
  }

  function LeavesOf(cs: seq<PanelNode>): seq<PanelNode>
    decreases cs, 0
  {
    if cs == [] then [] else Leaves(cs[0]) + LeavesOf(cs[1..])
  }

  /** listVisibleSessionIds: the sessions of the leaves that show one, in order. */
  function Shown(ls: seq<PanelNode>): seq<SessionId>
    requires forall l | l in ls :: l.Leaf?
  {
    if ls == [] then []
    else (if ls[0].session.Some? then [ls[0].session.value] else []) + Shown(ls[1..])
  }

  lemma {:induction false} ShownInOrder(a: seq<PanelNode>, b: seq<PanelNode>)
    requires (forall l | l in a :: l.Leaf?) && forall l | l in b :: l.Leaf?
    ensures forall l | l in a + b :: l.Leaf?
    ensures Shown(a + b) == Shown(a) + Shown(b)
  {
    if a == [] {
      assert a + b == b;
    } else {
      assert (a + b)[1..] == a[1..] + b;
      ShownInOrder(a[1..], b);
    }
  }

  /** Every split has a child, so that descending to the first leaf succeeds. */
  predicate Inhabited(root: PanelNode)
    decreases root, 1
  {
    root.Split? ==> root.children != [] && InhabitedAll(root.children)
  }

  predicate InhabitedAll(cs: seq<PanelNode>)
    decreases cs, 0
  {
    cs != [] ==> Inhabited(cs[0]) && InhabitedAll(cs[1..])
  }

  function FirstLeaf(root: PanelNode): (leaf: PanelNode)
    requires Inhabited(root)
    ensures leaf.Leaf?
    decreases root
  {
    if root.Leaf? then root else assert InhabitedAll(root.children); FirstLeaf(root.children[0])
  }

  // ---------------------------------------------------------------------------------------
  // Well-formedness

  /** Every split has at least two children and one size per child. */
  predicate Shaped(root: PanelNode)
    decreases root, 1
  {
    root.Split? ==> |root.children| >= 2 && |root.sizes| == |root.children| && ShapedAll(root.children)
  }

  predicate ShapedAll(cs: seq<PanelNode>)
    decreases cs, 0
  {
    cs != [] ==> Shaped(cs[0]) && ShapedAll(cs[1..])
  }

  /** The ids of all nodes, leaves and splits, with repetitions counted. */
  ghost function Ids(root: PanelNode): multiset<PanelId>
    decreases root, 1
  {
    multiset{root.id} + (if root.Leaf? then multiset{} else IdsOf(root.children))
  }

  ghost function IdsOf(cs: seq<PanelNode>): multiset<PanelId>
    decreases cs, 0
  {
    if cs == [] then multiset{} else Ids(cs[0]) + IdsOf(cs[1..])
  }

  ghost predicate Distinct(root: PanelNode) {
    forall x :: Ids(root)[x] <= 1
  }

  /** No session is shown by two leaves. */
  ghost predicate OnePlaceEach(ls: seq<PanelNode>) {
    && (forall l | l in ls :: l.Leaf?)
    && forall i, j | 0 <= i < j < |ls| && ls[i].session.Some? :: ls[i].session != ls[j].session
  }

  ghost predicate DistinctLeaves(ls: seq<PanelNode>) {
    && (forall l | l in ls :: l.Leaf?)
    && forall i, j | 0 <= i < j < |ls| :: ls[i].id != ls[j].id
  }

  // ---------------------------------------------------------------------------------------
  // The finders agree with the list of leaves

  lemma {:induction false} LeavesAreLeaves(root: PanelNode)
    ensures forall l | l in Leaves(root) :: l.Leaf?
    decreases root, 1
  {
    if root.Split? { LeavesOfAreLeaves(root.children); }
  }

  lemma {:induction false} LeavesOfAreLeaves(cs: seq<PanelNode>)
    ensures forall l | l in LeavesOf(cs) :: l.Leaf?
    decreases cs, 0
  {
    if cs != [] {
      LeavesAreLeaves(cs[0]);
      LeavesOfAreLeaves(cs[1..]);
    }
  }

  /** `found` is the first leaf of `ls` satisfying `p`, or None if there is none. */
  ghost predicate IsFirst(ls: seq<PanelNode>, p: PanelNode -> bool, found: Option<PanelNode>) {
    match found
    case None => forall i {:trigger ls[i]} | 0 <= i < |ls| :: !p(ls[i])
    case Some(l) => exists i | 0 <= i < |ls| :: ls[i] == l && p(l) && forall j | 0 <= j < i :: !p(ls[j])
  }

  lemma FirstOfAppend(a: seq<PanelNode>, b: seq<PanelNode>, p: PanelNode -> bool,
                      fa: Option<PanelNode>, fb: Option<PanelNode>)
    requires IsFirst(a, p, fa) && IsFirst(b, p, fb)
    ensures IsFirst(a + b, p, if fa.Some? then fa else fb)
  {
    if fa.Some? {
      var i :| 0 <= i < |a| && a[i] == fa.value && p(fa.value) && forall j | 0 <= j < i :: !p(a[j]);
      assert (a + b)[i] == fa.value;
    } else if fb.Some? {
      var i :| 0 <= i < |b| && b[i] == fb.value && p(fb.value) && forall j | 0 <= j < i :: !p(b[j]);
      assert (a + b)[|a| + i] == fb.value;
      forall j | 0 <= j < |a| + i ensures !p((a + b)[j]) {
        if j >= |a| { assert (a + b)[j] == b[j - |a|]; }
      }
    }
  }

  lemma {:induction false} FindsFirstById(root: PanelNode, id: PanelId)
    ensures IsFirst(Leaves(root), (l: PanelNode) => l.id == id, FindLeafById(root, id))
    decreases root, 1
  {
    match root
    case Leaf(lid, _) =>
      assert lid == id ==> Leaves(root)[0] == root;
    case Split(_, _, _, cs) => FindsFirstByIdIn(cs, id);
  }

  lemma {:induction false} FindsFirstByIdIn(cs: seq<PanelNode>, id: PanelId)
    ensures IsFirst(LeavesOf(cs), (l: PanelNode) => l.id == id, FindById(cs, id))
    decreases cs, 0
  {
    if cs != [] {
      FindsFirstById(cs[0], id);
      FindsFirstByIdIn(cs[1..], id);
      FirstOfAppend(Leaves(cs[0]), LeavesOf(cs[1..]), (l: PanelNode) => l.id == id,
                    FindLeafById(cs[0], id), FindById(cs[1..], id));
    }
  }

  predicate Shows(l: PanelNode, sid: SessionId) {
    l.Leaf? && l.session == Some(sid)
  }

  lemma {:induction false} FindsFirstBySession(root: PanelNode, sid: SessionId)
    ensures IsFirst(Leaves(root), (l: PanelNode) => Shows(l, sid), FindLeafBySession(root, sid))
    decreases root, 1
  {
    match root
    case Leaf(_, s) =>
      assert s == Some(sid) ==> Leaves(root)[0] == root;
    case Split(_, _, _, cs) => FindsFirstBySessionIn(cs, sid);
  }

  lemma {:induction false} FindsFirstBySessionIn(cs: seq<PanelNode>, sid: SessionId)
    ensures IsFirst(LeavesOf(cs), (l: PanelNode) => Shows(l, sid), FindBySession(cs, sid))
    decreases cs, 0
  {
    if cs != [] {
      FindsFirstBySession(cs[0], sid);
      FindsFirstBySessionIn(cs[1..], sid);
      FirstOfAppend(Leaves(cs[0]), LeavesOf(cs[1..]), (l: PanelNode) => Shows(l, sid),
                    FindLeafBySession(cs[0], sid), FindBySession(cs[1..], sid));
    }
  }

  lemma {:induction false} ShapedIsInhabited(root: PanelNode)
    requires Shaped(root)
    ensures Inhabited(root)
    decreases root, 1
  {
    if root.Split? { ShapedAllIsInhabited(root.children); }
  }

  lemma {:induction false} ShapedAllIsInhabited(cs: seq<PanelNode>)
    requires ShapedAll(cs)
    ensures InhabitedAll(cs)
    decreases cs, 0
  {
    if cs != [] {
      ShapedIsInhabited(cs[0]);
      ShapedAllIsInhabited(cs[1..]);
    }
  }

  lemma {:induction false} FirstLeafIsFirst(root: PanelNode)
    requires Inhabited(root)
    ensures Leaves(root) != [] && Leaves(root)[0] == FirstLeaf(root)
    decreases root
  {
    if root.Split? {
      FirstLeafIsFirst(root.children[0]);
    }
  }

  // ---------------------------------------------------------------------------------------
  // Distinct node ids give distinct leaves

  ghost function IdSeq(ls: seq<PanelNode>): multiset<PanelId> {
    if ls == [] then multiset{} else multiset{ls[0].id} + IdSeq(ls[1..])
  }

  lemma {:induction false} IdSeqAppend(a: seq<PanelNode>, b: seq<PanelNode>)
    ensures IdSeq(a + b) == IdSeq(a) + IdSeq(b)
  {
    if a == [] {
      assert a + b == b;
    } else {
      assert (a + b)[1..] == a[1..] + b;
      IdSeqAppend(a[1..], b);
    }
  }

  lemma {:induction false} IdSeqHas(ls: seq<PanelNode>, i: nat)
    requires i < |ls|
    ensures ls[i].id in IdSeq(ls)
  {
    if i > 0 { IdSeqHas(ls[1..], i - 1); }
  }

  lemma {:induction false} LeafIdsAmongIds(root: PanelNode)
    ensures IdSeq(Leaves(root)) <= Ids(root)
    decreases root, 1
  {
    if root.Split? { LeafIdsAmongIdsOf(root.children); } else { assert Leaves(root)[1..] == []; }
  }

  lemma {:induction false} LeafIdsAmongIdsOf(cs: seq<PanelNode>)
    ensures IdSeq(LeavesOf(cs)) <= IdsOf(cs)
    decreases cs, 0
  {
    if cs != [] {
      LeafIdsAmongIds(cs[0]);
      LeafIdsAmongIdsOf(cs[1..]);
      IdSeqAppend(Leaves(cs[0]), LeavesOf(cs[1..]));
    }
  }

  lemma {:induction false} CountsGiveDistinct(ls: seq<PanelNode>, i: nat, j: nat)
    requires i < j < |ls| && forall x :: IdSeq(ls)[x] <= 1
    ensures ls[i].id != ls[j].id
  {
    if i > 0 {
      forall x ensures IdSeq(ls[1..])[x] <= 1 { assert IdSeq(ls)[x] <= 1; }
      CountsGiveDistinct(ls[1..], i - 1, j - 1);
    } else {
      IdSeqHas(ls[1..], j - 1);
      assert IdSeq(ls)[ls[0].id] <= 1;
    }
  }

  lemma {:induction false} DistinctGivesDistinctLeaves(root: PanelNode)
    requires Distinct(root)
    ensures DistinctLeaves(Leaves(root))
  {
    LeavesAreLeaves(root);
    LeafIdsAmongIds(root);
    forall x ensures IdSeq(Leaves(root))[x] <= 1 { assert Ids(root)[x] <= 1; }
    forall i, j | 0 <= i < j < |Leaves(root)| ensures Leaves(root)[i].id != Leaves(root)[j].id {
      CountsGiveDistinct(Leaves(root), i, j);
    }
  }

  /** With distinct ids, looking a leaf's id up finds that leaf. */
  lemma {:induction false} FindsThatLeaf(root: PanelNode, i: nat)
    requires Distinct(root) && i < |Leaves(root)|
    ensures FindLeafById(root, Leaves(root)[i].id) == Some(Leaves(root)[i])
  {
    DistinctGivesDistinctLeaves(root);
    var id := Leaves(root)[i].id;
    FindsFirstById(root, id);
  }
}
