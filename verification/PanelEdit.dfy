/** The in-place edits of a panel tree (mapTree and the four functions built on it), on the
    tree's content, and then with object identity, which the store's change checks rely on. */
module PanelEdit {
  import opened Wrappers
  import opened PanelTree

  /** The function handed to mapTree, one case per caller. */
  datatype Edit =
    | SetSession(leafId: PanelId, session: Option<SessionId>)
    | Detach(sid: SessionId)
    | SetSizes(splitId: PanelId, sizes: seq<real>)
    | Prune(valid: set<SessionId>)

  /** `n.sessionId && ...` skips the empty string as well as null. */
  function EditLeafSession(id: PanelId, session: Option<SessionId>, e: Edit): Option<SessionId> {
    match e
    case SetSession(leafId, s) => if id == leafId then s else session
    case Detach(sid) => if session == Some(sid) then None else session
    case SetSizes(_, _) => session
    case Prune(valid) =>
      if session.Some? && session.value != "" && session.value !in valid then None else session
  }

  function EditSizes(id: PanelId, sizes: seq<real>, e: Edit): seq<real> {
    if e.SetSizes? && id == e.splitId && |sizes| == |e.sizes| then e.sizes else sizes
  }

  function MapTree(root: PanelNode, e: Edit): PanelNode
    decreases root, 1
  {
    match root
    case Leaf(id, s) => Leaf(id, EditLeafSession(id, s, e))
    case Split(id, dir, sizes, cs) => Split(id, dir, EditSizes(id, sizes, e), MapAll(cs, e))
  }

  function MapAll(cs: seq<PanelNode>, e: Edit): seq<PanelNode>
    decreases cs, 0
  {
    if cs == [] then [] else [MapTree(cs[0], e)] + MapAll(cs[1..], e)
  }

  function SetLeafSession(root: PanelNode, leafId: PanelId, session: Option<SessionId>): PanelNode {
    MapTree(root, SetSession(leafId, session))
  }

  function DetachSession(root: PanelNode, sid: SessionId): PanelNode {
    MapTree(root, Detach(sid))
  }

  function SetSplitSizes(root: PanelNode, splitId: PanelId, sizes: seq<real>): PanelNode {
    MapTree(root, SetSizes(splitId, sizes))
  }

  function PruneSessionIds(root: PanelNode, valid: set<SessionId>): PanelNode {
    MapTree(root, Prune(valid))
  }

  // ---------------------------------------------------------------------------------------
  // What an edit changes

  /** `b` is `a` leaf by leaf, each session edited by e. */
  ghost predicate EditedLeaves(a: seq<PanelNode>, b: seq<PanelNode>, e: Edit) {
    && |a| == |b|
    && forall i | 0 <= i < |a| :: a[i].Leaf? && b[i] == Leaf(a[i].id, EditLeafSession(a[i].id, a[i].session, e))
  }

  /** The leaves stay where they are and keep their ids; each session is edited on its own. */
  lemma {:induction false} MapTreeLeaves(root: PanelNode, e: Edit)
    ensures EditedLeaves(Leaves(root), Leaves(MapTree(root, e)), e)
    decreases root, 1
  {
    if root.Split? { MapAllLeaves(root.children, e); }
  }

  lemma {:induction false} MapAllLeaves(cs: seq<PanelNode>, e: Edit)
    ensures EditedLeaves(LeavesOf(cs), LeavesOf(MapAll(cs, e)), e)
    decreases cs, 0
  {
    if cs != [] {
      MapTreeLeaves(cs[0], e);
      MapAllLeaves(cs[1..], e);
      assert MapAll(cs, e)[1..] == MapAll(cs[1..], e);
    }
  }

  /** Two trees with the same nodes, ids, directions and sizes: only sessions may differ. */
  predicate SameFrame(a: PanelNode, b: PanelNode)
    decreases a, 1
  {
    && a.id == b.id && a.Leaf? == b.Leaf?
    && (a.Split? ==> a.direction == b.direction && a.sizes == b.sizes && SameFrames(a.children, b.children))
  }

  predicate SameFrames(as_: seq<PanelNode>, bs: seq<PanelNode>)
    decreases as_, 0
  {
    |as_| == |bs| && (as_ != [] ==> SameFrame(as_[0], bs[0]) && SameFrames(as_[1..], bs[1..]))
  }

  lemma {:induction false} SessionEditKeepsFrame(root: PanelNode, e: Edit)
    requires !e.SetSizes?
    ensures SameFrame(root, MapTree(root, e))
    decreases root, 1
  {
    if root.Split? { SessionEditKeepsFrames(root.children, e); }
  }

  lemma {:induction false} SessionEditKeepsFrames(cs: seq<PanelNode>, e: Edit)
    requires !e.SetSizes?
    ensures SameFrames(cs, MapAll(cs, e))
    decreases cs, 0
  {
    if cs != [] {
      SessionEditKeepsFrame(cs[0], e);
      SessionEditKeepsFrames(cs[1..], e);
      assert MapAll(cs, e)[1..] == MapAll(cs[1..], e);
    }
  }

  /** No edit adds, removes or renames a node, or breaks the shape. */
  lemma {:induction false} MapTreeKeepsNodes(root: PanelNode, e: Edit)
    ensures Ids(MapTree(root, e)) == Ids(root)
    ensures Shaped(MapTree(root, e)) <==> Shaped(root)
    decreases root, 1
  {
    if root.Split? { MapAllKeepsNodes(root.children, e); }
  }

  lemma {:induction false} MapAllKeepsNodes(cs: seq<PanelNode>, e: Edit)
    ensures IdsOf(MapAll(cs, e)) == IdsOf(cs) && |MapAll(cs, e)| == |cs|
    ensures ShapedAll(MapAll(cs, e)) <==> ShapedAll(cs)
    decreases cs, 0
  {
    if cs != [] {
      MapTreeKeepsNodes(cs[0], e);
      MapAllKeepsNodes(cs[1..], e);
      assert MapAll(cs, e)[1..] == MapAll(cs[1..], e);
    }
  }

  // ---------------------------------------------------------------------------------------
  // Object identity

  /** A node as an object: `addr` is its identity, two objects with one address being the same
      object.  Object spreads allocate at the next free address. */
  datatype Obj =
    | LeafObj(addr: nat, id: PanelId, session: Option<SessionId>)
    | SplitObj(addr: nat, id: PanelId, direction: Direction, sizes: seq<real>, children: seq<Obj>)

  function Content(o: Obj): PanelNode
    decreases o, 1
  {
    match o
    case LeafObj(_, id, s) => Leaf(id, s)
    case SplitObj(_, id, dir, sizes, cs) => Split(id, dir, sizes, ContentAll(cs))
  }

  function ContentAll(cs: seq<Obj>): seq<PanelNode>
    decreases cs, 0
  {
    if cs == [] then [] else [Content(cs[0])] + ContentAll(cs[1..])
  }

  /** All addresses in use are below `next`. */
  predicate Allocated(o: Obj, next: nat)
    decreases o, 1
  {
    o.addr < next && (o.SplitObj? ==> AllocatedAll(o.children, next))
  }

  predicate AllocatedAll(cs: seq<Obj>, next: nat)
    decreases cs, 0
  {
    cs != [] ==> Allocated(cs[0], next) && AllocatedAll(cs[1..], next)
  }

  datatype Made = Made(obj: Obj, next: nat)
  datatype MadeAll = MadeAll(objs: seq<Obj>, next: nat)

  /** The edit functions themselves: return the node as it is, or a changed copy. */
  function EditObj(o: Obj, e: Edit, next: nat): Made {
    match o
    case LeafObj(_, id, s) => (
      match e
      case SetSession(leafId, s') =>
        if id == leafId && s != s' then Made(LeafObj(next, id, s'), next + 1) else Made(o, next)
      case Detach(sid) =>
        if s == Some(sid) then Made(LeafObj(next, id, None), next + 1) else Made(o, next)
      case SetSizes(_, _) => Made(o, next)
      case Prune(valid) =>
        if s.Some? && s.value != "" && s.value !in valid then Made(LeafObj(next, id, None), next + 1)
        else Made(o, next))
    case SplitObj(_, id, dir, sizes, cs) =>
      if e.SetSizes? && id == e.splitId && |sizes| == |e.sizes| && sizes != e.sizes
      then Made(SplitObj(next, id, dir, e.sizes, cs), next + 1)
      else Made(o, next)
  }

  /** Every mapped child is the very same object as before. */
  predicate SameObjects(as_: seq<Obj>, bs: seq<Obj>) {
    |as_| == |bs| && forall i | 0 <= i < |as_| :: as_[i].addr == bs[i].addr
  }

  /** mapTree: children first; copy the node only if some child is a different object; then edit it. */
  function MapObj(o: Obj, e: Edit, next: nat): Made
    decreases o, 1
  {
    match o
    case LeafObj(_, _, _) => EditObj(o, e, next)
    case SplitObj(_, id, dir, sizes, cs) =>
      var m := MapObjs(cs, e, next);
      if SameObjects(m.objs, cs) then EditObj(o, e, m.next)
      else EditObj(SplitObj(m.next, id, dir, sizes, m.objs), e, m.next + 1)
  }

  function MapObjs(cs: seq<Obj>, e: Edit, next: nat): MadeAll
    decreases cs, 0
  {
    if cs == [] then MadeAll([], next)
    else
      var first := MapObj(cs[0], e, next);
      var rest := MapObjs(cs[1..], e, first.next);
      MadeAll([first.obj] + rest.objs, rest.next)
  }

  /** `b`, got from `a`, is `a` itself, or a new object with different content. */
  ghost predicate SameOrChanged(a: Obj, b: Obj, next: nat) {
    b == a || (b.addr >= next && Content(b) != Content(a))
  }

  /** Wherever content did not change, the object is shared, all the way down. */
  ghost predicate Shares(a: Obj, b: Obj, next: nat)
    decreases a, 1
  {
    && SameOrChanged(a, b, next)
    && (a.SplitObj? ==> b.SplitObj? && SharesAll(a.children, b.children, next))
  }

  ghost predicate SharesAll(as_: seq<Obj>, bs: seq<Obj>, next: nat)
    decreases as_, 0
  {
    |as_| == |bs| && (as_ != [] ==> Shares(as_[0], bs[0], next) && SharesAll(as_[1..], bs[1..], next))
  }

  lemma {:induction false} SharesItself(o: Obj, next: nat)
    ensures Shares(o, o, next)
    decreases o, 1
  {
    if o.SplitObj? { SharesItselfAll(o.children, next); }
  }

  lemma {:induction false} SharesItselfAll(cs: seq<Obj>, next: nat)
    ensures SharesAll(cs, cs, next)
    decreases cs, 0
  {
    if cs != [] {
      SharesItself(cs[0], next);
      SharesItselfAll(cs[1..], next);
    }
  }

  lemma {:induction false} SharesLater(a: Obj, b: Obj, next: nat, earlier: nat)
    requires Shares(a, b, next) && earlier <= next
    ensures Shares(a, b, earlier)
    decreases a, 1
  {
    if a.SplitObj? { SharesAllLater(a.children, b.children, next, earlier); }
  }

  lemma {:induction false} SharesAllLater(as_: seq<Obj>, bs: seq<Obj>, next: nat, earlier: nat)
    requires SharesAll(as_, bs, next) && earlier <= next
    ensures SharesAll(as_, bs, earlier)
    decreases as_, 0
  {
    if as_ != [] {
      SharesLater(as_[0], bs[0], next, earlier);
      SharesAllLater(as_[1..], bs[1..], next, earlier);
    }
  }

  /** For children got by mapping: same objects exactly when same content. */
  lemma {:induction false} SharedChildren(as_: seq<Obj>, bs: seq<Obj>, next: nat)
    requires SharesAll(as_, bs, next) && AllocatedAll(as_, next)
    ensures SameObjects(bs, as_) <==> bs == as_
    ensures SameObjects(bs, as_) <==> ContentAll(bs) == ContentAll(as_)
    decreases as_, 0
  {
    if as_ != [] {
      SharedChildren(as_[1..], bs[1..], next);
      assert as_ == [as_[0]] + as_[1..] && bs == [bs[0]] + bs[1..];
      assert SameObjects(bs, as_) <==> bs[0].addr == as_[0].addr && SameObjects(bs[1..], as_[1..]) by {
        if bs[0].addr == as_[0].addr && SameObjects(bs[1..], as_[1..]) {
          forall i | 0 <= i < |as_| ensures as_[i].addr == bs[i].addr {
            if i > 0 { assert as_[i] == as_[1..][i - 1] && bs[i] == bs[1..][i - 1]; }
          }
        } else if SameObjects(bs, as_) {
          forall i | 0 <= i < |as_[1..]| ensures as_[1..][i].addr == bs[1..][i].addr {
            assert as_[1..][i] == as_[i + 1] && bs[1..][i] == bs[i + 1];
          }
        }
      }
      assert ContentAll(as_)[0] == Content(as_[0]) && ContentAll(as_)[1..] == ContentAll(as_[1..]);
      assert ContentAll(bs)[0] == Content(bs[0]) && ContentAll(bs)[1..] == ContentAll(bs[1..]);
    }
  }

  /** mapTree on objects computes the edit on contents and shares every unchanged subtree. */
  lemma {:induction false} MapObjShares(o: Obj, e: Edit, next: nat)
    requires Allocated(o, next)
    ensures var m := MapObj(o, e, next);
      next <= m.next && Content(m.obj) == MapTree(Content(o), e) && Shares(o, m.obj, next)
    decreases o, 1
  {
    if o.SplitObj? {
      var m := MapObjs(o.children, e, next);
      MapObjsShare(o.children, e, next);
      SharedChildren(o.children, m.objs, next);
      SharesItself(o, next);
    }
  }

  lemma {:induction false} MapObjsShare(cs: seq<Obj>, e: Edit, next: nat)
    requires AllocatedAll(cs, next)
    ensures var m := MapObjs(cs, e, next);
      next <= m.next && ContentAll(m.objs) == MapAll(ContentAll(cs), e) && SharesAll(cs, m.objs, next)
    decreases cs, 0
  {
    if cs != [] {
      var first := MapObj(cs[0], e, next);
      MapObjShares(cs[0], e, next);
      AllocatedLater(cs[1..], next, first.next);
      MapObjsShare(cs[1..], e, first.next);
      SharesAllLater(cs[1..], MapObjs(cs[1..], e, first.next).objs, first.next, next);
      assert ContentAll(cs)[1..] == ContentAll(cs[1..]);
      assert MapObjs(cs, e, next).objs[1..] == MapObjs(cs[1..], e, first.next).objs;
    }
  }

  lemma {:induction false} AllocatedLater(cs: seq<Obj>, next: nat, later: nat)
    requires AllocatedAll(cs, next) && next <= later
    ensures AllocatedAll(cs, later)
    decreases cs, 0
  {
    if cs != [] {
      if cs[0].SplitObj? { AllocatedLater(cs[0].children, next, later); }
      AllocatedLater(cs[1..], next, later);
    }
  }

  /** The identity checks of the store and of the persistence subscriber are exact: an edit
      returns the same object if and only if it changed no content. */
  lemma {:induction false} SameObjectIffSameContent(o: Obj, e: Edit, next: nat)
    requires Allocated(o, next)
    ensures MapObj(o, e, next).obj.addr == o.addr <==> MapTree(Content(o), e) == Content(o)
    ensures MapObj(o, e, next).obj.addr == o.addr ==> MapObj(o, e, next).obj == o
  {
    MapObjShares(o, e, next);
  }
}
