/** Layouts in browser storage: written as JSON, validated when read back, reconciled with the
    sessions that still exist.  JSON text itself is abstract: a stored text is a JSON value,
    something that does not parse, or nothing. */
module PanelPersistence {
  import opened Wrappers
  import opened PanelTree
  import opened PanelEdit
  import opened PanelInvariant

  type WorkspaceId = string

  datatype Number = Finite(value: real) | NotFinite

  datatype Json =
    | JNull
    | JBool(flag: bool)
    | JNum(num: Number)
    | JStr(text: string)
    | JArr(items: seq<Json>)
    | JObj(fields: map<string, Json>)

  datatype Stored = Nothing | Unparsable | Parsed(value: Json)

  datatype Saved = Saved(layout: PanelNode, focus: PanelId)

  // ---------------------------------------------------------------------------------------
  // isValidPanelNode

  predicate IsString(f: map<string, Json>, key: string) {
    key in f && f[key].JStr?
  }

  predicate IsFiniteNumber(v: Json) {
    v.JNum? && v.num.Finite?
  }

  predicate IsValidPanelNode(v: Json)
    decreases v, 1
  {
    && v.JObj? && "kind" in v.fields
    && var f := v.fields;
      if f["kind"] == JStr("leaf") then
        IsString(f, "id") && "sessionId" in f && (f["sessionId"].JNull? || f["sessionId"].JStr?)
      else if f["kind"] == JStr("split") then
        && IsString(f, "id")
        && "direction" in f && (f["direction"] == JStr("row") || f["direction"] == JStr("column"))
        && "children" in f && f["children"].JArr?
        && |f["children"].items| >= 2
        && AreValidPanelNodes(f["children"].items)
        && "sizes" in f && f["sizes"].JArr?
        && |f["sizes"].items| == |f["children"].items|
        && forall i | 0 <= i < |f["sizes"].items| :: IsFiniteNumber(f["sizes"].items[i])
      else false
  }

  predicate AreValidPanelNodes(vs: seq<Json>)
    decreases vs, 0
  {
    vs != [] ==> IsValidPanelNode(vs[0]) && AreValidPanelNodes(vs[1..])
  }

  // ---------------------------------------------------------------------------------------
  // Writing and reading a node

  function EncodeSession(s: Option<SessionId>): Json {
    if s.Some? then JStr(s.value) else JNull
  }

  function EncodeSizes(sizes: seq<real>): seq<Json> {
    seq(|sizes|, i requires 0 <= i < |sizes| => JNum(Finite(sizes[i])))
  }

  function Encode(n: PanelNode): Json
    decreases n, 1
  {
    match n
    case Leaf(id, s) =>
      JObj(map["kind" := JStr("leaf"), "id" := JStr(id), "sessionId" := EncodeSession(s)])
    case Split(id, dir, sizes, cs) =>
      JObj(map["kind" := JStr("split"), "id" := JStr(id),
               "direction" := JStr(if dir.Row? then "row" else "column"),
               "sizes" := JArr(EncodeSizes(sizes)), "children" := JArr(EncodeAll(cs))])
  }

  function EncodeAll(cs: seq<PanelNode>): seq<Json>
    decreases cs, 0
  {
    if cs == [] then [] else [Encode(cs[0])] + EncodeAll(cs[1..])
  }

  /** What a validated value is as a panel node. */
  function Decode(v: Json): PanelNode
    requires IsValidPanelNode(v)
    decreases v, 1
  {
    var f := v.fields;
    if f["kind"] == JStr("leaf") then
      Leaf(f["id"].text, if f["sessionId"].JStr? then Some(f["sessionId"].text) else None)
    else
      Split(f["id"].text, if f["direction"] == JStr("row") then Row else Column,
            DecodeSizes(f["sizes"].items), DecodeAll(f["children"].items))
  }

  function NumberOf(v: Json): real {
    if IsFiniteNumber(v) then v.num.value else 0.0
  }

  function DecodeSizes(items: seq<Json>): seq<real> {
    seq(|items|, i requires 0 <= i < |items| => NumberOf(items[i]))
  }

  function DecodeAll(vs: seq<Json>): seq<PanelNode>
    requires AreValidPanelNodes(vs)
    decreases vs, 0
  {
    if vs == [] then [] else [Decode(vs[0])] + DecodeAll(vs[1..])
  }

  /** The validator accepts exactly the written trees whose splits are well shaped, and reading
      one back gives the same tree. */
  lemma {:induction false} EncodeDecode(n: PanelNode)
    ensures IsValidPanelNode(Encode(n)) <==> Shaped(n)
    ensures Shaped(n) ==> Decode(Encode(n)) == n
    decreases n, 1
  {
    if n.Split? {
      EncodeDecodeAll(n.children);
      if Shaped(n) {
        assert DecodeSizes(EncodeSizes(n.sizes)) == n.sizes;
      }
    }
  }

  lemma {:induction false} EncodeDecodeAll(cs: seq<PanelNode>)
    ensures |EncodeAll(cs)| == |cs|
    ensures AreValidPanelNodes(EncodeAll(cs)) <==> ShapedAll(cs)
    ensures ShapedAll(cs) ==> DecodeAll(EncodeAll(cs)) == cs
    decreases cs, 0
  {
    if cs != [] {
      EncodeDecode(cs[0]);
      EncodeDecodeAll(cs[1..]);
      assert EncodeAll(cs)[1..] == EncodeAll(cs[1..]);
    }
  }

  /** Whatever the validator accepts, ours or not, is a well shaped tree. */
  lemma {:induction false} ValidIsShaped(v: Json)
    requires IsValidPanelNode(v)
    ensures Shaped(Decode(v))
    decreases v, 1
  {
    if v.fields["kind"] != JStr("leaf") { ValidAreShaped(v.fields["children"].items); }
  }

  lemma {:induction false} ValidAreShaped(vs: seq<Json>)
    requires AreValidPanelNodes(vs)
    ensures ShapedAll(DecodeAll(vs)) && |DecodeAll(vs)| == |vs|
    decreases vs, 0
  {
    if vs != [] {
      ValidIsShaped(vs[0]);
      ValidAreShaped(vs[1..]);
      assert DecodeAll(vs)[1..] == DecodeAll(vs[1..]);
    }
  }

  // ---------------------------------------------------------------------------------------
  // saveLayouts and loadLayouts

  function EncodeSaved(s: Saved): Json {
    JObj(map["layout" := Encode(s.layout), "focusedPanelId" := JStr(s.focus)])
  }

  function SaveLayouts(layouts: map<WorkspaceId, Saved>): Stored {
    Parsed(JObj(map["version" := JNum(Finite(1.0)),
                    "workspaces" := JObj(map w | w in layouts :: EncodeSaved(layouts[w]))]))
  }

  predicate ValidEntry(e: Json) {
    && e.JObj? && "layout" in e.fields && IsValidPanelNode(e.fields["layout"])
    && IsString(e.fields, "focusedPanelId")
  }

  function ReadEntry(e: Json): Saved
    requires ValidEntry(e)
  {
    Saved(Decode(e.fields["layout"]), e.fields["focusedPanelId"].text)
  }

  /** The entries to look at; a file of another version, or none at all, has none. */
  function Candidates(stored: Stored): map<WorkspaceId, Json> {
    if stored.Parsed? && stored.value.JObj?
       && "version" in stored.value.fields && stored.value.fields["version"] == JNum(Finite(1.0))
       && "workspaces" in stored.value.fields && stored.value.fields["workspaces"].JObj?
    then stored.value.fields["workspaces"].fields
    else map[]
  }

  /** The entries that validate, and only those. */
  function LoadLayouts(stored: Stored): map<WorkspaceId, Saved> {
    var entries := Candidates(stored);
    map w | w in entries && ValidEntry(entries[w]) :: ReadEntry(entries[w])
  }

  /** The loop over the entries, keeping the valid ones. */
  method LoadLayoutsLoop(stored: Stored) returns (out: map<WorkspaceId, Saved>)
    ensures out == LoadLayouts(stored)
  {
    var entries := Candidates(stored);
    out := map[];
    var rest := entries.Keys;
    while rest != {}
      invariant rest <= entries.Keys
      invariant out == map w | w in entries && w !in rest && ValidEntry(entries[w]) :: ReadEntry(entries[w])
      decreases rest
    {
      var w :| w in rest;
      rest := rest - {w};
      if ValidEntry(entries[w]) { out := out[w := ReadEntry(entries[w])]; }
    }
  }

  /** Loading after saving returns what was saved, less the layouts that are not well shaped. */
  lemma LoadAfterSave(layouts: map<WorkspaceId, Saved>)
    ensures LoadLayouts(SaveLayouts(layouts)) == map w | w in layouts && Shaped(layouts[w].layout) :: layouts[w]
    ensures LoadLayouts(SaveLayouts(layouts)) == layouts <==> forall w | w in layouts :: Shaped(layouts[w].layout)
  {
    LoadedEntries(layouts);
    var kept := map w | w in layouts && Shaped(layouts[w].layout) :: layouts[w];
    if kept == layouts {
      forall w | w in layouts ensures Shaped(layouts[w].layout) { assert w in kept; }
    }
  }

  lemma SavedEntry(s: Saved)
    ensures ValidEntry(EncodeSaved(s)) <==> Shaped(s.layout)
    ensures Shaped(s.layout) ==> ReadEntry(EncodeSaved(s)) == s
  {
    EncodeDecode(s.layout);
  }

  lemma LoadedEntries(layouts: map<WorkspaceId, Saved>)
    ensures LoadLayouts(SaveLayouts(layouts)) == map w | w in layouts && Shaped(layouts[w].layout) :: layouts[w]
  {
    SavedCandidates(layouts);
    forall w | w in layouts
      ensures ValidEntry(EncodeSaved(layouts[w])) <==> Shaped(layouts[w].layout)
      ensures Shaped(layouts[w].layout) ==> ReadEntry(EncodeSaved(layouts[w])) == layouts[w]
    {
      SavedEntry(layouts[w]);
    }
  }

  lemma SavedCandidates(layouts: map<WorkspaceId, Saved>)
    ensures Candidates(SaveLayouts(layouts)) == map w | w in layouts :: EncodeSaved(layouts[w])
  {
  }

  /** Whatever is in storage, a loaded layout is well shaped. */
  lemma LoadedIsShaped(stored: Stored, w: WorkspaceId)
    requires w in LoadLayouts(stored)
    ensures Shaped(LoadLayouts(stored)[w].layout)
  {
    ValidIsShaped(Candidates(stored)[w].fields["layout"]);
  }

  // ---------------------------------------------------------------------------------------
  // reconcileLayout

  function Reconcile(saved: Saved, valid: set<SessionId>): Saved
    requires Shaped(saved.layout)
  {
    var layout := PruneSessionIds(saved.layout, valid);
    PrunedIsInhabited(saved.layout, valid);
    Saved(layout, if HasLeaf(layout, saved.focus) then saved.focus else FirstLeaf(layout).id)
  }

  lemma {:induction false} PrunedIsInhabited(root: PanelNode, valid: set<SessionId>)
    requires Shaped(root)
    ensures Shaped(PruneSessionIds(root, valid)) && Inhabited(PruneSessionIds(root, valid))
  {
    MapTreeKeepsNodes(root, Prune(valid));
    ShapedIsInhabited(PruneSessionIds(root, valid));
  }

  /** Reconciling a well-formed layout keeps it well-formed, with a focus that exists, keeps every
      node, id, direction and size, keeps the focus if it exists, and clears exactly the
      sessions that are gone. */
  lemma ReconcileOk(saved: Saved, valid: set<SessionId>)
    requires TreeOk(saved.layout)
    ensures var r := Reconcile(saved, valid);
      && LayoutOk(r.layout, r.focus) && SameFrame(saved.layout, r.layout)
      && Leaves(saved.layout) != []
      && r.focus == (if HasLeaf(saved.layout, saved.focus) then saved.focus else Leaves(saved.layout)[0].id)
      && EditedLeaves(Leaves(saved.layout), Leaves(r.layout), Prune(valid))
  {
    var e := Prune(valid);
    ClearingKeepsOnePlace(saved.layout, e);
    SessionEditKeepsFrame(saved.layout, e);
    EditKeepsLeaf(saved.layout, e, saved.focus);
    MapTreeLeaves(saved.layout, e);
    FirstLeafIsThere(MapTree(saved.layout, e));
    FirstLeafIsFirst(MapTree(saved.layout, e));
  }
}
