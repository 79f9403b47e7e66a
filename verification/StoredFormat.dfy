/** What the validator accepts, said without it: exactly the values that extend a written tree. */
module StoredFormat {
  import opened Wrappers
  import opened PanelTree
  import opened PanelPersistence

  /** `v` has everything `e` has, with the same values; objects in it may have further properties. */
  predicate Covers(v: Json, e: Json)
    decreases e
  {
    match e
    case JObj(f) => v.JObj? && forall k | k in f :: k in v.fields && Covers(v.fields[k], f[k])
    case JArr(items) => v.JArr? && CoversAll(v.items, items)
    case _ => v == e
  }

  predicate CoversAll(vs: seq<Json>, es: seq<Json>)
    decreases es
  {
    |vs| == |es| && (es != [] ==> Covers(vs[0], es[0]) && CoversAll(vs[1..], es[1..]))
  }

  lemma {:induction false} CoversItself(items: seq<Json>, sizes: seq<real>)
    ensures CoversAll(items, EncodeSizes(sizes)) <==> items == EncodeSizes(sizes)
    decreases |sizes|
  {
    var es := EncodeSizes(sizes);
    if sizes != [] && |items| == |sizes| {
      assert es[1..] == EncodeSizes(sizes[1..]) && es[0] == JNum(Finite(sizes[0]));
      CoversItself(items[1..], sizes[1..]);
      assert items == [items[0]] + items[1..] && es == [es[0]] + es[1..];
    }
  }

  lemma {:induction false} CoversLeaf(v: Json, id: PanelId, s: Option<SessionId>)
    requires Covers(v, Encode(Leaf(id, s)))
    ensures IsValidPanelNode(v) && Decode(v) == Leaf(id, s)
  {
    var f, g := v.fields, Encode(Leaf(id, s)).fields;
    assert "kind" in g && "id" in g && "sessionId" in g;
    assert Covers(f["kind"], g["kind"]) && Covers(f["id"], g["id"]) && Covers(f["sessionId"], g["sessionId"]);
  }

  function DirectionName(dir: Direction): string {
    if dir.Row? then "row" else "column"
  }

  lemma {:induction false} CoversSplit(v: Json, id: PanelId, dir: Direction, sizes: seq<real>, cs: seq<PanelNode>)
    requires Covers(v, Encode(Split(id, dir, sizes, cs)))
    ensures v.JObj?
    ensures var f := v.fields;
      && "kind" in f && f["kind"] == JStr("split") && "id" in f && f["id"] == JStr(id)
      && "direction" in f && f["direction"] == JStr(DirectionName(dir))
      && "children" in f && f["children"].JArr? && CoversAll(f["children"].items, EncodeAll(cs))
      && "sizes" in f && f["sizes"].JArr? && CoversAll(f["sizes"].items, EncodeSizes(sizes))
  {
    var f, g := v.fields, Encode(Split(id, dir, sizes, cs)).fields;
    assert "kind" in g && "id" in g && "direction" in g && "children" in g && "sizes" in g;
    assert Covers(f["kind"], g["kind"]) && Covers(f["id"], g["id"]) && Covers(f["direction"], g["direction"]);
    assert Covers(f["children"], g["children"]) && Covers(f["sizes"], g["sizes"]);
  }

  /** Whatever extends a well shaped tree is accepted, and read as that tree. */
  lemma {:induction false} CoveringIsValid(v: Json, n: PanelNode)
    requires Shaped(n) && Covers(v, Encode(n))
    ensures IsValidPanelNode(v) && Decode(v) == n
    decreases n, 1
  {
    match n
    case Leaf(id, s) => CoversLeaf(v, id, s);
    case Split(id, dir, sizes, cs) =>
      CoversSplit(v, id, dir, sizes, cs);
      CoveringAreValid(v.fields["children"].items, cs);
      CoversItself(v.fields["sizes"].items, sizes);
      assert DecodeSizes(EncodeSizes(sizes)) == sizes;
      FieldsAreValid(v, id, dir, sizes, cs);
  }

  lemma {:induction false} FieldsAreValid(v: Json, id: PanelId, dir: Direction, sizes: seq<real>, cs: seq<PanelNode>)
    requires v.JObj? && |cs| >= 2 && |sizes| == |cs|
    requires var f := v.fields;
      && "kind" in f && f["kind"] == JStr("split") && "id" in f && f["id"] == JStr(id)
      && "direction" in f && f["direction"] == JStr(DirectionName(dir))
      && "children" in f && f["children"].JArr? && AreValidPanelNodes(f["children"].items)
      && DecodeAll(f["children"].items) == cs && |f["children"].items| == |cs|
      && "sizes" in f && f["sizes"] == JArr(EncodeSizes(sizes)) && DecodeSizes(EncodeSizes(sizes)) == sizes
    ensures IsValidPanelNode(v) && Decode(v) == Split(id, dir, sizes, cs)
  {
  }

  lemma {:induction false} CoveringAreValid(vs: seq<Json>, cs: seq<PanelNode>)
    requires ShapedAll(cs) && CoversAll(vs, EncodeAll(cs))
    ensures AreValidPanelNodes(vs) && |vs| == |cs| && DecodeAll(vs) == cs
    decreases cs, 0
  {
    EncodeDecodeAll(cs);
    if cs != [] {
      assert EncodeAll(cs)[1..] == EncodeAll(cs[1..]);
      CoveringIsValid(vs[0], cs[0]);
      CoveringAreValid(vs[1..], cs[1..]);
    }
  }

  /** Whatever is accepted extends the tree it is read as. */
  lemma {:induction false} ValidCovers(v: Json)
    requires IsValidPanelNode(v)
    ensures Covers(v, Encode(Decode(v)))
    decreases v, 1
  {
    var f := v.fields;
    if f["kind"] != JStr("leaf") {
      ValidAllCover(f["children"].items);
      FiniteSizes(f["sizes"].items);
      CoversItself(f["sizes"].items, DecodeSizes(f["sizes"].items));
    }
  }

  lemma FiniteSizes(items: seq<Json>)
    requires forall i | 0 <= i < |items| :: IsFiniteNumber(items[i])
    ensures EncodeSizes(DecodeSizes(items)) == items
  {
    forall i | 0 <= i < |items| ensures EncodeSizes(DecodeSizes(items))[i] == items[i] {
      assert IsFiniteNumber(items[i]);
    }
  }

  lemma {:induction false} ValidAllCover(vs: seq<Json>)
    requires AreValidPanelNodes(vs)
    ensures |DecodeAll(vs)| == |vs| && CoversAll(vs, EncodeAll(DecodeAll(vs)))
    decreases vs, 0
  {
    if vs != [] {
      ValidCovers(vs[0]);
      ValidAllCover(vs[1..]);
      assert DecodeAll(vs)[1..] == DecodeAll(vs[1..]);
      assert EncodeAll(DecodeAll(vs))[1..] == EncodeAll(DecodeAll(vs[1..]));
    }
  }

  /** The validator is exact: a value is accepted and read as `n` if and only if `n` is well shaped and
      the value extends what is written for `n`. */
  lemma {:induction false} AcceptedIff(v: Json, n: PanelNode)
    ensures IsValidPanelNode(v) && Decode(v) == n <==> Shaped(n) && Covers(v, Encode(n))
  {
    if IsValidPanelNode(v) && Decode(v) == n {
      ValidIsShaped(v);
      ValidCovers(v);
    }
    if Shaped(n) && Covers(v, Encode(n)) { CoveringIsValid(v, n); }
  }

  /** Loading gives workspace `w` the layout and focus `s` if and only if the layout is well shaped and
      the stored value extends a file of version 1 with that entry. */
  lemma {:induction false} LoadedIff(stored: Stored, w: WorkspaceId, s: Saved)
    ensures w in LoadLayouts(stored) && LoadLayouts(stored)[w] == s <==>
              && Shaped(s.layout) && stored.Parsed?
              && Covers(stored.value, JObj(map["version" := JNum(Finite(1.0)),
                   "workspaces" := JObj(map[w := JObj(map["layout" := Encode(s.layout),
                                                          "focusedPanelId" := JStr(s.focus)])])]))
  {
    var entry := JObj(map["layout" := Encode(s.layout), "focusedPanelId" := JStr(s.focus)]);
    FileCovers(stored, w, entry);
    if w in Candidates(stored) { EntryCovers(Candidates(stored)[w], s); }
  }

  lemma {:induction false} FileCovers(stored: Stored, w: WorkspaceId, entry: Json)
    ensures stored.Parsed? && Covers(stored.value, JObj(map["version" := JNum(Finite(1.0)),
                                                           "workspaces" := JObj(map[w := entry])]))
       <==> w in Candidates(stored) && Covers(Candidates(stored)[w], entry)
  {
    var file := JObj(map["version" := JNum(Finite(1.0)), "workspaces" := JObj(map[w := entry])]);
    if stored.Parsed? && Covers(stored.value, file) {
      var f := stored.value.fields;
      assert Covers(f["version"], file.fields["version"]) && Covers(f["workspaces"], file.fields["workspaces"]);
      assert w in file.fields["workspaces"].fields;
    }
  }

  lemma {:induction false} EntryCovers(e: Json, s: Saved)
    ensures ValidEntry(e) && ReadEntry(e) == s <==>
              Shaped(s.layout) && Covers(e, JObj(map["layout" := Encode(s.layout), "focusedPanelId" := JStr(s.focus)]))
  {
    var entry := JObj(map["layout" := Encode(s.layout), "focusedPanelId" := JStr(s.focus)]);
    if ValidEntry(e) { AcceptedIff(e.fields["layout"], s.layout); }
    if Covers(e, entry) && Shaped(s.layout) {
      assert Covers(e.fields["layout"], entry.fields["layout"]);
      assert Covers(e.fields["focusedPanelId"], entry.fields["focusedPanelId"]);
      AcceptedIff(e.fields["layout"], s.layout);
    }
  }

  /** The format itself, spelled out for two panels side by side. */
  lemma {:induction false} TwoPanelsSpelledOut(top: string, a: string, b: string, s: string)
    ensures var left := JObj(map["kind" := JStr("leaf"), "id" := JStr(a), "sessionId" := JStr(s)]);
      var right := JObj(map["kind" := JStr("leaf"), "id" := JStr(b), "sessionId" := JNull]);
      Encode(Split(top, Row, [50.0, 50.0], [Leaf(a, Some(s)), Leaf(b, None)]))
        == JObj(map["kind" := JStr("split"), "id" := JStr(top), "direction" := JStr("row"),
                    "sizes" := JArr([JNum(Finite(50.0)), JNum(Finite(50.0))]), "children" := JArr([left, right])])
  {
    var cs := [Leaf(a, Some(s)), Leaf(b, None)];
    var none: seq<PanelNode> := [];
    assert cs[1..] == [Leaf(b, None)] && cs[1..][1..] == none;
    assert EncodeAll(cs[1..]) == [Encode(Leaf(b, None))];
    assert EncodeAll(cs) == [Encode(Leaf(a, Some(s))), Encode(Leaf(b, None))];
    assert EncodeSizes([50.0, 50.0]) == [JNum(Finite(50.0)), JNum(Finite(50.0))];
  }
}
