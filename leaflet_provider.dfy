/**
 * The provider for plain Leaflet registrations: a (possibly nested) description of Leaflet layers
 * becomes a layer tree whose ids are derived from positions, and the ids of switched checkboxes are
 * mapped back to the Leaflet layers that are then added to, or removed from, the host map.
 */
module LeafletProvider {
  import opened Wrappers
  import opened LayerTree

  /** A Leaflet layer as the provider reads it: `handle` stands for its identity, `url` for `_url`,
    * `wmsLayers` for `wmsParams.layers` when `wmsParams` is set. */
  datatype MapLayer = MapLayer(handle: int, url: Option<string>, wmsLayers: Option<string>)

  /** A registration's options or one of its nested `children` entries; `id` and `parentId` are the
    * fields the normaliser writes into the entries. */
  datatype Description = Description(
    name: string,
    hasChildren: bool,             // `children` is set (an array, possibly empty)
    children: seq<Description>,    // the entries of `children`; empty when it is not set
    legend: Option<LegendValue>,
    layer: Option<MapLayer>,
    id: Option<int>,
    parentId: Option<int>)

  // ---------------------------------------------------------------------------------------
  // Ids and legends

  /** `createId`: the id of the `index`-th child of the group with id `mainId`. */
  function CreateId(mainId: int, index: int): (r: int)
    ensures 0 <= index < 1000 ==> r / 1000 == mainId && r % 1000 == index
  {
    mainId * 1000 + index
  }

  /** Below 1000 children per group, different (group, position) pairs get different ids. */
  lemma CreateIdInjective(p: int, i: int, q: int, j: int)
    requires 0 <= i < 1000 && 0 <= j < 1000
    ensures CreateId(p, i) == CreateId(q, j) <==> p == q && i == j
  {
  }

  /** The WMS GetLegendGraphic request for the service at `url` and its layer list `layers`. */
  function LegendUrl(url: string, layers: string): (r: string)
    ensures |r| > |url|
  {
    url + "?service=WMS&request=GetLegendGraphic&format=image/png&layer=" + layers
  }

  /** `getLegend`: a layer with a `_url` gets a large-image legend from its WMS service; otherwise none. */
  function GetLegend(layer: MapLayer): (r: Option<LegendValue>)
    ensures r.Some? <==> layer.url.Some?
    ensures r.Some? ==> HasLargeImage(r.value)
  {
    if layer.url.Some? then
      Some(ObjectValue(Some(LegendUrl(layer.url.value, if layer.wmsLayers.Some? then layer.wmsLayers.value else ""))))
    else
      None
  }

  /** The legend classification of `buildLeaf` (a `null` legend passes the `undefined` test and throws on `largeImageUrl`). */
  function ClassifyLegend(legend: Option<LegendValue>): (r: Option<LegendValue>)
    requires legend != Some(NullValue)
    // whatever the input, the result is one of the three shapes the renderer draws
    ensures r.None? || r.value.ArrayValue? || HasLargeImage(r.value)
    ensures r.None? <==> legend.None?
    ensures legend.Some? && (legend.value.ArrayValue? || HasLargeImage(legend.value)) ==> r == legend
    ensures legend.Some? && !legend.value.ArrayValue? && !HasLargeImage(legend.value) ==>
              r == Some(ArrayValue([ImageOf(legend.value)]))
  {
    match legend
    case None => None
    case Some(v) =>
      if v.ArrayValue? || HasLargeImage(v) then legend else Some(ArrayValue([ImageOf(v)]))
  }

  /** Classifying an already classified legend changes nothing. */
  lemma ClassifyLegendIdempotent(legend: Option<LegendValue>)
    requires legend != Some(NullValue)
    ensures ClassifyLegend(ClassifyLegend(legend)) == ClassifyLegend(legend)
  {
  }

  /** The legend a nested leaf is built with: its own `legend`, or its layer's when that is `undefined`. */
  function NestedLegend(d: Description): Option<LegendValue>
    requires d.legend.Some? || d.layer.Some?
  {
    if d.legend.Some? then d.legend else GetLegend(d.layer.value)
  }

  /** The legend a top-level single layer is built with: `!options.legend` falls back to the layer's. */
  function TopLegend(opts: Description): Option<LegendValue>
    requires Truthy(opts.legend) || opts.layer.Some?
  {
    if Truthy(opts.legend) then opts.legend else GetLegend(opts.layer.value)
  }

  // ---------------------------------------------------------------------------------------
  // The normaliser

  /**
   * Every nested leaf entry has a legend or a layer (otherwise `getLegend(undefined)` throws),
   * and its legend is not `null` (otherwise `buildLeaf` throws on `null.largeImageUrl`).
   */
  predicate Renderable(d: Description)
    decreases d
  {
    if d.hasChildren then
      var cs := d.children; forall k :: 0 <= k < |cs| ==> Renderable(cs[k])
    else (d.legend.Some? || d.layer.Some?) && d.legend != Some(NullValue)
  }

  /** What `getTree` may be called with without throwing. */
  predicate Accepts(opts: Description) {
    if opts.hasChildren then
      var cs := opts.children; forall k :: 0 <= k < |cs| ==> Renderable(cs[k])
    else Truthy(opts.legend) || opts.layer.Some?
  }

  /** The tree the inner `getTree` builds for entry `d` after its caller set its `id` and `parentId`. */
  function SubTree(d: Description, id: int, parent: int): (t: Tree)
    requires Renderable(d)
    ensures t.id == id && t.parentId == Some(parent) && t.title == d.name && !t.enabled
    ensures t.Node? <==> d.hasChildren
    decreases d
  {
    if d.hasChildren then
      var cs := d.children;
      Node(id, d.name, Some(parent), false,
           seq(|cs|, k requires 0 <= k < |cs| => SubTree(cs[k], CreateId(id, k), id)))
    else
      Leaf(id, d.name, Some(parent), false, ClassifyLegend(NestedLegend(d)))
  }

  /** Entry `d` as the inner `getTree` leaves it: with the ids written into it and all its descendants. */
  function Stamped(d: Description, id: int, parent: int): (w: Description)
    ensures w.id == Some(id) && w.parentId == Some(parent) && w.name == d.name
    ensures w.hasChildren <==> d.hasChildren
    ensures w.layer == d.layer && w.legend == d.legend
    decreases d
  {
    if d.hasChildren then
      var cs := d.children;
      d.(id := Some(id), parentId := Some(parent),
         children := seq(|cs|, k requires 0 <= k < |cs| => Stamped(cs[k], CreateId(id, k), id)))
    else
      d.(id := Some(id), parentId := Some(parent))
  }

  /** The tree the public `getTree` resolves to for the registration `layerId`. */
  function Normalize(layerId: int, layerName: string, opts: Description): (t: Tree)
    requires Accepts(opts)
    ensures t.id == layerId && t.title == layerName && t.parentId.None? && !t.enabled
    ensures t.Node? <==> opts.hasChildren
  {
    if opts.hasChildren then
      var cs := opts.children;
      Node(layerId, layerName, None, false,
           seq(|cs|, k requires 0 <= k < |cs| => SubTree(cs[k], CreateId(layerId, k), layerId)))
    else
      Leaf(layerId, layerName, None, false, ClassifyLegend(TopLegend(opts)))
  }

  /** The options object after the public `getTree`: ids written into the children, or the legend fallback stored. */
  function WrittenBack(layerId: int, opts: Description): (w: Description)
    requires Accepts(opts)
    ensures w.name == opts.name && w.id == opts.id && w.parentId == opts.parentId && w.layer == opts.layer
    ensures w.hasChildren <==> opts.hasChildren
    ensures opts.hasChildren ==> w.legend == opts.legend && |w.children| == |opts.children|
    ensures opts.hasChildren ==> forall k :: 0 <= k < |w.children| ==>
              w.children[k].id == Some(CreateId(layerId, k)) && w.children[k].parentId == Some(layerId) &&
              w.children[k].name == opts.children[k].name && w.children[k].layer == opts.children[k].layer &&
              w.children[k].legend == opts.children[k].legend
    ensures !opts.hasChildren ==> w.children == opts.children && w.legend == TopLegend(opts)
  {
    if opts.hasChildren then
      var cs := opts.children;
      opts.(children := seq(|cs|, k requires 0 <= k < |cs| => Stamped(cs[k], CreateId(layerId, k), layerId)))
    else
      opts.(legend := TopLegend(opts))
  }

  // ---------------------------------------------------------------------------------------
  // Properties of the normaliser

  /** Below `t`, the `k`-th child of each node has id `CreateId(parent id, k)` and that node's id as `parentId`. */
  predicate PositionalIds(t: Tree) {
    t.Node? ==>
      forall k :: 0 <= k < |t.children| ==>
        t.children[k].id == CreateId(t.id, k) && t.children[k].parentId == Some(t.id) && PositionalIds(t.children[k])
  }

  /** Every leaf legend has one of the three shapes the renderer draws. */
  predicate LegendsClassified(t: Tree) {
    match t
    case Leaf(_, _, _, _, legend) => legend.None? || legend.value.ArrayValue? || HasLargeImage(legend.value)
    case Node(_, _, _, _, children) => forall k :: 0 <= k < |children| ==> LegendsClassified(children[k])
  }

  /** `t` is the tree built from the written-back entry `w`: same ids, parent ids, labels and shape. */
  predicate Mirrors(t: Tree, w: Description) {
    w.id == Some(t.id) && w.parentId == t.parentId && w.name == t.title && (t.Node? <==> w.hasChildren) &&
    (t.Node? ==>
       |t.children| == |w.children| &&
       forall k :: 0 <= k < |t.children| ==> Mirrors(t.children[k], w.children[k]))
  }

  lemma {:induction false} SubTreeProperties(d: Description, id: int, parent: int)
    requires Renderable(d)
    ensures PositionalIds(SubTree(d, id, parent))
    ensures LegendsClassified(SubTree(d, id, parent))
    ensures Mirrors(SubTree(d, id, parent), Stamped(d, id, parent))
    decreases d
  {
    if d.hasChildren {
      var cs := d.children;
      var t := SubTree(d, id, parent);
      var w := Stamped(d, id, parent);
      forall k | 0 <= k < |cs|
        ensures PositionalIds(t.children[k]) && LegendsClassified(t.children[k])
        ensures Mirrors(t.children[k], w.children[k])
      {
        SubTreeProperties(cs[k], CreateId(id, k), id);
      }
    }
  }

  /**
   * The public `getTree`: the `k`-th top-level child gets id `CreateId(layerId, k)` and parent
   * `layerId`, recursively below; children keep the input order; every leaf legend is classified;
   * and the tree mirrors the ids written back into the caller's entries.
   */
  lemma NormalizeProperties(layerId: int, layerName: string, opts: Description)
    requires Accepts(opts)
    ensures PositionalIds(Normalize(layerId, layerName, opts))
    ensures LegendsClassified(Normalize(layerId, layerName, opts))
    ensures opts.hasChildren ==>
              var t := Normalize(layerId, layerName, opts);
              var w := WrittenBack(layerId, opts);
              |t.children| == |opts.children| == |w.children| &&
              forall k :: 0 <= k < |t.children| ==>
                t.children[k].title == opts.children[k].name && Mirrors(t.children[k], w.children[k])
  {
    if opts.hasChildren {
      var cs := opts.children;
      forall k | 0 <= k < |cs| {
        SubTreeProperties(cs[k], CreateId(layerId, k), layerId);
      }
    }
  }

  /** A nested leaf entry without a legend shows its layer's WMS legend, or none when it has no `_url`. */
  lemma NestedLeafFallsBackToWms(d: Description, id: int, parent: int)
    requires !d.hasChildren && d.legend.None? && d.layer.Some?
    ensures SubTree(d, id, parent).legend == GetLegend(d.layer.value)
  {
  }

  /**
   * A `null` legend: on a nested leaf entry it is not renderable (the `undefined` test lets it
   * through to `buildLeaf`), while on a top-level single layer it is falsy and the layer's WMS
   * legend is used instead.
   */
  lemma NullLegend(d: Description, layerId: int, layerName: string)
    requires !d.hasChildren && d.legend == Some(NullValue)
    ensures !Renderable(d)
    ensures Accepts(d) <==> d.layer.Some?
    ensures d.layer.Some? ==> Normalize(layerId, layerName, d).legend == GetLegend(d.layer.value)
  {
  }

  /** Registration 7 with two children: their ids are 7000 and 7001, both with parent 7. */
  lemma TwoChildrenExample(a: MapLayer, b: MapLayer)
    ensures
      var leaf := (n: string, l: MapLayer) => Description(n, false, [], Some(TextValue("x.png")), Some(l), None, None);
      var opts := Description("group", true, [leaf("a", a), leaf("b", b)], None, None, None, None);
      var t := Normalize(7, "group", opts);
      t.Node? && Ids(t.children) == [7000, 7001] &&
      t.children[0].parentId == Some(7) && t.children[1].parentId == Some(7) &&
      t.children[0].legend == Some(ArrayValue([ImageOf(TextValue("x.png"))]))
  {
  }

  // ---------------------------------------------------------------------------------------
  // The normaliser as the source runs it: loops that push into `children` and write ids back

  method BuildSubTree(d: Description, id: int, parent: int) returns (t: Tree, written: Description)
    requires Renderable(d)
    ensures t == SubTree(d, id, parent) && written == Stamped(d, id, parent)
    decreases d
  {
    written := d.(id := Some(id), parentId := Some(parent));
    if d.hasChildren {
      var cs := d.children;
      var kids: seq<Tree> := [];
      var entries: seq<Description> := [];
      var i := 0;
      while i < |cs|
        invariant 0 <= i <= |cs| && |kids| == i && |entries| == i
        invariant forall k :: 0 <= k < i ==> kids[k] == SubTree(cs[k], CreateId(id, k), id)
        invariant forall k :: 0 <= k < i ==> entries[k] == Stamped(cs[k], CreateId(id, k), id)
      {
        var child, entry := BuildSubTree(cs[i], CreateId(id, i), id);
        kids := kids + [child];
        entries := entries + [entry];
        i := i + 1;
      }
      t := Node(id, d.name, Some(parent), false, kids);
      written := written.(children := entries);
    } else {
      var legend := NestedLegend(d);
      t := Leaf(id, d.name, Some(parent), false, ClassifyLegend(legend));
    }
  }

  /** The public `getTree`, returning the tree together with the written-back options. */
  method GetTree(layerId: int, layerName: string, opts: Description) returns (tree: Tree, written: Description)
    requires Accepts(opts)
    ensures tree == Normalize(layerId, layerName, opts) && written == WrittenBack(layerId, opts)
  {
    written := opts;
    if opts.hasChildren {
      var cs := opts.children;
      var kids: seq<Tree> := [];
      var entries: seq<Description> := [];
      var i := 0;
      while i < |cs|
        invariant 0 <= i <= |cs| && |kids| == i && |entries| == i
        invariant forall k :: 0 <= k < i ==> kids[k] == SubTree(cs[k], CreateId(layerId, k), layerId)
        invariant forall k :: 0 <= k < i ==> entries[k] == Stamped(cs[k], CreateId(layerId, k), layerId)
      {
        var child, entry := BuildSubTree(cs[i], CreateId(layerId, i), layerId);
        kids := kids + [child];
        entries := entries + [entry];
        i := i + 1;
      }
      tree := Node(layerId, layerName, None, false, kids);
      written := written.(children := entries);
    } else {
      if !Truthy(opts.legend) {
        written := written.(legend := GetLegend(opts.layer.value));
      }
      tree := Leaf(layerId, layerName, None, false, ClassifyLegend(written.legend));
    }
  }

  // ---------------------------------------------------------------------------------------
  // From checkbox ids back to Leaflet layers

  /** `ids.indexOf(d.id) !== -1`; an entry without an `id` (the registration itself) never matches. */
  predicate Matched(ids: seq<int>, d: Description) {
    d.id.Some? && d.id.value in ids
  }

  /** `getLayersFromTree`: a matching entry gives its own `layer` and is not descended into. */
  function LayersFrom(ids: seq<int>, d: Description): seq<Option<MapLayer>>
    decreases d, 1
  {
    if Matched(ids, d) then [d.layer] else LayersFromChildren(ids, d, 0, [])
  }

  /** The loop over `d.children` from position `i` on, with `acc` found so far; a child is searched
    * only while fewer (or more) layers than ids have been found. */
  function LayersFromChildren(ids: seq<int>, d: Description, i: nat, acc: seq<Option<MapLayer>>): seq<Option<MapLayer>>
    decreases d, 0, |d.children| - i
  {
    if !d.hasChildren || i >= |d.children| then acc
    else LayersFromChildren(ids, d, i + 1, if |acc| != |ids| then acc + LayersFrom(ids, d.children[i]) else acc)
  }

  /** Reference definition: the layers of all topmost matching entries, in preorder, without pruning. */
  function Matches(ids: seq<int>, d: Description): seq<Option<MapLayer>>
    decreases d, 1
  {
    if Matched(ids, d) then [d.layer] else MatchesFrom(ids, d, 0)
  }

  function MatchesFrom(ids: seq<int>, d: Description, i: nat): seq<Option<MapLayer>>
    decreases d, 0, |d.children| - i
  {
    if !d.hasChildren || i >= |d.children| then [] else Matches(ids, d.children[i]) + MatchesFrom(ids, d, i + 1)
  }

  /** The pruning loses nothing as long as the entries match no more often than there are ids. */
  lemma {:induction false} LayersFromComplete(ids: seq<int>, d: Description)
    requires |Matches(ids, d)| <= |ids|
    ensures LayersFrom(ids, d) == Matches(ids, d)
    decreases d, 1
  {
    if !Matched(ids, d) {
      LayersFromChildrenComplete(ids, d, 0, []);
    }
  }

  lemma {:induction false} LayersFromChildrenComplete(ids: seq<int>, d: Description, i: nat, acc: seq<Option<MapLayer>>)
    requires |acc| + |MatchesFrom(ids, d, i)| <= |ids|
    ensures LayersFromChildren(ids, d, i, acc) == acc + MatchesFrom(ids, d, i)
    decreases d, 0, |d.children| - i
  {
    if !d.hasChildren || i >= |d.children| {
      assert acc + [] == acc;
    } else if |acc| != |ids| {
      var c := d.children[i];
      LayersFromComplete(ids, c);
      LayersFromChildrenComplete(ids, d, i + 1, acc + Matches(ids, c));
      assert acc + Matches(ids, c) + MatchesFrom(ids, d, i + 1) == acc + MatchesFrom(ids, d, i);
    } else {
      assert Matches(ids, d.children[i]) == [] && MatchesFrom(ids, d, i + 1) == [];
      LayersFromChildrenComplete(ids, d, i + 1, acc);
    }
  }

  /** Every layer found belongs to a topmost matching entry. */
  lemma {:induction false} LayersFromSound(ids: seq<int>, d: Description)
    ensures forall x :: x in LayersFrom(ids, d) ==> x in Matches(ids, d)
    decreases d, 1
  {
    if !Matched(ids, d) {
      LayersFromChildrenSound(ids, d, 0, []);
    }
  }

  lemma {:induction false} LayersFromChildrenSound(ids: seq<int>, d: Description, i: nat, acc: seq<Option<MapLayer>>)
    ensures forall x :: x in LayersFromChildren(ids, d, i, acc) ==> x in acc || x in MatchesFrom(ids, d, i)
    decreases d, 0, |d.children| - i
  {
    if d.hasChildren && i < |d.children| {
      var c := d.children[i];
      var acc' := if |acc| != |ids| then acc + LayersFrom(ids, c) else acc;
      LayersFromSound(ids, c);
      LayersFromChildrenSound(ids, d, i + 1, acc');
    }
  }

  /** `getLayersFromTree` as written: recursion, and a loop that accumulates while the prune test allows. */
  method GetLayersFromTree(ids: seq<int>, d: Description) returns (layers: seq<Option<MapLayer>>)
    ensures layers == LayersFrom(ids, d)
    decreases d
  {
    if Matched(ids, d) {
      return [d.layer];
    }
    layers := [];
    if d.hasChildren {
      var i := 0;
      while i < |d.children|
        invariant 0 <= i <= |d.children|
        invariant LayersFrom(ids, d) == LayersFromChildren(ids, d, i, layers)
      {
        if |layers| != |ids| {
          var found := GetLayersFromTree(ids, d.children[i]);
          layers := layers + found;
        }
        i := i + 1;
      }
    }
  }

  /**
   * Unchecking a nested group `g` of registration 7 sends its id 7000 and its checked leaf 7000000
   * for removal. The search stops at `g`, which matches, and yields `g`'s own `layer` (absent
   * here), not the leaf's.
   */
  lemma NestedGroupExample(la: MapLayer)
    ensures
      var a := Description("a", false, [], Some(TextValue("a.png")), Some(la), None, None);
      var g := Description("g", true, [a], None, None, None, None);
      var w := WrittenBack(7, Description("reg", true, [g], None, None, None, None));
      LayersFrom([7000, 7000000], w) == [None] && LayersFrom([7000000], w) == [Some(la)]
  {
    var a := Description("a", false, [], Some(TextValue("a.png")), Some(la), None, None);
    var g := Description("g", true, [a], None, None, None, None);
    var opts := Description("reg", true, [g], None, None, None, None);
    var w := WrittenBack(7, opts);
    var sa := Stamped(a, 7000000, 7000);
    var sg := Stamped(g, 7000, 7);
    assert sg.children == [sa];
    assert w.children == [sg];
    assert LayersFrom([7000, 7000000], sg) == [None];
    assert LayersFromChildren([7000, 7000000], w, 0, []) == LayersFromChildren([7000, 7000000], w, 1, [None]);
    assert LayersFrom([7000000], sa) == [Some(la)];
    assert LayersFromChildren([7000000], sg, 0, []) == LayersFromChildren([7000000], sg, 1, [Some(la)]);
    assert LayersFrom([7000000], sg) == [Some(la)];
    assert LayersFromChildren([7000000], w, 0, []) == LayersFromChildren([7000000], w, 1, [Some(la)]);
  }

  // ---------------------------------------------------------------------------------------
  // The host map and the activation rule

  /** A call made on the host map; `None` is a call with `undefined`, made for an entry without a layer. */
  datatype MapCall = AddLayer(layer: Option<MapLayer>) | RemoveLayer(layer: Option<MapLayer>)

  /** The host map, observed through the calls the provider makes on it. */
  class HostMap {
    var calls: seq<MapCall>

    constructor ()
      ensures calls == []
    {
      calls := [];
    }
  }

  function Adds(layers: seq<Option<MapLayer>>): seq<MapCall>
  {
    seq(|layers|, k requires 0 <= k < |layers| => AddLayer(layers[k]))
  }

  function Removes(layers: seq<Option<MapLayer>>): seq<MapCall>
  {
    seq(|layers|, k requires 0 <= k < |layers| => RemoveLayer(layers[k]))
  }

  /** The layers present in the map after `calls`, starting from `shown`. */
  function Shown(calls: seq<MapCall>, shown: set<MapLayer>): set<MapLayer>
    decreases |calls|
  {
    if calls == [] then shown
    else
      var last := calls[|calls| - 1];
      var before := Shown(calls[..|calls| - 1], shown);
      match last
      case AddLayer(l) => if l.Some? then before + {l.value} else before
      case RemoveLayer(l) => if l.Some? then before - {l.value} else before
  }

  /** The layers named in `layers`. */
  function Named(layers: seq<Option<MapLayer>>): (r: set<MapLayer>)
    ensures forall l :: l in r <==> Some(l) in layers
  {
    set k | 0 <= k < |layers| && layers[k].Some? :: layers[k].value
  }

  lemma {:induction false} ShownAdds(before: seq<MapCall>, layers: seq<Option<MapLayer>>, shown: set<MapLayer>)
    ensures Shown(before + Adds(layers), shown) == Shown(before, shown) + Named(layers)
    decreases |layers|
  {
    if layers == [] {
      assert before + Adds(layers) == before;
    } else {
      var n := |layers| - 1;
      ShownAdds(before, layers[..n], shown);
      assert (before + Adds(layers))[..|before + Adds(layers)| - 1] == before + Adds(layers[..n]);
      assert Named(layers) == Named(layers[..n]) + (if layers[n].Some? then {layers[n].value} else {}) by {
        assert layers == layers[..n] + [layers[n]];
      }
    }
  }

  lemma {:induction false} ShownRemoves(before: seq<MapCall>, layers: seq<Option<MapLayer>>, shown: set<MapLayer>)
    ensures Shown(before + Removes(layers), shown) == Shown(before, shown) - Named(layers)
    decreases |layers|
  {
    if layers == [] {
      assert before + Removes(layers) == before;
    } else {
      var n := |layers| - 1;
      ShownRemoves(before, layers[..n], shown);
      assert (before + Removes(layers))[..|before + Removes(layers)| - 1] == before + Removes(layers[..n]);
      assert Named(layers) == Named(layers[..n]) + (if layers[n].Some? then {layers[n].value} else {}) by {
        assert layers == layers[..n] + [layers[n]];
      }
    }
  }

  /** `addLayers`. */
  method AddLayers(host: HostMap, layers: seq<Option<MapLayer>>)
    modifies host
    ensures host.calls == old(host.calls) + Adds(layers)
  {
    var i := 0;
    while i < |layers|
      invariant 0 <= i <= |layers|
      invariant host.calls == old(host.calls) + Adds(layers[..i])
    {
      assert Adds(layers[..i + 1]) == Adds(layers[..i]) + [AddLayer(layers[i])];
      host.calls := host.calls + [AddLayer(layers[i])];
      i := i + 1;
    }
    assert layers[..i] == layers;
  }

  /** `removeLayers`. */
  method RemoveLayers(host: HostMap, layers: seq<Option<MapLayer>>)
    modifies host
    ensures host.calls == old(host.calls) + Removes(layers)
  {
    var i := 0;
    while i < |layers|
      invariant 0 <= i <= |layers|
      invariant host.calls == old(host.calls) + Removes(layers[..i])
    {
      assert Removes(layers[..i + 1]) == Removes(layers[..i]) + [RemoveLayer(layers[i])];
      host.calls := host.calls + [RemoveLayer(layers[i])];
      i := i + 1;
    }
    assert layers[..i] == layers;
  }

  /** The calls the Leaflet `updateActiveLayers` makes for registration `obj`. */
  function ActivationCalls(obj: Description, add: seq<int>, del: seq<int>): seq<MapCall> {
    if obj.hasChildren then Removes(LayersFrom(del, obj)) + Adds(LayersFrom(add, obj))
    else if |add| != 0 then [AddLayer(obj.layer)]
    else [RemoveLayer(obj.layer)]
  }

  /**
   * For a grouped registration the removals run first, so a layer found for both lists ends up on
   * the map; every other layer found for `del` is off it, and the rest of the map is untouched.
   * A single layer is added when `add` is non-empty and removed otherwise, whatever `del` holds.
   */
  lemma ActivationEffect(obj: Description, add: seq<int>, del: seq<int>, before: seq<MapCall>, shown: set<MapLayer>)
    ensures obj.hasChildren ==>
              Shown(before + ActivationCalls(obj, add, del), shown)
              == (Shown(before, shown) - Named(LayersFrom(del, obj))) + Named(LayersFrom(add, obj))
    ensures !obj.hasChildren && obj.layer.Some? ==>
              Shown(before + ActivationCalls(obj, add, del), shown)
              == if |add| != 0 then Shown(before, shown) + {obj.layer.value} else Shown(before, shown) - {obj.layer.value}
  {
    if obj.hasChildren {
      var rs := Removes(LayersFrom(del, obj));
      assert before + ActivationCalls(obj, add, del) == (before + rs) + Adds(LayersFrom(add, obj));
      ShownAdds(before + rs, LayersFrom(add, obj), shown);
      ShownRemoves(before, LayersFrom(del, obj), shown);
    } else {
      var calls := before + ActivationCalls(obj, add, del);
      assert calls[..|calls| - 1] == before;
    }
  }

  /** The Leaflet `updateActiveLayers`. */
  method UpdateActiveLayers(host: HostMap, obj: Description, add: seq<int>, del: seq<int>)
    modifies host
    ensures host.calls == old(host.calls) + ActivationCalls(obj, add, del)
  {
    if obj.hasChildren {
      var adding := GetLayersFromTree(add, obj);
      var removing := GetLayersFromTree(del, obj);
      RemoveLayers(host, removing);
      AddLayers(host, adding);
    } else if |add| != 0 {
      AddLayers(host, [obj.layer]);
    } else {
      RemoveLayers(host, [obj.layer]);
    }
  }
}
