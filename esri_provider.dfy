/**
 * The map-service provider: the normaliser that turns a service's flat sub-layer list
 * into a layer tree, and the activation mutator of a dynamic map layer.
 */
module EsriProvider {
  import opened Wrappers
  import opened LayerTree
  import opened Utils

  /** One entry of the service's `layers` array. */
  datatype SubLayer = SubLayer(id: int, name: string, parentLayerId: int, subLayerIds: Option<seq<int>>)

  /** One entry of the service's legend response; the provider keys these by `layerId`. */
  datatype LegendLayer = LegendLayer(layerId: int, legend: seq<LegendEntry>)

  /**
   * The registration fields the normaliser reads: `visibleLayers` (absent is empty),
   * the ids of `subLayersList` when it is given, and the `allVisible` flag.
   */
  datatype EsriOptions = EsriOptions(visibleLayers: seq<int>, subLayersList: Option<seq<int>>, allVisible: bool)

  /**
   * Why normalisation fails: a `subLayerIds` entry names no kept sub-layer (the source then
   * reads a field of `undefined`), or the `subLayerIds` links loop (the source recurses until
   * the stack overflows). Either rejects the promise that `getTree` returns.
   */
  datatype TreeError = MissingSubLayer(id: int) | CyclicSubLayers(id: int)

  // ---------------------------------------------------------------------------------------
  // Filtering and the lookup tables

  /** Whether the allow-list (when there is one) admits `e`. */
  predicate Allowed(allow: Option<seq<int>>, e: SubLayer) {
    allow.None? || e.id in allow.value
  }

  /** The sub-layers that survive the allow-list, in their order. */
  function Kept(s: seq<SubLayer>, allow: Option<seq<int>>): seq<SubLayer> {
    if s == [] then [] else (if Allowed(allow, s[0]) then [s[0]] else []) + Kept(s[1..], allow)
  }

  lemma {:induction false} KeptMembers(s: seq<SubLayer>, allow: Option<seq<int>>)
    ensures forall e :: e in Kept(s, allow) <==> e in s && Allowed(allow, e)
  {
    if s != [] {
      KeptMembers(s[1..], allow);
      assert s == [s[0]] + s[1..];
    }
  }

  lemma KeptStep(s: seq<SubLayer>, i: nat, allow: Option<seq<int>>)
    requires i < |s|
    ensures Kept(s[i..], allow) == (if Allowed(allow, s[i]) then [s[i]] else []) + Kept(s[i + 1..], allow)
    ensures s[..i + 1] + Kept(s[i + 1..], allow) == s[..i] + ([s[i]] + Kept(s[i + 1..], allow))
  {
    assert s[i..][0] == s[i] && s[i..][1..] == s[i + 1..];
  }

  /** An entry in front of others is indexed last and adds its own id. */
  lemma ConsIndex(e: SubLayer, rest: seq<SubLayer>)
    ensures Index([e] + rest) == Index(rest)[e.id := e] && IdsOf([e] + rest) == {e.id} + IdsOf(rest)
  {
    assert ([e] + rest)[0] == e && ([e] + rest)[1..] == rest;
  }

  lemma {:induction false} KeptNone(s: seq<SubLayer>)
    ensures Kept(s, None) == s
  {
    if s != [] {
      KeptNone(s[1..]);
      assert s == [s[0]] + s[1..];
    }
  }

  /** The ids of a list of sub-layers. */
  function IdsOf(s: seq<SubLayer>): set<int> {
    if s == [] then {} else {s[0].id} + IdsOf(s[1..])
  }

  lemma {:induction false} IdsOfMembers(s: seq<SubLayer>)
    ensures forall x :: x in IdsOf(s) <==> exists i :: 0 <= i < |s| && s[i].id == x
  {
    if s != [] {
      IdsOfMembers(s[1..]);
      forall x | x in IdsOf(s) ensures exists i :: 0 <= i < |s| && s[i].id == x {
        if x != s[0].id {
          assert x in IdsOf(s[1..]);
          var i :| 0 <= i < |s[1..]| && s[1..][i].id == x;
          assert s[i + 1].id == x;
        }
      }
      forall x | (exists i :: 0 <= i < |s| && s[i].id == x) ensures x in IdsOf(s) {
        var i :| 0 <= i < |s| && s[i].id == x;
        if i > 0 { assert s[1..][i - 1].id == x; }
      }
    }
  }

  /**
   * `subLayersAsObject`: each kept id to its entry. The source fills it walking the list
   * backwards, so of two entries with one id the earlier one wins.
   */
  function Index(s: seq<SubLayer>): map<int, SubLayer> {
    if s == [] then map[] else Index(s[1..])[s[0].id := s[0]]
  }

  lemma {:induction false} IndexSpec(s: seq<SubLayer>)
    ensures Index(s).Keys == IdsOf(s)
    ensures forall k :: k in Index(s) ==> Index(s)[k].id == k && Index(s)[k] in s
    ensures forall i :: 0 <= i < |s| && (forall j :: 0 <= j < i ==> s[j].id != s[i].id)
              ==> s[i].id in Index(s) && Index(s)[s[i].id] == s[i]
  {
    if s != [] {
      IndexSpec(s[1..]);
      forall i | 0 <= i < |s| && (forall j :: 0 <= j < i ==> s[j].id != s[i].id)
        ensures s[i].id in Index(s) && Index(s)[s[i].id] == s[i]
      {
        if i > 0 {
          assert s[1..][i - 1] == s[i];
          forall j | 0 <= j < i - 1 ensures s[1..][j].id != s[1..][i - 1].id {
            assert s[1..][j] == s[j + 1];
          }
        }
      }
    }
  }

  /** `initialLayerIds`: the visible layers and, with `allVisible`, every kept sub-layer. */
  function InitialIds(opts: EsriOptions, kept: seq<SubLayer>): set<int> {
    Elems(opts.visibleLayers) + (if opts.allVisible then IdsOf(kept) else {})
  }

  /** A sub-layer starts enabled exactly when it is listed visible, or `allVisible` is set and it was kept. */
  lemma InitialIdsSpec(opts: EsriOptions, s: seq<SubLayer>, x: int)
    ensures x in InitialIds(opts, Kept(s, opts.subLayersList))
        <==> x in opts.visibleLayers
             || (opts.allVisible && exists e :: e in s && Allowed(opts.subLayersList, e) && e.id == x)
  {
    var kept := Kept(s, opts.subLayersList);
    KeptMembers(s, opts.subLayersList);
    IdsOfMembers(kept);
    if opts.allVisible && x in IdsOf(kept) {
      var i :| 0 <= i < |kept| && kept[i].id == x;
      assert kept[i] in kept;
    }
    if opts.allVisible && (exists e :: e in s && Allowed(opts.subLayersList, e) && e.id == x) {
      var e :| e in s && Allowed(opts.subLayersList, e) && e.id == x;
      assert e in kept;
      var i :| 0 <= i < |kept| && kept[i] == e;
    }
  }

  // ---------------------------------------------------------------------------------------
  // Building the tree

  /** What the recursive builder reads: the lookup table, the legends and the initial ids. */
  datatype Context = Context(index: map<int, SubLayer>, legends: map<int, LegendLayer>, initial: set<int>)

  /** Each key of the lookup table names an entry with that id. */
  predicate ValidContext(ctx: Context) {
    forall k :: k in ctx.index ==> ctx.index[k].id == k
  }

  /** A leaf's legend: the service's legend lines for its id, or none (`null`) without an entry. */
  function LeafLegend(legends: map<int, LegendLayer>, id: int): Option<LegendValue> {
    if id in legends then Some(ArrayValue(legends[id].legend)) else None
  }

  /**
   * The `legends` of `getLayerInfo`: the `/legend` response's layers keyed by `layerId`.
   * A leaf gets the lines of the last reported layer with its id, and no legend when none is.
   */
  method LayerInfoLegends(layers: seq<LegendLayer>) returns (legends: map<int, LegendLayer>)
    ensures forall id :: LeafLegend(legends, id).None? <==> forall i :: 0 <= i < |layers| ==> layers[i].layerId != id
    ensures forall i :: 0 <= i < |layers| && (forall j :: i < j < |layers| ==> layers[j].layerId != layers[i].layerId)
              ==> LeafLegend(legends, layers[i].layerId) == Some(ArrayValue(layers[i].legend))
  {
    legends := ConvertToKeyValue(layers, (l: LegendLayer) => l.layerId);
  }

  /** `buildLeaf`. */
  function BuildLeaf(e: SubLayer, legends: map<int, LegendLayer>, initial: set<int>): Tree {
    Leaf(e.id, e.name, Some(e.parentLayerId), e.id in initial, LeafLegend(legends, e.id))
  }

  /** `buildNode`, with the children `getTree` pushes into it. */
  function BuildNode(e: SubLayer, initial: set<int>, children: seq<Tree>): Tree {
    Node(e.id, e.name, Some(e.parentLayerId), e.id in initial, children)
  }

  /** The trees of `acc` in front of a list of trees, or the failure. */
  function Prepend(acc: seq<Tree>, r: Result<seq<Tree>, TreeError>): Result<seq<Tree>, TreeError> {
    match r
    case Err(e) => Err(e)
    case Ok(ts) => Ok(acc + ts)
  }

  lemma PrependNothing(r: Result<seq<Tree>, TreeError>)
    ensures Prepend([], r) == r
  {
    if r.Ok? { assert [] + r.value == r.value; }
  }

  lemma PrependTwice(acc: seq<Tree>, t: Tree, r: Result<seq<Tree>, TreeError>)
    ensures Prepend(acc, Prepend([t], r)) == Prepend(acc + [t], r)
  {
    if r.Ok? { assert acc + ([t] + r.value) == acc + [t] + r.value; }
  }

  lemma CardinalityShrinks(keys: set<int>, path: set<int>, c: int)
    requires c in keys && c !in path
    ensures |keys - (path + {c})| < |keys - path|
  {
    assert keys - (path + {c}) == (keys - path) - {c};
  }

  /**
   * The tree `getTree` builds for the entry `e`: a node when `subLayerIds` is present (even
   * when empty), its children looked up in `subLayerIds` order; otherwise a leaf. `path` holds
   * the ids whose looked-up entries are being expanded further up the recursion.
   */
  function Expand(ctx: Context, e: SubLayer, path: set<int>): (r: Result<Tree, TreeError>)
    requires ValidContext(ctx)
    decreases |ctx.index.Keys - path|, 2, 0
    ensures r.Ok? ==> r.value.id == e.id && r.value.title == e.name
                      && r.value.parentId == Some(e.parentLayerId)
                      && r.value.enabled == (e.id in ctx.initial)
    ensures r.Ok? ==> (r.value.Node? <==> e.subLayerIds.Some?)
    ensures r.Ok? && r.value.Node? ==> Ids(r.value.children) == e.subLayerIds.value
    ensures r.Ok? && r.value.Leaf? ==> r.value.legend == LeafLegend(ctx.legends, e.id)
    ensures r.Ok? && r.value.Node? ==> forall k :: 0 <= k < |r.value.children| ==> EveryId(r.value.children[k], ctx.index.Keys)
    ensures r.Ok? ==> EnabledBy(r.value, ctx.initial)
    ensures r.Err? ==> (r.error.MissingSubLayer? <==> r.error.id !in ctx.index)
  {
    if e.subLayerIds.None? then Ok(BuildLeaf(e, ctx.legends, ctx.initial))
    else
      match ExpandChildren(ctx, e.subLayerIds.value, path)
      case Err(err) => Err(err)
      case Ok(cs) => Ok(BuildNode(e, ctx.initial, cs))
  }

  /** The children of a node: each id of `ids` looked up and expanded, in order. */
  function ExpandChildren(ctx: Context, ids: seq<int>, path: set<int>): (r: Result<seq<Tree>, TreeError>)
    requires ValidContext(ctx)
    decreases |ctx.index.Keys - path|, 1, |ids|
    ensures r.Ok? ==> Ids(r.value) == ids
    ensures r.Ok? ==> forall k :: 0 <= k < |r.value| ==> EveryId(r.value[k], ctx.index.Keys)
    ensures r.Ok? ==> forall k :: 0 <= k < |r.value| ==> EnabledBy(r.value[k], ctx.initial)
    ensures r.Err? ==> (r.error.MissingSubLayer? <==> r.error.id !in ctx.index)
  {
    if ids == [] then Ok([])
    else
      match Lookup(ctx, ids[0], path)
      case Err(err) => Err(err)
      case Ok(t) => Prepend([t], ExpandChildren(ctx, ids[1..], path))
  }

  /** `getTree` on `subLayersAsObject[c]`. */
  function Lookup(ctx: Context, c: int, path: set<int>): (r: Result<Tree, TreeError>)
    requires ValidContext(ctx)
    decreases |ctx.index.Keys - path|, 0, 0
    ensures c !in ctx.index ==> r == Err(MissingSubLayer(c))
    ensures r.Ok? ==> r.value.id == c && EveryId(r.value, ctx.index.Keys) && EnabledBy(r.value, ctx.initial)
    ensures r.Err? ==> (r.error.MissingSubLayer? <==> r.error.id !in ctx.index)
  {
    if c !in ctx.index then Err(MissingSubLayer(c))
    else if c in path then Err(CyclicSubLayers(c))
    else
      CardinalityShrinks(ctx.index.Keys, path, c);
      Expand(ctx, ctx.index[c], path + {c})
  }

  /** The children of the synthetic root: the kept entries with `parentLayerId == -1`, from index `i`. */
  function TopLevel(ctx: Context, kept: seq<SubLayer>, i: nat): (r: Result<seq<Tree>, TreeError>)
    requires ValidContext(ctx)
    decreases |kept| - i
  {
    if i >= |kept| then Ok([])
    else if kept[i].parentLayerId == -1 then
      match Expand(ctx, kept[i], {})
      case Err(err) => Err(err)
      case Ok(t) => Prepend([t], TopLevel(ctx, kept, i + 1))
    else TopLevel(ctx, kept, i + 1)
  }

  /** The ids of the entries whose `parentLayerId` is -1, from index `i`, in order. */
  function TopLevelIds(kept: seq<SubLayer>, i: nat): seq<int>
    decreases |kept| - i
  {
    if i >= |kept| then []
    else (if kept[i].parentLayerId == -1 then [kept[i].id] else []) + TopLevelIds(kept, i + 1)
  }

  /** `buildMultiple`: a synthetic root node carrying the registration's id and name. */
  function BuildMultiple(layerId: int, layerName: string, kept: seq<SubLayer>, ctx: Context): Result<Tree, TreeError>
    requires ValidContext(ctx)
  {
    match TopLevel(ctx, kept, 0)
    case Err(err) => Err(err)
    case Ok(children) => Ok(Node(layerId, layerName, None, false, children))
  }

  /** `buildSingle`: one leaf standing for the whole registration. */
  function BuildSingle(layerId: int, layerName: string, legends: map<int, LegendLayer>, initial: set<int>): Tree {
    Leaf(layerId, layerName, None, layerId in initial, LeafLegend(legends, layerId))
  }

  /** The lookup context of the kept entries. */
  function ContextOf(opts: EsriOptions, kept: seq<SubLayer>, legends: map<int, LegendLayer>): (ctx: Context)
    ensures ValidContext(ctx)
  {
    IndexSpec(kept);
    Context(Index(kept), legends, InitialIds(opts, kept))
  }

  /**
   * The tree the post-fetch step of `getTree` resolves with, given the fetched `layers` (absent
   * is `None`) and the legends keyed by layer id.
   */
  function Normalize(layerId: int, layerName: string, opts: EsriOptions,
                     subLayers: Option<seq<SubLayer>>, legends: map<int, LegendLayer>): Result<Tree, TreeError>
  {
    if subLayers.Some? && |subLayers.value| > 1 then
      var kept := Kept(subLayers.value, opts.subLayersList);
      BuildMultiple(layerId, layerName, kept, ContextOf(opts, kept, legends))
    else
      Ok(BuildSingle(layerId, layerName, legends, Elems(opts.visibleLayers)))
  }

  // ---------------------------------------------------------------------------------------
  // What the normaliser promises

  /** With at most one fetched sub-layer (or none reported) the result is one leaf for the registration. */
  lemma {:induction false} SingleLayerCollapse(layerId: int, layerName: string, opts: EsriOptions,
                                               subLayers: Option<seq<SubLayer>>, legends: map<int, LegendLayer>)
    ensures var r := Normalize(layerId, layerName, opts, subLayers, legends);
            (subLayers.None? || |subLayers.value| <= 1)
            <==> r == Ok(Leaf(layerId, layerName, None, layerId in opts.visibleLayers, LeafLegend(legends, layerId)))
  {
    var r := Normalize(layerId, layerName, opts, subLayers, legends);
    if subLayers.Some? && |subLayers.value| > 1 {
      var kept := Kept(subLayers.value, opts.subLayersList);
      var ctx := ContextOf(opts, kept, legends);
      assert r == BuildMultiple(layerId, layerName, kept, ctx);
      assert r.Ok? ==> r.value.Node?;
    }
  }

  /** The top-level children are the entries with `parentLayerId == -1`, in list order. */
  lemma {:induction false} TopLevelSpec(ctx: Context, kept: seq<SubLayer>, i: nat)
    requires ValidContext(ctx)
    decreases |kept| - i
    ensures var r := TopLevel(ctx, kept, i);
            r.Ok? ==> Ids(r.value) == TopLevelIds(kept, i)
                      && (forall k :: 0 <= k < |r.value| ==> r.value[k].parentId == Some(-1))
                      && (forall k :: 0 <= k < |r.value| ==> EnabledBy(r.value[k], ctx.initial))
                      && (forall k :: 0 <= k < |r.value| && r.value[k].Node? ==>
                            forall j :: 0 <= j < |r.value[k].children| ==> EveryId(r.value[k].children[j], ctx.index.Keys))
  {
    if i < |kept| {
      TopLevelSpec(ctx, kept, i + 1);
      if kept[i].parentLayerId == -1 {
        var e := Expand(ctx, kept[i], {});
        var rest := TopLevel(ctx, kept, i + 1);
        if e.Ok? && rest.Ok? {
          assert TopLevel(ctx, kept, i) == Ok([e.value] + rest.value);
          assert Ids([e.value] + rest.value) == [kept[i].id] + Ids(rest.value);
        }
      }
    }
  }

  lemma {:induction false} KeptIdsAllowed(s: seq<SubLayer>, allow: seq<int>)
    ensures IdsOf(Kept(s, Some(allow))) <= Elems(allow)
  {
    if s != [] {
      KeptIdsAllowed(s[1..], allow);
      var head := if s[0].id in allow then [s[0]] else [];
      assert Kept(s, Some(allow)) == head + Kept(s[1..], Some(allow));
      IdsOfAppend(head, Kept(s[1..], Some(allow)));
      if s[0].id in allow {
        assert IdsOf(head) == {s[0].id} + IdsOf([]);
      }
    }
  }

  lemma IdsOfAppend(a: seq<SubLayer>, b: seq<SubLayer>)
    ensures IdsOf(a + b) == IdsOf(a) + IdsOf(b)
  {
    if a == [] {
      assert a + b == b;
    } else {
      assert (a + b)[1..] == a[1..] + b;
      IdsOfAppend(a[1..], b);
    }
  }

  /**
   * A multi-layer service normalises to a root node with the registration's id and name,
   * no parent and not enabled, whose children are the kept top-level entries in list order;
   * every node and leaf below is enabled exactly by the initial ids and, when an allow-list is
   * given, carries an id from that list.
   */
  lemma MultipleLayerTree(layerId: int, layerName: string, opts: EsriOptions,
                          subLayers: seq<SubLayer>, legends: map<int, LegendLayer>)
    requires |subLayers| > 1
    ensures var r := Normalize(layerId, layerName, opts, Some(subLayers), legends);
            var kept := Kept(subLayers, opts.subLayersList);
            r.Ok? ==>
              && r.value == Node(layerId, layerName, None, false, r.value.children)
              && Ids(r.value.children) == TopLevelIds(kept, 0)
              && (forall k :: 0 <= k < |r.value.children| ==> r.value.children[k].parentId == Some(-1))
              && (forall k :: 0 <= k < |r.value.children| ==> EnabledBy(r.value.children[k], InitialIds(opts, kept)))
              && (opts.subLayersList.Some? ==>
                    forall k :: 0 <= k < |r.value.children| ==> EveryId(r.value.children[k], Elems(opts.subLayersList.value)))
  {
    var kept := Kept(subLayers, opts.subLayersList);
    var ctx := ContextOf(opts, kept, legends);
    var r := Normalize(layerId, layerName, opts, Some(subLayers), legends);
    TopLevelSpec(ctx, kept, 0);
    if r.Ok? {
      var cs := r.value.children;
      assert TopLevel(ctx, kept, 0) == Ok(cs);
      if opts.subLayersList.Some? {
        var allow := opts.subLayersList.value;
        IndexSpec(kept);
        KeptIdsAllowed(subLayers, allow);
        KeptMembers(subLayers, opts.subLayersList);
        IdsOfMembers(kept);
        forall k | 0 <= k < |cs| ensures EveryId(cs[k], Elems(allow)) {
          var top := TopLevelIds(kept, 0);
          TopLevelIdsKept(kept, 0, k);
          if cs[k].Node? {
            forall j | 0 <= j < |cs[k].children| ensures EveryId(cs[k].children[j], Elems(allow)) {
              EveryIdWeaken(cs[k].children[j], ctx.index.Keys, Elems(allow));
            }
          }
        }
      }
    }
  }

  /** Each top-level id is the id of a kept entry. */
  lemma {:induction false} TopLevelIdsKept(kept: seq<SubLayer>, i: nat, k: nat)
    requires k < |TopLevelIds(kept, i)|
    decreases |kept| - i
    ensures TopLevelIds(kept, i)[k] in IdsOf(kept)
  {
    IdsOfMembers(kept);
    if i < |kept| {
      if kept[i].parentLayerId == -1 && k == 0 {
        assert TopLevelIds(kept, i)[0] == kept[i].id;
      } else {
        var k' := if kept[i].parentLayerId == -1 then k - 1 else k;
        TopLevelIdsKept(kept, i + 1, k');
        assert TopLevelIds(kept, i)[k] == TopLevelIds(kept, i + 1)[k'];
      }
    }
  }

  // ---------------------------------------------------------------------------------------
  // Well-formed services

  /**
   * A well-formed entry of a service whose layers form a forest: every id it lists in
   * `subLayerIds` names a kept entry, that entry records this one as its parent, and sits lower
   * in the ranking `rank` than this one.
   */
  predicate EntryWellFormed(index: map<int, SubLayer>, rank: map<int, nat>, e: SubLayer) {
    e.id in rank &&
    (e.subLayerIds.Some? ==>
       forall c :: c in e.subLayerIds.value ==>
         c in index && c in rank && rank[c] < rank[e.id] && index[c].parentLayerId == e.id)
  }

  /** Every kept entry is well formed with respect to one ranking `rank`: no `subLayerIds` link loops. */
  predicate Forest(kept: seq<SubLayer>, rank: map<int, nat>) {
    forall e :: e in kept ==> EntryWellFormed(Index(kept), rank, e)
  }

  /** Below `t` each child records `t` as its parent and sits lower in `rank`. */
  predicate Nested(t: Tree, rank: map<int, nat>) {
    t.id in rank &&
    (t.Node? ==>
       forall k :: 0 <= k < |t.children| ==>
         t.children[k].parentId == Some(t.id) && t.children[k].id in rank &&
         rank[t.children[k].id] < rank[t.id] && Nested(t.children[k], rank))
  }

  /** The ids of the entries being expanded all rank at least `b`. */
  predicate PathAbove(path: set<int>, rank: map<int, nat>, b: nat) {
    forall p :: p in path ==> p in rank && rank[p] >= b
  }

  /**
   * With every entry of the lookup table well formed, expanding a well-formed entry succeeds,
   * as long as the entries being expanded rank above its children, and gives a nested tree.
   */
  lemma {:induction false} ExpandBuilds(ctx: Context, rank: map<int, nat>, e: SubLayer, path: set<int>)
    requires ValidContext(ctx) && (forall k :: k in ctx.index ==> EntryWellFormed(ctx.index, rank, ctx.index[k]))
    requires EntryWellFormed(ctx.index, rank, e) && PathAbove(path, rank, rank[e.id])
    decreases |ctx.index.Keys - path|, 2, 0
    ensures Expand(ctx, e, path).Ok? && Nested(Expand(ctx, e, path).value, rank)
  {
    if e.subLayerIds.Some? {
      ExpandChildrenBuild(ctx, rank, e.subLayerIds.value, path, e.id);
      var cs := ExpandChildren(ctx, e.subLayerIds.value, path).value;
      forall k | 0 <= k < |cs| ensures cs[k].id == e.subLayerIds.value[k] {
        assert Ids(cs)[k] == cs[k].id;
      }
    }
  }

  lemma {:induction false} ExpandChildrenBuild(ctx: Context, rank: map<int, nat>, ids: seq<int>, path: set<int>, parent: int)
    requires ValidContext(ctx) && (forall k :: k in ctx.index ==> EntryWellFormed(ctx.index, rank, ctx.index[k]))
    requires parent in rank && PathAbove(path, rank, rank[parent])
    requires forall c :: c in ids ==> c in ctx.index && c in rank && rank[c] < rank[parent] && ctx.index[c].parentLayerId == parent
    decreases |ctx.index.Keys - path|, 1, |ids|
    ensures var r := ExpandChildren(ctx, ids, path);
            r.Ok? && forall k :: 0 <= k < |r.value| ==> r.value[k].parentId == Some(parent) && Nested(r.value[k], rank)
  {
    if ids != [] {
      assert ids[0] in ids;
      LookupBuilds(ctx, rank, ids[0], path);
      ExpandChildrenBuild(ctx, rank, ids[1..], path, parent);
    }
  }

  lemma {:induction false} LookupBuilds(ctx: Context, rank: map<int, nat>, c: int, path: set<int>)
    requires ValidContext(ctx) && (forall k :: k in ctx.index ==> EntryWellFormed(ctx.index, rank, ctx.index[k]))
    requires c in ctx.index && c in rank && (forall p :: p in path ==> p in rank && rank[p] > rank[c])
    decreases |ctx.index.Keys - path|, 0, 0
    ensures var r := Lookup(ctx, c, path);
            r.Ok? && r.value.parentId == Some(ctx.index[c].parentLayerId) && Nested(r.value, rank)
  {
    assert c !in path;
    CardinalityShrinks(ctx.index.Keys, path, c);
    assert EntryWellFormed(ctx.index, rank, ctx.index[c]);
    ExpandBuilds(ctx, rank, ctx.index[c], path + {c});
  }

  lemma {:induction false} TopLevelBuilds(ctx: Context, rank: map<int, nat>, kept: seq<SubLayer>, i: nat)
    requires ValidContext(ctx) && (forall k :: k in ctx.index ==> EntryWellFormed(ctx.index, rank, ctx.index[k]))
    requires forall e :: e in kept ==> EntryWellFormed(ctx.index, rank, e)
    decreases |kept| - i
    ensures var r := TopLevel(ctx, kept, i);
            r.Ok? && forall k :: 0 <= k < |r.value| ==> Nested(r.value[k], rank)
  {
    if i < |kept| {
      TopLevelBuilds(ctx, rank, kept, i + 1);
      if kept[i].parentLayerId == -1 {
        assert kept[i] in kept;
        ExpandBuilds(ctx, rank, kept[i], {});
      }
    }
  }

  /**
   * A multi-layer service whose kept entries form a forest normalises without error, and below
   * its top-level entries every child records its group as its parent and ranks lower.
   */
  lemma MultipleLayerBuilds(layerId: int, layerName: string, opts: EsriOptions,
                            subLayers: seq<SubLayer>, legends: map<int, LegendLayer>, rank: map<int, nat>)
    requires |subLayers| > 1 && Forest(Kept(subLayers, opts.subLayersList), rank)
    ensures var r := Normalize(layerId, layerName, opts, Some(subLayers), legends);
            r.Ok? && forall k :: 0 <= k < |r.value.children| ==> Nested(r.value.children[k], rank)
  {
    var kept := Kept(subLayers, opts.subLayersList);
    var ctx := ContextOf(opts, kept, legends);
    IndexSpec(kept);
    assert forall k :: k in ctx.index ==> EntryWellFormed(ctx.index, rank, ctx.index[k]);
    TopLevelBuilds(ctx, rank, kept, 0);
  }

  /** In a nested tree no group's id reappears below it, and every id ranks no higher than the root's. */
  lemma {:induction false} NestedDistinct(t: Tree, rank: map<int, nat>)
    requires Nested(t, rank)
    ensures AncestorIdsDistinct(t)
    ensures forall y :: y in AllIds(t) ==> y in rank && rank[y] <= rank[t.id]
  {
    if t.Node? {
      forall k | 0 <= k < |t.children|
        ensures AncestorIdsDistinct(t.children[k])
        ensures forall y :: y in AllIds(t.children[k]) ==> y in rank && rank[y] < rank[t.id]
      {
        NestedDistinct(t.children[k], rank);
      }
      forall y | y in AllIdsFrom(t, 0) ensures y in rank && rank[y] < rank[t.id] {
        var k := AllIdsFromMember(t, 0, y);
      }
    }
  }

  /**
   * A worked example: `[{1,-1,[2,3]},{2,1},{3,1}]` with layer 2 visible gives group 1 holding
   * leaf 2 (enabled) and leaf 3 (not), under the registration's root.
   */
  lemma ServiceExample()
    ensures Normalize(5, "svc", EsriOptions([2], None, false),
                      Some([SubLayer(1, "g", -1, Some([2, 3])), SubLayer(2, "a", 1, None), SubLayer(3, "b", 1, None)]),
                      map[])
            == Ok(Node(5, "svc", None, false,
                       [Node(1, "g", Some(-1), false,
                             [Leaf(2, "a", Some(1), true, None), Leaf(3, "b", Some(1), false, None)])]))
  {
    var g, a, b := SubLayer(1, "g", -1, Some([2, 3])), SubLayer(2, "a", 1, None), SubLayer(3, "b", 1, None);
    var s := [g, a, b];
    var opts := EsriOptions([2], None, false);
    assert s[1..] == [a, b] && s[1..][1..] == [b] && s[1..][1..][1..] == [];
    KeptNone(s);
    var ctx := ContextOf(opts, s, map[]);
    assert Index([b]) == map[3 := b];
    assert Index([a, b]) == map[3 := b, 2 := a];
    assert ctx.index == map[1 := g, 2 := a, 3 := b];
    assert ctx.initial == {2} by {
      assert Elems([2]) == {2};
    }
    ExampleGroup(ctx);
    var n1 := Node(1, "g", Some(-1), false, [Leaf(2, "a", Some(1), true, None), Leaf(3, "b", Some(1), false, None)]);
    assert TopLevel(ctx, s, 3) == Ok([]);
    assert TopLevel(ctx, s, 2) == Ok([]);
    assert TopLevel(ctx, s, 1) == Ok([]);
    assert [n1] + [] == [n1];
    assert TopLevel(ctx, s, 0) == Ok([n1]);
  }

  /** The group of the example service expands into its two leaves, only the visible one enabled. */
  lemma ExampleGroup(ctx: Context)
    requires ctx == Context(map[1 := SubLayer(1, "g", -1, Some([2, 3])), 2 := SubLayer(2, "a", 1, None),
                                3 := SubLayer(3, "b", 1, None)], map[], {2})
    ensures Expand(ctx, SubLayer(1, "g", -1, Some([2, 3])), {})
            == Ok(Node(1, "g", Some(-1), false, [Leaf(2, "a", Some(1), true, None), Leaf(3, "b", Some(1), false, None)]))
  {
    var la, lb := Leaf(2, "a", Some(1), true, None), Leaf(3, "b", Some(1), false, None);
    assert Lookup(ctx, 2, {}) == Ok(la);
    assert Lookup(ctx, 3, {}) == Ok(lb);
    assert [2, 3][0] == 2 && [2, 3][1..] == [3] && [3][0] == 3 && [3][1..] == [];
    assert ExpandChildren(ctx, [], {}) == Ok([]);
    assert [lb] + [] == [lb];
    assert ExpandChildren(ctx, [3], {}) == Ok([lb]);
    assert [la] + [lb] == [la, lb];
    assert ExpandChildren(ctx, [2, 3], {}) == Ok([la, lb]);
  }

  // ---------------------------------------------------------------------------------------
  // The post-fetch step of `getTree`, as the source runs it

  /** `buildNode` + `getTree` for one entry, pushing each looked-up child into the node. */
  method BuildSubTree(ctx: Context, current: SubLayer, path: set<int>) returns (r: Result<Tree, TreeError>)
    requires ValidContext(ctx)
    decreases |ctx.index.Keys - path|
    ensures r == Expand(ctx, current, path)
  {
    if current.subLayerIds.None? {
      return Ok(BuildLeaf(current, ctx.legends, ctx.initial));
    }
    var ids := current.subLayerIds.value;
    var children: seq<Tree> := [];
    var i := 0;
    PrependNothing(ExpandChildren(ctx, ids, path));
    while i < |ids|
      invariant 0 <= i <= |ids|
      invariant ExpandChildren(ctx, ids, path) == Prepend(children, ExpandChildren(ctx, ids[i..], path))
    {
      var subLayerId := ids[i];
      assert ids[i..][0] == subLayerId && ids[i..][1..] == ids[i + 1..];
      if subLayerId !in ctx.index {
        return Err(MissingSubLayer(subLayerId));
      }
      if subLayerId in path {
        return Err(CyclicSubLayers(subLayerId));
      }
      CardinalityShrinks(ctx.index.Keys, path, subLayerId);
      var child := BuildSubTree(ctx, ctx.index[subLayerId], path + {subLayerId});
      if child.Err? {
        return Err(child.error);
      }
      PrependTwice(children, child.value, ExpandChildren(ctx, ids[i + 1..], path));
      children := children + [child.value];
      i := i + 1;
    }
    assert ids[i..] == [];
    assert children + [] == children;
    r := Ok(BuildNode(current, ctx.initial, children));
  }

  /** `buildMultiple`: the root node, the top-level entries' trees pushed in list order. */
  method BuildMultipleTree(layerId: int, layerName: string, kept: seq<SubLayer>, ctx: Context)
      returns (r: Result<Tree, TreeError>)
    requires ValidContext(ctx)
    ensures r == BuildMultiple(layerId, layerName, kept, ctx)
  {
    var children: seq<Tree> := [];
    var i := 0;
    PrependNothing(TopLevel(ctx, kept, 0));
    while i < |kept|
      invariant 0 <= i <= |kept|
      invariant TopLevel(ctx, kept, 0) == Prepend(children, TopLevel(ctx, kept, i))
    {
      if kept[i].parentLayerId == -1 {
        var subTree := BuildSubTree(ctx, kept[i], {});
        if subTree.Err? {
          return Err(subTree.error);
        }
        PrependTwice(children, subTree.value, TopLevel(ctx, kept, i + 1));
        children := children + [subTree.value];
      }
      i := i + 1;
    }
    assert children + [] == children;
    r := Ok(Node(layerId, layerName, None, false, children));
  }

  /** The `for (const id of ...) obj[id] = true` loops: the set of ids listed. */
  method IdSet(ids: seq<int>) returns (obj: set<int>)
    ensures obj == Elems(ids)
  {
    obj := {};
    var n := 0;
    while n < |ids|
      invariant 0 <= n <= |ids|
      invariant obj == Elems(ids[..n])
    {
      assert Elems(ids[..n + 1]) == Elems(ids[..n]) + {ids[n]} by {
        assert ids[..n + 1] == ids[..n] + [ids[n]];
      }
      obj := obj + {ids[n]};
      n := n + 1;
    }
    assert ids[..n] == ids;
  }

  /**
   * The backward loop of `getTree`: splice out each entry the allow-list rejects, record the
   * others in `subLayersAsObject` and, with `allVisible`, add their ids to `initialLayerIds`.
   */
  method FilterSubLayers(subLayers: seq<SubLayer>, allow: Option<seq<int>>, enabledSublayers: Option<set<int>>,
                         allVisible: bool, initialLayerIds: set<int>)
      returns (list: seq<SubLayer>, subLayersAsObject: map<int, SubLayer>, initial: set<int>)
    requires allow.Some? <==> enabledSublayers.Some?
    requires allow.Some? ==> enabledSublayers.value == Elems(allow.value)
    ensures list == Kept(subLayers, allow)
    ensures subLayersAsObject == Index(list)
    ensures initial == initialLayerIds + (if allVisible then IdsOf(list) else {})
  {
    list := subLayers;
    subLayersAsObject := map[];
    initial := initialLayerIds;
    var i := |list|;
    while i > 0
      invariant 0 <= i <= |subLayers|
      invariant list == subLayers[..i] + Kept(subLayers[i..], allow)
      invariant subLayersAsObject == Index(Kept(subLayers[i..], allow))
      invariant initial == initialLayerIds + (if allVisible then IdsOf(Kept(subLayers[i..], allow)) else {})
    {
      i := i - 1;
      ghost var rest := Kept(subLayers[i + 1..], allow);
      KeptStep(subLayers, i, allow);
      assert list[i] == subLayers[i] && list[..i] == subLayers[..i] && list[i + 1..] == rest by {
        assert list == subLayers[..i] + ([subLayers[i]] + rest);
      }
      if enabledSublayers.Some? && list[i].id !in enabledSublayers.value {
        assert !Allowed(allow, subLayers[i]);
        assert Kept(subLayers[i..], allow) == rest;
        list := list[..i] + list[i + 1..];
        continue;
      }
      ConsIndex(subLayers[i], rest);
      subLayersAsObject := subLayersAsObject[list[i].id := list[i]];
      if allVisible {
        initial := initial + {list[i].id};
      }
      assert Kept(subLayers[i..], allow) == [subLayers[i]] + rest;
      assert subLayersAsObject == Index(Kept(subLayers[i..], allow));
    }
    assert subLayers[..0] == [] && subLayers[0..] == subLayers;
  }

  /**
   * The post-fetch step of `getTree`: seed `initialLayerIds` from `visibleLayers`, build the
   * allow-list from `subLayersList`, and with more than one sub-layer filter and build the
   * tree; otherwise build the single leaf.
   */
  method GetTree(layerId: int, layerName: string, opts: EsriOptions,
                 subLayers: Option<seq<SubLayer>>, legends: map<int, LegendLayer>)
      returns (r: Result<Tree, TreeError>)
    ensures r == Normalize(layerId, layerName, opts, subLayers, legends)
  {
    var initialLayerIds := IdSet(opts.visibleLayers);
    var enabledSublayers: Option<set<int>> := None;
    if opts.subLayersList.Some? {
      var enabled := IdSet(opts.subLayersList.value);
      enabledSublayers := Some(enabled);
    }
    if subLayers.Some? && |subLayers.value| > 1 {
      var list, subLayersAsObject, initial :=
        FilterSubLayers(subLayers.value, opts.subLayersList, enabledSublayers, opts.allVisible, initialLayerIds);
      IndexSpec(list);
      r := BuildMultipleTree(layerId, layerName, list, Context(subLayersAsObject, legends, initial));
    } else {
      r := Ok(BuildSingle(layerId, layerName, legends, initialLayerIds));
    }
  }

  // ---------------------------------------------------------------------------------------
  // The activation mutator

  /** A dynamic map layer: the sub-layer ids it shows, read by `getLayers`, replaced by `setLayers`. */
  class DynamicMapLayer {
    var layers: seq<int>

    constructor (layers: seq<int>)
      ensures this.layers == layers
    {
      this.layers := layers;
    }
  }

  /** The list `updateActiveLayersDynamic` hands to `setLayers`. */
  function NextLayers(current: seq<int>, add: seq<int>, del: seq<int>): seq<int> {
    Without(AddedIfNotExists(current, add), Elems(del))
  }

  /**
   * The next list is the untouched entries in their order, then the added ids that are not
   * removed, each at the position of its last mention in `add`.
   */
  lemma NextLayersShape(current: seq<int>, add: seq<int>, del: seq<int>)
    ensures NextLayers(current, add, del)
            == Without(current, Elems(add) + Elems(del)) + Without(KeepLast(add), Elems(del))
  {
    WithoutAppend(Without(current, Elems(add)), KeepLast(add), Elems(del));
    WithoutWithout(current, Elems(add), Elems(del));
  }

  /** Removal wins over addition, each added id is present once, and other ids keep their count. */
  lemma NextLayersCounts(current: seq<int>, add: seq<int>, del: seq<int>)
    ensures forall x :: x in del ==> x !in NextLayers(current, add, del)
    ensures forall x :: x in add && x !in del ==> multiset(NextLayers(current, add, del))[x] == 1
    ensures forall x :: x !in add && x !in del ==>
              multiset(NextLayers(current, add, del))[x] == multiset(current)[x]
  {
    var next := NextLayers(current, add, del);
    NextLayersShape(current, add, del);
    var front := Without(current, Elems(add) + Elems(del));
    var back := Without(KeepLast(add), Elems(del));
    assert multiset(next) == multiset(front) + multiset(back);
    WithoutCounts(current, Elems(add) + Elems(del));
    WithoutCounts(KeepLast(add), Elems(del));
    KeepLastCounts(add);
    WithoutCounts(next, {});
    forall x | x in del ensures x !in next {
      assert multiset(next)[x] == 0;
    }
  }

  /** When `add` repeats no id, the added ids are appended in `add` order. */
  lemma NextLayersDistinctAdd(current: seq<int>, add: seq<int>, del: seq<int>)
    requires forall i, j :: 0 <= i < j < |add| ==> add[i] != add[j]
    ensures NextLayers(current, add, del) == Without(current, Elems(add) + Elems(del)) + Without(add, Elems(del))
  {
    NextLayersShape(current, add, del);
    KeepLastOfDistinct(add);
  }

  /** Sending the same removal twice leaves the list as sending it once. */
  lemma RemovalIdempotent(current: seq<int>, del: seq<int>)
    ensures NextLayers(NextLayers(current, [], del), [], del) == NextLayers(current, [], del)
  {
    var once := NextLayers(current, [], del);
    NextLayersShape(current, [], del);
    NextLayersShape(once, [], del);
    assert Elems([]) == {} && KeepLast([]) == [] && Without([], Elems(del)) == [];
    assert {} + Elems(del) == Elems(del);
    assert once == Without(current, Elems(del));
    WithoutWithout(current, Elems(del), Elems(del));
    assert Elems(del) + Elems(del) == Elems(del);
  }

  /** `updateActiveLayersDynamic`: de-duplicating append of `add`, then each `del` id filtered out. */
  method UpdateActiveLayersDynamic(layer: DynamicMapLayer, add: seq<int>, del: seq<int>)
    modifies layer
    ensures layer.layers == NextLayers(old(layer.layers), add, del)
  {
    var nextLayerIds := layer.layers;
    nextLayerIds := AddIfNotExists(nextLayerIds, add);
    ghost var added := nextLayerIds;
    WithoutNothing(added, {});
    assert Elems(del[..0]) == {};
    var i := 0;
    while i < |del|
      invariant 0 <= i <= |del|
      invariant nextLayerIds == Without(added, Elems(del[..i]))
    {
      WithoutWithout(added, Elems(del[..i]), {del[i]});
      assert Elems(del[..i + 1]) == Elems(del[..i]) + {del[i]} by {
        assert del[..i + 1] == del[..i] + [del[i]];
      }
      nextLayerIds := Without(nextLayerIds, {del[i]});
      i := i + 1;
    }
    assert del[..i] == del;
    layer.layers := nextLayerIds;
  }

  /** `updateActiveLayers`: dynamic layers are updated; any other type throws `'Not implemented'`. */
  method UpdateActiveLayers(kind: LayerType, layer: DynamicMapLayer, add: seq<int>, del: seq<int>)
      returns (outcome: Outcome<ActivationError>)
    modifies layer
    ensures kind == EsriDynamic ==> outcome == Pass && layer.layers == NextLayers(old(layer.layers), add, del)
    ensures kind != EsriDynamic ==> outcome == Fail(NotImplemented) && layer.layers == old(layer.layers)
  {
    if kind == EsriDynamic {
      UpdateActiveLayersDynamic(layer, add, del);
      outcome := Pass;
    } else {
      outcome := Fail(NotImplemented);
    }
  }
}
