/**
 * The cascade engine: what happens when a checkbox of a rendered tree is toggled. A leaf toggles
 * its own id; toggling a group collects the leaves below it that must be switched; switching on
 * also checks every checkbox on the way up to the registration's own. The ids found are handed to
 * the provider of the registration's type.
 */
module LayerManager {
  import opened Wrappers
  import opened LayerTree
  import opened TreeLeafUI
  import EsriProvider
  import LeafletProvider

  // ---------------------------------------------------------------------------------------
  // The scan of `turnNodeOn`

  /** The loop state of `turnNodeOn`: `checkState`, `layersOn`, `layersOff`. */
  datatype ScanState = ScanState(groups: map<int, bool>, on: seq<int>, off: seq<int>)

  /** `checkState[checkbox.parentId]` is truthy; an absent key (or an `undefined` parent) is not. */
  predicate GroupChecked(groups: map<int, bool>, parentId: Option<int>) {
    parentId.Some? && parentId.value in groups && groups[parentId.value]
  }

  /** One iteration: a leaf is collected by its group's recorded state, a group records its own. */
  function Visit(st: ScanState, b: CheckBox): ScanState {
    if b.isLeaf then
      if GroupChecked(st.groups, b.parentId) then
        if b.checked then st.(on := st.on + [b.itemId]) else st
      else
        st.(off := st.off + [b.itemId])
    else
      st.(groups := st.groups[b.itemId := b.checked])
  }

  /** The loop run over `rs` in document order, from state `st`. */
  function ScanRows(st: ScanState, rs: seq<CheckBox>): ScanState
    decreases |rs|
  {
    if rs == [] then st else Visit(ScanRows(st, rs[..|rs| - 1]), rs[|rs| - 1])
  }

  lemma {:induction false} ScanAppend(st: ScanState, a: seq<CheckBox>, b: seq<CheckBox>)
    ensures ScanRows(st, a + b) == ScanRows(ScanRows(st, a), b)
    decreases |b|
  {
    if b == [] {
      assert a + b == a;
    } else {
      var n := |b| - 1;
      ScanAppend(st, a, b[..n]);
      assert (a + b)[..|a + b| - 1] == a + b[..n];
      assert (a + b)[|a + b| - 1] == b[n];
    }
  }

  /** One registration's checkboxes, the first of them the registration's own, with id `layerId`. */
  predicate Registered(rs: seq<CheckBox>, layerId: int) {
    |rs| > 0 && rs[0].itemId == layerId
  }

  /** The checkboxes `findInNode.querySelectorAll('.check-box')` yields: the whole children container
    * of the registration, or that of the first group checkbox with id `nodeId` inside it. */
  function NodeRange(rs: seq<CheckBox>, layerId: int, nodeId: int): (r: (nat, nat))
    requires Registered(rs, layerId) && (layerId == nodeId || Find(rs, nodeId).Some?)
    ensures 1 <= r.0 <= r.1 <= |rs|
  {
    if layerId == nodeId then (1, |rs|)
    else
      var k := Find(rs, nodeId).value;
      (k + 1, SubtreeEnd(rs, k))
  }

  /** The ids `turnNodeOn` collects: the toggled group starts out counted as checked. */
  function NodeOnScan(rs: seq<CheckBox>, layerId: int, nodeId: int): ScanState
    requires Registered(rs, layerId) && (layerId == nodeId || Find(rs, nodeId).Some?)
  {
    var r := NodeRange(rs, layerId, nodeId);
    ScanRows(ScanState(map[nodeId := true], [], []), rs[r.0..r.1])
  }

  /** The ids `turnNodeOff` removes: the group's own id, then every checked leaf below it. */
  function NodeOffIds(rs: seq<CheckBox>, layerId: int, nodeId: int): seq<int>
    requires Registered(rs, layerId) && (layerId == nodeId || Find(rs, nodeId).Some?)
  {
    var r := NodeRange(rs, layerId, nodeId);
    [nodeId] + CheckedLeaves(rs[r.0..r.1])
  }

  // ---------------------------------------------------------------------------------------
  // What the scans mean on a rendered tree

  /** The leaves of `t` that switching on collects, when the group holding `t` is in state `groupOn`:
    * a leaf is switched on when its group and itself are checked. */
  function OnLeaves(t: Tree, groupOn: bool): seq<int>
    decreases t, 1, 0
  {
    if t.Leaf? then (if groupOn && t.enabled then [t.id] else []) else OnLeavesFrom(t, 0, t.enabled)
  }

  function OnLeavesFrom(t: Tree, i: nat, groupOn: bool): seq<int>
    decreases t, 0, if t.Node? then |t.children| - i else 0
  {
    if t.Leaf? || i >= |t.children| then [] else OnLeaves(t.children[i], groupOn) + OnLeavesFrom(t, i + 1, groupOn)
  }

  /** The leaves of `t` that switching on turns off: those whose group is unchecked. */
  function OffLeaves(t: Tree, groupOn: bool): seq<int>
    decreases t, 1, 0
  {
    if t.Leaf? then (if groupOn then [] else [t.id]) else OffLeavesFrom(t, 0, t.enabled)
  }

  function OffLeavesFrom(t: Tree, i: nat, groupOn: bool): seq<int>
    decreases t, 0, if t.Node? then |t.children| - i else 0
  {
    if t.Leaf? || i >= |t.children| then [] else OffLeaves(t.children[i], groupOn) + OffLeavesFrom(t, i + 1, groupOn)
  }

  /** `g1` and `g2` agree on every key outside `except`. */
  ghost predicate Agree(g1: map<int, bool>, g2: map<int, bool>, except: set<int>) {
    forall k :: k !in except ==> (k in g1 <==> k in g2) && (k in g1 ==> g1[k] == g2[k])
  }

  lemma {:induction false} ScanRender(mainId: int, t: Tree, level: nat, st: ScanState, groupOn: bool)
    requires Linked(mainId, t) && AncestorIdsDistinct(t)
    requires GroupChecked(st.groups, CheckBoxParent(mainId, t.parentId)) == groupOn
    ensures var r := ScanRows(st, Render(mainId, t, level));
            r.on == st.on + OnLeaves(t, groupOn) && r.off == st.off + OffLeaves(t, groupOn) &&
            Agree(r.groups, st.groups, AllIds(t))
    decreases t, 1, 0
  {
    var head := [Seed(mainId, t, level)];
    assert ScanRows(st, head) == Visit(st, head[0]) by {
      assert head[..0] == [];
    }
    if t.Leaf? {
      assert st.on + [] == st.on && st.off + [] == st.off;
    } else {
      var st1 := Visit(st, head[0]);
      ScanAppend(st, head, RenderFrom(mainId, t, 0, level + 1));
      ScanRenderFrom(mainId, t, 0, level + 1, st1, t.enabled);
    }
  }

  lemma {:induction false} ScanRenderFrom(mainId: int, t: Tree, i: nat, level: nat, st: ScanState, groupOn: bool)
    requires Linked(mainId, t) && AncestorIdsDistinct(t)
    requires GroupChecked(st.groups, Some(t.id)) == groupOn
    ensures var r := ScanRows(st, RenderFrom(mainId, t, i, level));
            r.on == st.on + OnLeavesFrom(t, i, groupOn) && r.off == st.off + OffLeavesFrom(t, i, groupOn) &&
            Agree(r.groups, st.groups, AllIdsFrom(t, i))
    decreases t, 0, if t.Node? then |t.children| - i else 0
  {
    if t.Leaf? || i >= |t.children| {
      assert st.on + [] == st.on && st.off + [] == st.off;
    } else {
      var c := t.children[i];
      var rc := Render(mainId, c, level);
      var rest := RenderFrom(mainId, t, i + 1, level);
      assert RenderFrom(mainId, t, i, level) == rc + rest;
      ScanAppend(st, rc, rest);
      assert CheckBoxParent(mainId, c.parentId) == Some(t.id) && Linked(mainId, c) && AncestorIdsDistinct(c);
      ScanRender(mainId, c, level, st, groupOn);
      var st2 := ScanRows(st, rc);
      assert t.id !in AllIds(c);
      AgreeLookup(st2.groups, st.groups, AllIds(c), t.id);
      ScanRenderFrom(mainId, t, i + 1, level, st2, groupOn);
      ScanCompose(st, st2, ScanRows(st2, rest), OnLeaves(c, groupOn), OffLeaves(c, groupOn),
                  OnLeavesFrom(t, i + 1, groupOn), OffLeavesFrom(t, i + 1, groupOn), AllIds(c), AllIdsFrom(t, i + 1));
      assert OnLeavesFrom(t, i, groupOn) == OnLeaves(c, groupOn) + OnLeavesFrom(t, i + 1, groupOn);
      assert OffLeavesFrom(t, i, groupOn) == OffLeaves(c, groupOn) + OffLeavesFrom(t, i + 1, groupOn);
      assert AllIdsFrom(t, i) == AllIds(c) + AllIdsFrom(t, i + 1);
    }
  }

  /** Scanning two runs one after the other adds up their collected ids and overwritten keys. */
  lemma ScanCompose(st: ScanState, mid: ScanState, last: ScanState, on1: seq<int>, off1: seq<int>,
                    on2: seq<int>, off2: seq<int>, keys1: set<int>, keys2: set<int>)
    requires mid.on == st.on + on1 && mid.off == st.off + off1 && Agree(mid.groups, st.groups, keys1)
    requires last.on == mid.on + on2 && last.off == mid.off + off2 && Agree(last.groups, mid.groups, keys2)
    ensures last.on == st.on + (on1 + on2) && last.off == st.off + (off1 + off2)
    ensures Agree(last.groups, st.groups, keys1 + keys2)
  {
  }

  lemma AgreeLookup(g1: map<int, bool>, g2: map<int, bool>, except: set<int>, key: int)
    requires Agree(g1, g2, except) && key !in except
    ensures GroupChecked(g1, Some(key)) == GroupChecked(g2, Some(key))
  {
  }


  /**
   * `turnNodeOn` on the registration's own checkbox, over a rendered tree whose checkboxes are in
   * the states the tree's `enabled` flags give: every leaf whose group is checked and which is
   * checked itself is switched on, every leaf whose group is unchecked is switched off, and the
   * registration itself counts as checked. (Any check state is such a rendering.)
   */
  lemma NodeOnScanRendered(t: Tree)
    requires t.Node? && Linked(t.id, t) && AncestorIdsDistinct(t)
    ensures var st := NodeOnScan(Render(t.id, t, 1), t.id, t.id);
            st.on == OnLeavesFrom(t, 0, true) && st.off == OffLeavesFrom(t, 0, true)
  {
    var rs := Render(t.id, t, 1);
    assert rs[1..|rs|] == RenderFrom(t.id, t, 0, 2);
    ScanRenderFrom(t.id, t, 0, 2, ScanState(map[t.id := true], [], []), true);
  }

  /** `turnNodeOff` on the registration's own checkbox of a rendered tree removes the registration's
    * id and then every enabled leaf, in document order. */
  lemma NodeOffIdsRendered(t: Tree)
    requires t.Node?
    ensures NodeOffIds(Render(t.id, t, 1), t.id, t.id) == [t.id] + EnabledLeaves(t)
  {
    var rs := Render(t.id, t, 1);
    assert rs[1..|rs|] == RenderFrom(t.id, t, 0, 2);
    RenderFromCheckedLeaves(t.id, t, 0, 2);
  }

  /** The checkboxes the scans of a nested group `g` cover are those of `g`'s children. */
  lemma NestedRange(t: Tree, g: int) returns (l: nat)
    requires UniqueIds(t) && g != t.id && SubtreeOf(t, g).Some? && SubtreeOf(t, g).value.Node?
    ensures var rs := Render(t.id, t, 1);
            Find(rs, g).Some? &&
            var r := NodeRange(rs, t.id, g);
            rs[r.0..r.1] == RenderFrom(t.id, SubtreeOf(t, g).value, 0, l + 1)
  {
    var rs := Render(t.id, t, 1);
    l := FoundBlock(t.id, t, 1, g);
    var k := Find(rs, g).value;
    var e := SubtreeEnd(rs, k);
    assert rs[k + 1..e] == rs[k..e][1..];
  }

  /** When the children container of group `sub` holds the rendering of its children, the scan of
    * `turnNodeOn` collects the leaves of `sub`. */
  lemma ScanOfGroup(rs: seq<CheckBox>, layerId: int, sub: Tree, level: nat)
    requires Registered(rs, layerId) && sub.id != layerId && Find(rs, sub.id).Some?
    requires var r := NodeRange(rs, layerId, sub.id); rs[r.0..r.1] == RenderFrom(layerId, sub, 0, level)
    requires Linked(layerId, sub) && AncestorIdsDistinct(sub)
    ensures NodeOnScan(rs, layerId, sub.id).on == OnLeavesFrom(sub, 0, true)
    ensures NodeOnScan(rs, layerId, sub.id).off == OffLeavesFrom(sub, 0, true)
  {
    var start := ScanState(map[sub.id := true], [], []);
    ScanRenderFrom(layerId, sub, 0, level, start, true);
    assert [] + OnLeavesFrom(sub, 0, true) == OnLeavesFrom(sub, 0, true);
    assert [] + OffLeavesFrom(sub, 0, true) == OffLeavesFrom(sub, 0, true);
  }

  /**
   * `turnNodeOn` on the checkbox of a nested group `g` of a rendered tree with unique ids: the
   * scan covers exactly the checkboxes below `g`, so it collects the leaves of `g`'s subtree.
   */
  lemma NodeOnScanNested(t: Tree, g: int)
    requires Linked(t.id, t) && UniqueIds(t) && g != t.id
    requires SubtreeOf(t, g).Some? && SubtreeOf(t, g).value.Node?
    ensures var rs := Render(t.id, t, 1);
            var sub := SubtreeOf(t, g).value;
            Find(rs, g).Some? &&
            NodeOnScan(rs, t.id, g).on == OnLeavesFrom(sub, 0, true) &&
            NodeOnScan(rs, t.id, g).off == OffLeavesFrom(sub, 0, true)
  {
    var rs := Render(t.id, t, 1);
    var sub := SubtreeOf(t, g).value;
    Located(t, g);
    SubtreeOfInherits(t, g);
    SubtreeOfLinked(t.id, t, g);
    UniqueIdsAncestors(sub);
    var l := NestedRange(t, g);
    assert Registered(rs, t.id) && sub.id == g;
    ScanOfGroup(rs, t.id, sub, l + 1);
  }

  /** `turnNodeOff` on the checkbox of a nested group `g` of such a tree removes `g` and then every
    * enabled leaf below it, in document order. */
  lemma NodeOffIdsNested(t: Tree, g: int)
    requires UniqueIds(t) && g != t.id
    requires SubtreeOf(t, g).Some? && SubtreeOf(t, g).value.Node?
    ensures var rs := Render(t.id, t, 1);
            Find(rs, g).Some? && NodeOffIds(rs, t.id, g) == [g] + EnabledLeaves(SubtreeOf(t, g).value)
  {
    var rs := Render(t.id, t, 1);
    var sub := SubtreeOf(t, g).value;
    var l := NestedRange(t, g);
    Located(t, g);
    assert Registered(rs, t.id) && sub.id == g;
    OffIdsOfGroup(rs, t.id, sub, l + 1);
  }

  /** When the children container of group `sub` holds the rendering of its children,
    * `turnNodeOff` removes `sub` and its enabled leaves. */
  lemma OffIdsOfGroup(rs: seq<CheckBox>, layerId: int, sub: Tree, level: nat)
    requires Registered(rs, layerId) && sub.id != layerId && sub.Node? && Find(rs, sub.id).Some?
    requires var r := NodeRange(rs, layerId, sub.id); rs[r.0..r.1] == RenderFrom(layerId, sub, 0, level)
    ensures NodeOffIds(rs, layerId, sub.id) == [sub.id] + EnabledLeaves(sub)
  {
    RenderFromCheckedLeaves(layerId, sub, 0, level);
  }

  lemma {:induction false} AllIdsFromBound(t: Tree, i: nat, lo: int)
    requires t.Node? ==> forall k :: i <= k < |t.children| ==> forall y :: y in AllIds(t.children[k]) ==> y >= lo
    ensures forall y :: y in AllIdsFrom(t, i) ==> y >= lo
    decreases if t.Node? then |t.children| - i else 0
  {
    if t.Node? && i < |t.children| {
      AllIdsFromBound(t, i + 1, lo);
    }
  }

  /** With a positive registration id, ids grow downwards in a Leaflet tree (`CreateId(p, k) > p`),
    * so the tree meets the hypotheses of `NodeOnScanRendered`. */
  lemma {:induction false} LeafletSubTreeShape(mainId: int, d: LeafletProvider.Description, id: int, parent: int)
    requires LeafletProvider.Renderable(d) && id >= 1
    ensures var t := LeafletProvider.SubTree(d, id, parent);
            Linked(mainId, t) && AncestorIdsDistinct(t) && forall y :: y in AllIds(t) ==> y >= id
    decreases d
  {
    var t := LeafletProvider.SubTree(d, id, parent);
    if d.hasChildren {
      var cs := d.children;
      forall k | 0 <= k < |cs|
        ensures CheckBoxParent(mainId, t.children[k].parentId) == Some(id)
        ensures Linked(mainId, t.children[k]) && AncestorIdsDistinct(t.children[k])
        ensures forall y :: y in AllIds(t.children[k]) ==> y > id
      {
        LeafletSubTreeShape(mainId, cs[k], LeafletProvider.CreateId(id, k), id);
      }
      AllIdsFromBound(t, 0, id);
    }
  }

  lemma LeafletTreeShape(layerId: int, layerName: string, opts: LeafletProvider.Description)
    requires LeafletProvider.Accepts(opts) && layerId >= 1
    ensures var t := LeafletProvider.Normalize(layerId, layerName, opts);
            Linked(layerId, t) && AncestorIdsDistinct(t)
  {
    var t := LeafletProvider.Normalize(layerId, layerName, opts);
    if opts.hasChildren {
      var cs := opts.children;
      forall k | 0 <= k < |cs|
        ensures CheckBoxParent(layerId, t.children[k].parentId) == Some(layerId)
        ensures Linked(layerId, t.children[k]) && AncestorIdsDistinct(t.children[k]) && layerId !in AllIds(t.children[k])
      {
        LeafletSubTreeShape(layerId, cs[k], LeafletProvider.CreateId(layerId, k), layerId);
      }
    }
  }
  /** A nested Esri subtree whose ids avoid -1 is linked: `-1` is the only parent id the
    * renderer rewrites. */
  lemma {:induction false} EsriSubTreeLinked(mainId: int, t: Tree, rank: map<int, nat>, ids: set<int>)
    requires EsriProvider.Nested(t, rank) && EveryId(t, ids) && -1 !in ids
    ensures Linked(mainId, t)
  {
    if t.Node? {
      forall k | 0 <= k < |t.children| ensures Linked(mainId, t.children[k]) {
        EsriSubTreeLinked(mainId, t.children[k], rank, ids);
      }
    }
  }

  /**
   * A multi-layer service whose kept entries form a forest, none with id -1 or with the
   * registration's id, normalises to a tree that meets the hypotheses of `NodeOnScanRendered`.
   */
  lemma EsriTreeShape(layerId: int, layerName: string, opts: EsriProvider.EsriOptions,
                      subLayers: seq<EsriProvider.SubLayer>, legends: map<int, EsriProvider.LegendLayer>,
                      rank: map<int, nat>)
    requires |subLayers| > 1
    requires var kept := EsriProvider.Kept(subLayers, opts.subLayersList);
             EsriProvider.Forest(kept, rank) && -1 !in EsriProvider.IdsOf(kept) && layerId !in EsriProvider.IdsOf(kept)
    ensures var r := EsriProvider.Normalize(layerId, layerName, opts, Some(subLayers), legends);
            r.Ok? && r.value.Node? && Linked(layerId, r.value) && AncestorIdsDistinct(r.value)
  {
    var kept := EsriProvider.Kept(subLayers, opts.subLayersList);
    var ctx := EsriProvider.ContextOf(opts, kept, legends);
    var ids := EsriProvider.IdsOf(kept);
    EsriProvider.MultipleLayerBuilds(layerId, layerName, opts, subLayers, legends, rank);
    EsriProvider.MultipleLayerTree(layerId, layerName, opts, subLayers, legends);
    EsriProvider.IndexSpec(kept);
    EsriProvider.TopLevelSpec(ctx, kept, 0);
    var t := EsriProvider.Normalize(layerId, layerName, opts, Some(subLayers), legends).value;
    assert EsriProvider.TopLevel(ctx, kept, 0) == Ok(t.children);
    forall k | 0 <= k < |t.children|
      ensures CheckBoxParent(layerId, t.children[k].parentId) == Some(layerId)
      ensures Linked(layerId, t.children[k]) && AncestorIdsDistinct(t.children[k])
      ensures layerId !in AllIds(t.children[k])
    {
      EsriProvider.TopLevelIdsKept(kept, 0, k);
      assert Ids(t.children)[k] == t.children[k].id;
      assert EveryId(t.children[k], ids);
      EveryIdAll(t.children[k], ids);
      EsriSubTreeLinked(layerId, t.children[k], rank, ids);
      EsriProvider.NestedDistinct(t.children[k], rank);
    }
  }


  // ---------------------------------------------------------------------------------------
  // `turnParentsOn`

  /**
   * The checkboxes `turnParentsOn(layerId, id)` checks, in order: a step from a checkbox goes to the
   * first one carrying its `parentId`, or to the registration's own when that is `layerId`. `None`
   * when the walk would throw: an id that is not found, or a missing `parentId`. `fuel` bounds the
   * walk; on a rendered tree with unique ids `|rs|` steps suffice (`ParentWalkRendered`).
   */
  function ParentWalk(rs: seq<CheckBox>, layerId: int, id: int, fuel: nat): (r: Option<seq<nat>>)
    ensures r.Some? ==> forall i :: 0 <= i < |r.value| ==> r.value[i] < |rs|
    ensures r.Some? && id != layerId ==> |r.value| > 0 && r.value[|r.value| - 1] == 0
    ensures id == layerId ==> r == Some([])
    decreases fuel
  {
    if id == layerId then Some([])
    else if fuel == 0 then None
    else match Find(rs, id)
      case None => None
      case Some(k) =>
        match rs[k].parentId
        case None => None
        case Some(p) =>
          if p == layerId then (if |rs| > 0 then Some([0]) else None)
          else match Find(rs, p)
            case None => None
            case Some(j) =>
              var rest := ParentWalk(rs, layerId, p, fuel - 1);
              if rest.Some? then Some([j] + rest.value) else None
  }

  /** The last step of the walk: the item's parent is the registration. */
  lemma WalkToRoot(rs: seq<CheckBox>, layerId: int, id: int, fuel: nat, k: nat)
    requires id != layerId && fuel > 0 && |rs| > 0
    requires Find(rs, id) == Some(k) && rs[k].parentId == Some(layerId)
    ensures ParentWalk(rs, layerId, id, fuel) == Some([0])
  {
  }

  /** One step of the walk: from the item to its parent's checkbox, then on from the parent. */
  lemma WalkStep(rs: seq<CheckBox>, layerId: int, id: int, fuel: nat, k: nat, p: int, j: nat)
    requires id != layerId && fuel > 0 && p != layerId
    requires Find(rs, id) == Some(k) && rs[k].parentId == Some(p) && Find(rs, p) == Some(j)
    requires ParentWalk(rs, layerId, p, fuel - 1).Some?
    ensures ParentWalk(rs, layerId, id, fuel) == Some([j] + ParentWalk(rs, layerId, p, fuel - 1).value)
  {
  }

  /**
   * On a rendered tree with unique ids, the walk from an item climbs through the checkboxes of
   * exactly the groups that enclose it, innermost first, ending at the registration's own.
   */
  lemma {:induction false} ParentWalkAlong(t: Tree, id: int, fuel: nat)
    requires Linked(t.id, t) && UniqueIds(t)
    requires Ancestry(t, id).Some? && fuel >= |Ancestry(t, id).value|
    decreases fuel
    ensures var rs := Render(t.id, t, 1);
            var a := Ancestry(t, id).value;
            var w := ParentWalk(rs, t.id, id, fuel);
            w.Some? && |w.value| == |a| && forall i :: 0 <= i < |a| ==> rs[w.value[i]].itemId == a[i]
  {
    var rs := Render(t.id, t, 1);
    var a := Ancestry(t, id).value;
    if id != t.id {
      AncestryRows(t, id);
      if a[0] == t.id {
        WalkFollows(rs, t.id, id, fuel, a, []);
      } else {
        ParentWalkAlong(t, a[0], fuel - 1);
        WalkFollows(rs, t.id, id, fuel, a, ParentWalk(rs, t.id, a[0], fuel - 1).value);
      }
    }
  }

  /** The checkbox of an item below the root names the innermost enclosing group, whose own
    * checkbox is found unless it is the root's, and whose ancestry is the rest of the item's. */
  lemma AncestryRows(t: Tree, id: int)
    requires Linked(t.id, t) && UniqueIds(t) && Ancestry(t, id).Some? && id != t.id
    ensures var rs := Render(t.id, t, 1);
            var a := Ancestry(t, id).value;
            Registered(rs, t.id) && |a| > 0 && Find(rs, id).Some? && rs[Find(rs, id).value].parentId == Some(a[0]) &&
            Ancestry(t, a[0]) == Some(a[1..]) && (a[0] == t.id ==> a[1..] == []) &&
            (a[0] != t.id ==> Find(rs, a[0]).Some?)
  {
    var a := Ancestry(t, id).value;
    Located(t, id);
    FoundRow(t.id, t, 1, id);
    AncestryStep(t, id);
    if a[0] != t.id {
      FoundRow(t.id, t, 1, a[0]);
    }
  }

  /** The walk from an item whose checkbox names `a[0]` as its parent follows `a` when it goes on
    * along `a[1..]` from there (or stops at once at the registration's own checkbox). */
  lemma WalkFollows(rs: seq<CheckBox>, layerId: int, id: int, fuel: nat, a: seq<int>, rest: seq<nat>)
    requires Registered(rs, layerId) && id != layerId && fuel > 0 && |a| > 0
    requires Find(rs, id).Some? && rs[Find(rs, id).value].parentId == Some(a[0])
    requires a[0] == layerId ==> a[1..] == [] && rest == []
    requires a[0] != layerId ==> Find(rs, a[0]).Some? && ParentWalk(rs, layerId, a[0], fuel - 1) == Some(rest)
    requires |rest| == |a| - 1 && forall i :: 0 <= i < |rest| ==> rs[rest[i]].itemId == a[1..][i]
    ensures var w := ParentWalk(rs, layerId, id, fuel);
            w.Some? && |w.value| == |a| && forall i :: 0 <= i < |a| ==> rs[w.value[i]].itemId == a[i]
  {
    var k := Find(rs, id).value;
    if a[0] == layerId {
      WalkToRoot(rs, layerId, id, fuel, k);
      assert |a| == 1;
    } else {
      var j := Find(rs, a[0]).value;
      WalkStep(rs, layerId, id, fuel, k, a[0], j);
      WalkPrefix(rs, a, j, rest);
    }
  }

  /** A walk that starts at the checkbox of `a[0]` and goes on along the rest of `a` follows `a`. */
  lemma WalkPrefix(rs: seq<CheckBox>, a: seq<int>, j: nat, rest: seq<nat>)
    requires |a| > 0 && j < |rs| && rs[j].itemId == a[0] && |rest| == |a| - 1
    requires forall i :: 0 <= i < |rest| ==> rest[i] < |rs| && rs[rest[i]].itemId == a[1..][i]
    ensures forall i :: 0 <= i < |a| ==> ([j] + rest)[i] < |rs| && rs[([j] + rest)[i]].itemId == a[i]
  {
    var w := [j] + rest;
    forall i | 0 <= i < |a| ensures w[i] < |rs| && rs[w[i]].itemId == a[i] {
      if i > 0 {
        assert w[i] == rest[i - 1] && a[i] == a[1..][i - 1];
      }
    }
  }

  /** The walk `turnLayersOn` and `turnNodeOn` take succeeds for every item of a rendered tree with
    * unique ids, with the fuel that is the number of checkboxes. */
  lemma ParentWalkRendered(t: Tree, id: int)
    requires Linked(t.id, t) && UniqueIds(t) && id in AllIds(t)
    ensures Ancestry(t, id).Some?
    ensures var rs := Render(t.id, t, 1);
            var a := Ancestry(t, id).value;
            var w := ParentWalk(rs, t.id, id, |rs|);
            w.Some? && |w.value| == |a| && forall i :: 0 <= i < |a| ==> rs[w.value[i]].itemId == a[i]
  {
    Located(t, id);
    AncestryShorter(t.id, t, 1, id);
    ParentWalkAlong(t, id, |Render(t.id, t, 1)|);
  }

  /** The walk reads ids and parent ids only, not check states. */
  lemma {:induction false} ParentWalkIgnoresChecks(a: seq<CheckBox>, b: seq<CheckBox>, layerId: int, id: int, fuel: nat)
    requires Skeleton(a) == Skeleton(b)
    ensures ParentWalk(a, layerId, id, fuel) == ParentWalk(b, layerId, id, fuel)
    decreases fuel
  {
    FindIgnoresChecks(a, b, id, 1);
    if id != layerId && fuel > 0 && Find(a, id).Some? {
      var k := Find(a, id).value;
      assert a[k].parentId == Skeleton(a)[k].parentId == Skeleton(b)[k].parentId == b[k].parentId;
      if a[k].parentId.Some? {
        var p := a[k].parentId.value;
        FindIgnoresChecks(a, b, p, 1);
        ParentWalkIgnoresChecks(a, b, layerId, p, fuel - 1);
      }
    }
  }

  lemma {:induction false} FindIgnoresChecks(a: seq<CheckBox>, b: seq<CheckBox>, id: int, i: nat)
    requires Skeleton(a) == Skeleton(b) && i >= 1
    ensures FindFrom(a, id, i) == FindFrom(b, id, i)
    decreases |a| - i
  {
    if i < |a| {
      assert a[i].itemId == Skeleton(a)[i].itemId == Skeleton(b)[i].itemId == b[i].itemId;
      FindIgnoresChecks(a, b, id, i + 1);
    }
  }

  /** Checking one more checkbox leaves the document's structure as it was. */
  lemma CheckKeepsSkeleton(rs: seq<CheckBox>, k: nat)
    requires k < |rs|
    ensures Skeleton(rs[k := rs[k].(checked := true)]) == Skeleton(rs)
  {
    var rs' := rs[k := rs[k].(checked := true)];
    assert forall j :: 0 <= j < |rs| ==> Skeleton(rs')[j] == Skeleton(rs)[j];
  }

  /** The checkboxes after checking those at the positions in `walk`. */
  function CheckedAt(rs: seq<CheckBox>, walk: seq<nat>): seq<CheckBox>
  {
    seq(|rs|, k requires 0 <= k < |rs| => if k in walk then rs[k].(checked := true) else rs[k])
  }

  /** Turning the parents on twice checks nothing the first time did not. */
  lemma TurnParentsOnIdempotent(rs: seq<CheckBox>, layerId: int, id: int, fuel: nat)
    requires ParentWalk(rs, layerId, id, fuel).Some?
    ensures var after := CheckedAt(rs, ParentWalk(rs, layerId, id, fuel).value);
            ParentWalk(after, layerId, id, fuel) == ParentWalk(rs, layerId, id, fuel) &&
            CheckedAt(after, ParentWalk(rs, layerId, id, fuel).value) == after
  {
    var w := ParentWalk(rs, layerId, id, fuel).value;
    var after := CheckedAt(rs, w);
    assert Skeleton(after) == Skeleton(rs) by {
      assert forall j :: 0 <= j < |rs| ==> Skeleton(after)[j] == Skeleton(rs)[j];
    }
    ParentWalkIgnoresChecks(after, rs, layerId, id, fuel);
    assert CheckedAt(after, w) == after by {
      assert forall j :: 0 <= j < |rs| ==> CheckedAt(after, w)[j] == after[j];
    }
  }

  /** Checking one more checkbox, then those of a walk, is checking those of the longer walk. */
  lemma CheckedAtCons(rs: seq<CheckBox>, j: nat, walk: seq<nat>)
    requires j < |rs|
    ensures CheckedAt(rs[j := rs[j].(checked := true)], walk) == CheckedAt(rs, [j] + walk)
  {
    var a := CheckedAt(rs[j := rs[j].(checked := true)], walk);
    var b := CheckedAt(rs, [j] + walk);
    forall k | 0 <= k < |rs| ensures a[k] == b[k] {
      assert k in [j] + walk <==> k == j || k in walk;
    }
  }

  // ---------------------------------------------------------------------------------------
  // The loops and the walk, as the source runs them on the document

  /** The loop of `turnNodeOn` over the checkboxes below the toggled group; no checkbox changes. */
  method CollectNodeOn(ui: CheckBoxes, layerId: int, nodeId: int) returns (layersOn: seq<int>, layersOff: seq<int>)
    requires Registered(ui.rows[..], layerId) && (layerId == nodeId || Find(ui.rows[..], nodeId).Some?)
    ensures layersOn == NodeOnScan(ui.rows[..], layerId, nodeId).on
    ensures layersOff == NodeOnScan(ui.rows[..], layerId, nodeId).off
  {
    var range := NodeRange(ui.rows[..], layerId, nodeId);
    ghost var start := ScanState(map[nodeId := true], [], []);
    var checkState := map[nodeId := true];
    layersOn, layersOff := [], [];
    var i := range.0;
    while i < range.1
      invariant range.0 <= i <= range.1
      invariant ScanRows(start, ui.rows[range.0..i]) == ScanState(checkState, layersOn, layersOff)
    {
      var checkbox := ui.rows[i];
      assert ui.rows[range.0..i + 1][..i - range.0] == ui.rows[range.0..i];
      if checkbox.isLeaf {
        if checkbox.parentId.Some? && checkbox.parentId.value in checkState && checkState[checkbox.parentId.value] {
          if checkbox.checked {
            layersOn := layersOn + [checkbox.itemId];
          }
        } else {
          layersOff := layersOff + [checkbox.itemId];
        }
      } else {
        checkState := checkState[checkbox.itemId := checkbox.checked];
      }
      i := i + 1;
    }
  }

  /** The loop of `turnNodeOff`. */
  method CollectNodeOff(ui: CheckBoxes, layerId: int, nodeId: int) returns (layersOff: seq<int>)
    requires Registered(ui.rows[..], layerId) && (layerId == nodeId || Find(ui.rows[..], nodeId).Some?)
    ensures layersOff == NodeOffIds(ui.rows[..], layerId, nodeId)
  {
    var range := NodeRange(ui.rows[..], layerId, nodeId);
    layersOff := [nodeId];
    var i := range.0;
    while i < range.1
      invariant range.0 <= i <= range.1
      invariant layersOff == [nodeId] + CheckedLeaves(ui.rows[range.0..i])
    {
      var checkbox := ui.rows[i];
      assert ui.rows[range.0..i + 1][..i - range.0] == ui.rows[range.0..i];
      if checkbox.isLeaf && checkbox.checked {
        layersOff := layersOff + [checkbox.itemId];
      }
      i := i + 1;
    }
  }

  /** `turnParentsOn`: checks the checkboxes of `ParentWalk` and changes nothing else. */
  method TurnParentsOn(ui: CheckBoxes, layerId: int, subNodeId: int, ghost fuel: nat)
    requires Registered(ui.rows[..], layerId)
    requires ParentWalk(ui.rows[..], layerId, subNodeId, fuel).Some?
    modifies ui.rows
    ensures ui.rows[..] == CheckedAt(old(ui.rows[..]), ParentWalk(old(ui.rows[..]), layerId, subNodeId, fuel).value)
    decreases fuel
  {
    if layerId == subNodeId {
      assert CheckedAt(ui.rows[..], []) == ui.rows[..];
      return;
    }
    ghost var before := ui.rows[..];
    WalkHead(before, layerId, subNodeId, fuel);
    var subNode := Find(ui.rows[..], subNodeId).value;
    var parentId := ui.rows[subNode].parentId.value;
    var parentIndex := if parentId != layerId then Find(ui.rows[..], parentId).value else 0;
    ui.rows[parentIndex] := ui.rows[parentIndex].(checked := true);
    assert ui.rows[..] == before[parentIndex := before[parentIndex].(checked := true)];
    if parentId != layerId {
      CheckedStep(before, layerId, parentId, fuel - 1, parentIndex);
      TurnParentsOn(ui, layerId, parentId, fuel - 1);
    } else {
      CheckedAtCons(before, 0, []);
      assert CheckedAt(ui.rows[..], []) == ui.rows[..];
      assert [0] + [] == [0];
    }
  }

  /** The first step of a walk that succeeds: the item's checkbox is found and has a parent, and the
    * walk goes on from the parent's checkbox (or ends at the registration's own). */
  lemma WalkHead(rs: seq<CheckBox>, layerId: int, id: int, fuel: nat)
    requires Registered(rs, layerId) && id != layerId && ParentWalk(rs, layerId, id, fuel).Some?
    ensures fuel > 0 && Find(rs, id).Some? && rs[Find(rs, id).value].parentId.Some?
    ensures var p := rs[Find(rs, id).value].parentId.value;
            (p == layerId ==> ParentWalk(rs, layerId, id, fuel) == Some([0])) &&
            (p != layerId ==> Find(rs, p).Some? && ParentWalk(rs, layerId, p, fuel - 1).Some? &&
                              ParentWalk(rs, layerId, id, fuel) == Some([Find(rs, p).value] + ParentWalk(rs, layerId, p, fuel - 1).value))
  {
  }

  /** Checking box `j` first and then walking on from `p` checks what walking on from `p` in the
    * unchecked document would, and box `j`. */
  lemma CheckedStep(rs: seq<CheckBox>, layerId: int, p: int, fuel: nat, j: nat)
    requires j < |rs| && ParentWalk(rs, layerId, p, fuel).Some?
    ensures var rs' := rs[j := rs[j].(checked := true)];
            Registered(rs', layerId) == Registered(rs, layerId) &&
            ParentWalk(rs', layerId, p, fuel) == ParentWalk(rs, layerId, p, fuel) &&
            CheckedAt(rs', ParentWalk(rs', layerId, p, fuel).value) == CheckedAt(rs, [j] + ParentWalk(rs, layerId, p, fuel).value)
  {
    var rs' := rs[j := rs[j].(checked := true)];
    CheckKeepsSkeleton(rs, j);
    ParentWalkIgnoresChecks(rs', rs, layerId, p, fuel);
    CheckedAtCons(rs, j, ParentWalk(rs, layerId, p, fuel).value);
    assert j == 0 ==> rs'[0].itemId == rs[0].itemId;
  }

  // ---------------------------------------------------------------------------------------
  // Registrations and the entry points

  /** A registration as the manager acts on it: its type, the Leaflet options (with the ids the
    * normaliser wrote back), the Esri dynamic layer, the host map, and its rendered checkboxes. */
  class Registration {
    const kind: LayerType
    const options: LeafletProvider.Description
    const dynamicLayer: EsriProvider.DynamicMapLayer
    const host: LeafletProvider.HostMap
    const ui: CheckBoxes

    constructor (kind: LayerType, options: LeafletProvider.Description, dynamicLayer: EsriProvider.DynamicMapLayer,
                 host: LeafletProvider.HostMap, ui: CheckBoxes)
      ensures this.kind == kind && this.options == options && this.dynamicLayer == dynamicLayer
      ensures this.host == host && this.ui == ui
    {
      this.kind := kind;
      this.options := options;
      this.dynamicLayer := dynamicLayer;
      this.host := host;
      this.ui := ui;
    }
  }

  /** The provider of `reg`'s type has switched `add` on and `del` off; nothing else has changed. */
  twostate predicate Activated(reg: Registration, add: seq<int>, del: seq<int>)
    reads reg.dynamicLayer, reg.host
  {
    reg.dynamicLayer.layers ==
      (if reg.kind == EsriDynamic then EsriProvider.NextLayers(old(reg.dynamicLayer.layers), add, del)
       else old(reg.dynamicLayer.layers)) &&
    reg.host.calls ==
      old(reg.host.calls) + (if reg.kind == LeafletLayer then LeafletProvider.ActivationCalls(reg.options, add, del) else [])
  }

  /** `updateActiveLayers`: Esri types go to the Esri provider, Leaflet ones to the Leaflet provider,
    * any other type is ignored. */
  method UpdateActiveLayers(reg: Registration, add: seq<int>, del: seq<int>) returns (outcome: Outcome<ActivationError>)
    modifies reg.dynamicLayer, reg.host
    ensures outcome.Fail? <==> reg.kind == EsriFeature
    ensures outcome.Fail? ==> outcome.error == NotImplemented
    ensures Activated(reg, add, del)
  {
    if reg.kind == EsriDynamic || reg.kind == EsriFeature {
      outcome := EsriProvider.UpdateActiveLayers(reg.kind, reg.dynamicLayer, add, del);
    } else if reg.kind == LeafletLayer {
      LeafletProvider.UpdateActiveLayers(reg.host, reg.options, add, del);
      outcome := Pass;
    } else {
      outcome := Pass;
    }
  }

  /** `turnLayersOn`: activates the ids, then checks the parents of the first one. */
  method TurnLayersOn(reg: Registration, layerId: int, subLayerIds: seq<int>) returns (outcome: Outcome<ActivationError>)
    requires Registered(reg.ui.rows[..], layerId) && |subLayerIds| > 0
    requires reg.kind != EsriFeature ==> ParentWalk(reg.ui.rows[..], layerId, subLayerIds[0], reg.ui.rows.Length).Some?
    modifies reg.dynamicLayer, reg.host, reg.ui.rows
    ensures outcome.Fail? <==> reg.kind == EsriFeature
    ensures outcome.Fail? ==> outcome.error == NotImplemented
    ensures Activated(reg, subLayerIds, [])
    ensures outcome.Fail? ==> reg.ui.rows[..] == old(reg.ui.rows[..])
    ensures outcome.Pass? ==>
              reg.ui.rows[..] == CheckedAt(old(reg.ui.rows[..]),
                                           ParentWalk(old(reg.ui.rows[..]), layerId, subLayerIds[0], reg.ui.rows.Length).value)
  {
    outcome := UpdateActiveLayers(reg, subLayerIds, []);
    if outcome.Pass? {
      TurnParentsOn(reg.ui, layerId, subLayerIds[0], reg.ui.rows.Length);
    }
  }

  /** `turnLayersOff`: deactivates the ids; no checkbox changes. */
  method TurnLayersOff(reg: Registration, layerId: int, subLayerIds: seq<int>) returns (outcome: Outcome<ActivationError>)
    modifies reg.dynamicLayer, reg.host
    ensures outcome.Fail? <==> reg.kind == EsriFeature
    ensures outcome.Fail? ==> outcome.error == NotImplemented
    ensures Activated(reg, [], subLayerIds)
  {
    outcome := UpdateActiveLayers(reg, [], subLayerIds);
  }

  /** `turnNodeOn`: activates the leaves the scan collects, then checks the group's parents. */
  method TurnNodeOn(reg: Registration, layerId: int, nodeId: int) returns (outcome: Outcome<ActivationError>)
    requires Registered(reg.ui.rows[..], layerId) && (layerId == nodeId || Find(reg.ui.rows[..], nodeId).Some?)
    requires reg.kind != EsriFeature ==> ParentWalk(reg.ui.rows[..], layerId, nodeId, reg.ui.rows.Length).Some?
    modifies reg.dynamicLayer, reg.host, reg.ui.rows
    ensures outcome.Fail? <==> reg.kind == EsriFeature
    ensures outcome.Fail? ==> outcome.error == NotImplemented
    ensures Activated(reg, NodeOnScan(old(reg.ui.rows[..]), layerId, nodeId).on, NodeOnScan(old(reg.ui.rows[..]), layerId, nodeId).off)
    ensures outcome.Fail? ==> reg.ui.rows[..] == old(reg.ui.rows[..])
    ensures outcome.Pass? ==>
              reg.ui.rows[..] == CheckedAt(old(reg.ui.rows[..]), ParentWalk(old(reg.ui.rows[..]), layerId, nodeId, reg.ui.rows.Length).value)
  {
    var layersOn, layersOff := CollectNodeOn(reg.ui, layerId, nodeId);
    outcome := UpdateActiveLayers(reg, layersOn, layersOff);
    if outcome.Pass? {
      TurnParentsOn(reg.ui, layerId, nodeId, reg.ui.rows.Length);
    }
  }

  /** `turnNodeOff`: deactivates the group's id and every checked leaf below it; no checkbox changes. */
  method TurnNodeOff(reg: Registration, layerId: int, nodeId: int) returns (outcome: Outcome<ActivationError>)
    requires Registered(reg.ui.rows[..], layerId) && (layerId == nodeId || Find(reg.ui.rows[..], nodeId).Some?)
    modifies reg.dynamicLayer, reg.host
    ensures outcome.Fail? <==> reg.kind == EsriFeature
    ensures outcome.Fail? ==> outcome.error == NotImplemented
    ensures Activated(reg, [], NodeOffIds(reg.ui.rows[..], layerId, nodeId))
  {
    var layersOff := CollectNodeOff(reg.ui, layerId, nodeId);
    outcome := UpdateActiveLayers(reg, [], layersOff);
  }
}
