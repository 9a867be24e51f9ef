/**
 * The normalised layer tree that both providers produce and the renderer consumes:
 * nodes group sub-trees, leaves are the activatable layers.
 */
module LayerTree {
  import opened Wrappers

  /** One line of a multi-line legend. */
  datatype LegendEntry =
    | LegendImage(caption: string, imageUrl: string, imageData: string)  // as a map service's legend reports it
    | ImageOf(value: LegendValue)                                       // the object `{imageUrl: v}` built around a value

  /** A legend value as a provider hands it to the renderer (JS `undefined` is `None` around it). */
  datatype LegendValue =
    | ArrayValue(entries: seq<LegendEntry>)         // an array of legend lines
    | ObjectValue(largeImageUrl: Option<string>)    // a non-array object with, or without, a `largeImageUrl` field
    | TextValue(text: string)                       // a string
    | NullValue                                     // `null`

  /** JS truthiness of `legend.largeImageUrl`. */
  predicate HasLargeImage(v: LegendValue) {
    v.ObjectValue? && v.largeImageUrl.Some? && v.largeImageUrl.value != ""
  }

  /** JS truthiness of an optional legend value (`!legend` is its negation). */
  predicate Truthy(v: Option<LegendValue>) {
    v.Some? && v.value != TextValue("") && v.value != NullValue
  }

  /** A normalised tree (`title` is the source's `label`); `parentId` is `None` where the source leaves it `undefined`. */
  datatype Tree =
    | Node(id: int, title: string, parentId: Option<int>, enabled: bool, children: seq<Tree>)
    | Leaf(id: int, title: string, parentId: Option<int>, enabled: bool, legend: Option<LegendValue>)

  /** The ids of a sequence of trees, in order. */
  function Ids(ts: seq<Tree>): (r: seq<int>)
    ensures |r| == |ts|
    ensures forall i :: 0 <= i < |ts| ==> r[i] == ts[i].id
  {
    if ts == [] then [] else [ts[0].id] + Ids(ts[1..])
  }

  /** Every id in `t` belongs to `s`. */
  predicate EveryId(t: Tree, s: set<int>) {
    t.id in s && (t.Node? ==> forall k :: 0 <= k < |t.children| ==> EveryId(t.children[k], s))
  }

  lemma {:induction false} EveryIdWeaken(t: Tree, s: set<int>, s': set<int>)
    requires EveryId(t, s) && s <= s'
    ensures EveryId(t, s')
  {
    if t.Node? {
      forall k | 0 <= k < |t.children| ensures EveryId(t.children[k], s') {
        EveryIdWeaken(t.children[k], s, s');
      }
    }
  }

  /** Every node and leaf of `t` is enabled exactly when its id belongs to `s`. */
  predicate EnabledBy(t: Tree, s: set<int>) {
    t.enabled == (t.id in s) && (t.Node? ==> forall k :: 0 <= k < |t.children| ==> EnabledBy(t.children[k], s))
  }

  // ---------------------------------------------------------------------------------------
  // Ids and positions inside a tree

  /** All ids in `t`. */
  function AllIds(t: Tree): set<int>
    decreases t, 1, 0
  {
    {t.id} + (if t.Node? then AllIdsFrom(t, 0) else {})
  }

  function AllIdsFrom(t: Tree, i: nat): set<int>
    decreases t, 0, if t.Node? then |t.children| - i else 0
  {
    if t.Leaf? || i >= |t.children| then {} else AllIds(t.children[i]) + AllIdsFrom(t, i + 1)
  }

  /** The ids of the children from position `i` on include those of each such child. */
  lemma {:induction false} AllIdsFromChild(t: Tree, i: nat, k: nat)
    requires t.Node? && i <= k < |t.children|
    ensures AllIds(t.children[k]) <= AllIdsFrom(t, i)
    decreases k - i
  {
    if i < k {
      AllIdsFromChild(t, i + 1, k);
    }
  }

  /** An id among the children from position `i` on is the id of an item of one of them. */
  lemma {:induction false} AllIdsFromMember(t: Tree, i: nat, y: int) returns (k: nat)
    requires y in AllIdsFrom(t, i)
    decreases if t.Node? then |t.children| - i else 0
    ensures t.Node? && i <= k < |t.children| && y in AllIds(t.children[k])
  {
    if y in AllIds(t.children[i]) {
      k := i;
    } else {
      k := AllIdsFromMember(t, i + 1, y);
    }
  }

  /** `EveryId` holds exactly of the sets that contain every id of the tree. */
  lemma {:induction false} EveryIdAll(t: Tree, s: set<int>)
    ensures EveryId(t, s) <==> AllIds(t) <= s
  {
    if t.Node? {
      forall k | 0 <= k < |t.children| ensures EveryId(t.children[k], s) <==> AllIds(t.children[k]) <= s {
        EveryIdAll(t.children[k], s);
      }
      if EveryId(t, s) {
        forall y | y in AllIdsFrom(t, 0) ensures y in s {
          var k := AllIdsFromMember(t, 0, y);
        }
      }
      if AllIds(t) <= s {
        forall k | 0 <= k < |t.children| ensures AllIds(t.children[k]) <= s {
          AllIdsFromChild(t, 0, k);
        }
      }
    }
  }

  /** No group's id reappears below it. */
  predicate AncestorIdsDistinct(t: Tree) {
    t.Node? ==>
      forall k :: 0 <= k < |t.children| ==> t.id !in AllIds(t.children[k]) && AncestorIdsDistinct(t.children[k])
  }

  /** No id occurs twice in `t`: not below its own item, and not in two sibling subtrees. */
  predicate UniqueIds(t: Tree) {
    t.Node? ==>
      t.id !in AllIdsFrom(t, 0) &&
      (forall i, j :: 0 <= i < j < |t.children| ==> AllIds(t.children[i]) !! AllIds(t.children[j])) &&
      (forall k :: 0 <= k < |t.children| ==> UniqueIds(t.children[k]))
  }

  lemma {:induction false} UniqueIdsAncestors(t: Tree)
    requires UniqueIds(t)
    ensures AncestorIdsDistinct(t)
  {
    if t.Node? {
      forall k | 0 <= k < |t.children|
        ensures t.id !in AllIds(t.children[k]) && AncestorIdsDistinct(t.children[k])
      {
        AllIdsFromChild(t, 0, k);
        UniqueIdsAncestors(t.children[k]);
      }
    }
  }

  /** The item of `t` whose id is `id`, the first in document order. */
  function SubtreeOf(t: Tree, id: int): Option<Tree>
    decreases t, 1, 0
  {
    if t.id == id then Some(t) else if t.Leaf? then None else SubtreeOfFrom(t, 0, id)
  }

  function SubtreeOfFrom(t: Tree, i: nat, id: int): Option<Tree>
    decreases t, 0, if t.Node? then |t.children| - i else 0
  {
    if t.Leaf? || i >= |t.children| then None
    else
      var s := SubtreeOf(t.children[i], id);
      if s.Some? then s else SubtreeOfFrom(t, i + 1, id)
  }

  /**
   * The ids of the groups that enclose the item `id` of `t`, innermost first and `t`'s own
   * last; empty for `t` itself, and `None` when no item of `t` has that id.
   */
  function Ancestry(t: Tree, id: int): (r: Option<seq<int>>)
    decreases t, 1, 0
    ensures r.Some? && id != t.id ==> |r.value| > 0 && r.value[|r.value| - 1] == t.id
  {
    if t.id == id then Some([]) else if t.Leaf? then None else AncestryFrom(t, 0, id)
  }

  function AncestryFrom(t: Tree, i: nat, id: int): (r: Option<seq<int>>)
    decreases t, 0, if t.Node? then |t.children| - i else 0
    ensures r.Some? ==> |r.value| > 0 && r.value[|r.value| - 1] == t.id
  {
    if t.Leaf? || i >= |t.children| then None
    else
      var a := Ancestry(t.children[i], id);
      if a.Some? then Some(a.value + [t.id]) else AncestryFrom(t, i + 1, id)
  }

  /** An item is found, and has a list of enclosing groups, exactly when its id occurs in the tree. */
  lemma {:induction false} Located(t: Tree, id: int)
    decreases t, 1, 0
    ensures Ancestry(t, id).Some? <==> id in AllIds(t)
    ensures SubtreeOf(t, id).Some? <==> id in AllIds(t)
    ensures SubtreeOf(t, id).Some? ==> SubtreeOf(t, id).value.id == id
  {
    if t.id != id && t.Node? {
      LocatedFrom(t, 0, id);
    }
  }

  lemma {:induction false} LocatedFrom(t: Tree, i: nat, id: int)
    requires t.Node?
    decreases t, 0, |t.children| - i
    ensures AncestryFrom(t, i, id).Some? <==> id in AllIdsFrom(t, i)
    ensures SubtreeOfFrom(t, i, id).Some? <==> id in AllIdsFrom(t, i)
    ensures SubtreeOfFrom(t, i, id).Some? ==> SubtreeOfFrom(t, i, id).value.id == id
  {
    if i < |t.children| {
      Located(t.children[i], id);
      LocatedFrom(t, i + 1, id);
    }
  }

  /** Searching the children from `i` on lands in child `m` when `id` is in no child before it. */
  lemma {:induction false} AncestryFromAt(t: Tree, i: nat, m: nat, id: int)
    requires t.Node? && i <= m < |t.children| && id in AllIds(t.children[m])
    requires forall j :: i <= j < m ==> id !in AllIds(t.children[j])
    decreases m - i
    ensures Ancestry(t.children[m], id).Some?
    ensures AncestryFrom(t, i, id) == Some(Ancestry(t.children[m], id).value + [t.id])
    ensures SubtreeOfFrom(t, i, id) == SubtreeOf(t.children[m], id)
  {
    Located(t.children[i], id);
    if i < m {
      AncestryFromAt(t, i + 1, m, id);
    }
  }

  /**
   * With unique ids the enclosing groups chain up: the innermost group `a[0]` of `id` is an item of
   * `t` whose own enclosing groups are the rest of the list.
   */
  lemma {:induction false} AncestryStep(t: Tree, id: int)
    requires UniqueIds(t) && id in AllIds(t) && id != t.id
    decreases t, 1, 0
    ensures Ancestry(t, id).Some?
    ensures var a := Ancestry(t, id).value; a[0] in AllIds(t) && Ancestry(t, a[0]) == Some(a[1..])
  {
    AncestryStepFrom(t, 0, id);
  }

  lemma {:induction false} AncestryStepFrom(t: Tree, i: nat, id: int)
    requires t.Node? && UniqueIds(t) && id in AllIdsFrom(t, i)
    decreases t, 0, |t.children| - i
    ensures AncestryFrom(t, i, id).Some?
    ensures var a := AncestryFrom(t, i, id).value; a[0] in AllIds(t) && Ancestry(t, a[0]) == Some(a[1..])
  {
    var c := t.children[i];
    Located(c, id);
    if id in AllIds(c) {
      var b := Ancestry(c, id).value;
      var a := b + [t.id];
      assert AncestryFrom(t, i, id) == Some(a);
      if id != c.id {
        AncestryStep(c, id);
        var q := b[0];
        AllIdsFromChild(t, 0, i);
        assert q != t.id;
        forall j | 0 <= j < i ensures q !in AllIds(t.children[j]) {
          assert AllIds(t.children[j]) !! AllIds(c);
        }
        AncestryFromAt(t, 0, i, q);
        assert Ancestry(t, q) == AncestryFrom(t, 0, q);
        assert a[0] == q && a[1..] == b[1..] + [t.id];
      } else {
        assert b == [] && a[1..] == [];
        assert Ancestry(t, t.id) == Some([]);
      }
    } else {
      LocatedFrom(t, i + 1, id);
      AncestryStepFrom(t, i + 1, id);
    }
  }

  /** A subtree of a tree with unique ids has unique ids, and a subtree whose ancestors' ids differ
    * from their descendants' does too. */
  lemma {:induction false} SubtreeOfInherits(t: Tree, id: int)
    requires SubtreeOf(t, id).Some?
    decreases t, 1, 0
    ensures UniqueIds(t) ==> UniqueIds(SubtreeOf(t, id).value)
    ensures AncestorIdsDistinct(t) ==> AncestorIdsDistinct(SubtreeOf(t, id).value)
  {
    if t.id != id {
      SubtreeOfFromInherits(t, 0, id);
    }
  }

  lemma {:induction false} SubtreeOfFromInherits(t: Tree, i: nat, id: int)
    requires t.Node? && SubtreeOfFrom(t, i, id).Some?
    decreases t, 0, |t.children| - i
    ensures UniqueIds(t) ==> UniqueIds(SubtreeOfFrom(t, i, id).value)
    ensures AncestorIdsDistinct(t) ==> AncestorIdsDistinct(SubtreeOfFrom(t, i, id).value)
  {
    if SubtreeOf(t.children[i], id).Some? {
      SubtreeOfInherits(t.children[i], id);
    } else {
      SubtreeOfFromInherits(t, i + 1, id);
    }
  }

  /** The registration types the control dispatches on. */
  datatype LayerType = EsriDynamic | EsriFeature | LeafletLayer | OtherType

  /** The failure an activation mutator raises. */
  datatype ActivationError = NotImplemented
}
