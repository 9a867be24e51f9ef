/**
 * The rendered state of one registration's tree: the checkboxes the renderer creates, in document
 * order, each with the id of its item, the parent id it was seeded with, whether it sits in a leaf
 * header, its depth, and whether it is checked. The layer manager reads and writes only this state.
 */
module TreeLeafUI {
  import opened Wrappers
  import opened LayerTree

  /** One rendered checkbox; its header carries `data-id = itemId`, and leaf headers are `.leaf-header`. */
  datatype CheckBox = CheckBox(itemId: int, parentId: Option<int>, isLeaf: bool, level: nat, checked: bool)

  /** `checkbox.parentId`: a `-1` parent (a top-level sub-layer) becomes the registration's own id. */
  function CheckBoxParent(mainId: int, parentId: Option<int>): Option<int>
  {
    if parentId != Some(-1) then parentId else Some(mainId)
  }

  /** The checkbox `addCheckBox` creates for `t` at `level`; it starts checked exactly when the item is enabled. */
  function Seed(mainId: int, t: Tree, level: nat): CheckBox
  {
    CheckBox(t.id, CheckBoxParent(mainId, t.parentId), t.Leaf?, level, t.enabled)
  }

  /** The checkboxes `navigateTree` renders for `t` at `level`, in document order. */
  function Render(mainId: int, t: Tree, level: nat): (rs: seq<CheckBox>)
    ensures |rs| >= 1 && rs[0] == Seed(mainId, t, level)
    ensures forall k :: 1 <= k < |rs| ==> rs[k].level > level
    decreases t, 1, 0
  {
    if t.Leaf? then [Seed(mainId, t, level)] else [Seed(mainId, t, level)] + RenderFrom(mainId, t, 0, level + 1)
  }

  /** The checkboxes of the children of `t` from position `i` on, each rendered at `level`. */
  function RenderFrom(mainId: int, t: Tree, i: nat, level: nat): (rs: seq<CheckBox>)
    ensures forall k :: 0 <= k < |rs| ==> rs[k].level >= level
    decreases t, 0, if t.Node? then |t.children| - i else 0
  {
    if t.Leaf? || i >= |t.children| then [] else Render(mainId, t.children[i], level) + RenderFrom(mainId, t, i + 1, level)
  }

  /** `navigateTree`: the node's own checkbox, then each child's, in a loop over the children. */
  method Navigate(mainId: int, t: Tree, level: nat) returns (rs: seq<CheckBox>)
    ensures rs == Render(mainId, t, level)
    decreases t
  {
    rs := [Seed(mainId, t, level)];
    if t.Node? {
      var i := 0;
      while i < |t.children|
        invariant 0 <= i <= |t.children|
        invariant Render(mainId, t, level) == rs + RenderFrom(mainId, t, i, level + 1)
      {
        var sub := Navigate(mainId, t.children[i], level + 1);
        assert RenderFrom(mainId, t, i, level + 1) == sub + RenderFrom(mainId, t, i + 1, level + 1);
        rs := rs + sub;
        i := i + 1;
      }
      assert RenderFrom(mainId, t, i, level + 1) == [];
      assert rs + [] == rs;
    }
  }

  // ---------------------------------------------------------------------------------------
  // Leaves in document order

  /** The ids of the checked leaf checkboxes among `rs`, in document order. */
  function CheckedLeaves(rs: seq<CheckBox>): seq<int>
    decreases |rs|
  {
    if rs == [] then []
    else CheckedLeaves(rs[..|rs| - 1]) + (var b := rs[|rs| - 1]; if b.isLeaf && b.checked then [b.itemId] else [])
  }

  lemma {:induction false} CheckedLeavesAppend(a: seq<CheckBox>, b: seq<CheckBox>)
    ensures CheckedLeaves(a + b) == CheckedLeaves(a) + CheckedLeaves(b)
    decreases |b|
  {
    if b == [] {
      assert a + b == a;
    } else {
      var n := |b| - 1;
      CheckedLeavesAppend(a, b[..n]);
      assert (a + b)[..|a + b| - 1] == a + b[..n];
      assert (a + b)[|a + b| - 1] == b[n];
    }
  }

  /** The ids of the enabled leaves of `t`, in document order. */
  function EnabledLeaves(t: Tree): seq<int>
    decreases t, 1, 0
  {
    if t.Leaf? then (if t.enabled then [t.id] else []) else EnabledLeavesFrom(t, 0)
  }

  function EnabledLeavesFrom(t: Tree, i: nat): seq<int>
    decreases t, 0, if t.Node? then |t.children| - i else 0
  {
    if t.Leaf? || i >= |t.children| then [] else EnabledLeaves(t.children[i]) + EnabledLeavesFrom(t, i + 1)
  }

  /** The checked leaf checkboxes of a rendered tree are the tree's enabled leaves, in order. */
  lemma {:induction false} RenderCheckedLeaves(mainId: int, t: Tree, level: nat)
    ensures CheckedLeaves(Render(mainId, t, level)) == EnabledLeaves(t)
    decreases t, 1, 0
  {
    var head := [Seed(mainId, t, level)];
    assert CheckedLeaves(head) == if t.Leaf? && t.enabled then [t.id] else [] by {
      assert head[..0] == [];
    }
    if t.Node? {
      CheckedLeavesAppend(head, RenderFrom(mainId, t, 0, level + 1));
      RenderFromCheckedLeaves(mainId, t, 0, level + 1);
    }
  }

  lemma {:induction false} RenderFromCheckedLeaves(mainId: int, t: Tree, i: nat, level: nat)
    ensures CheckedLeaves(RenderFrom(mainId, t, i, level)) == EnabledLeavesFrom(t, i)
    decreases t, 0, if t.Node? then |t.children| - i else 0
  {
    if t.Node? && i < |t.children| {
      RenderCheckedLeaves(mainId, t.children[i], level);
      RenderFromCheckedLeaves(mainId, t, i + 1, level);
      CheckedLeavesAppend(Render(mainId, t.children[i], level), RenderFrom(mainId, t, i + 1, level));
    }
  }

  // ---------------------------------------------------------------------------------------
  // The document queries

  /** `querySelectorAll('[data-id="' + id + '"]')[0]` inside the registration's children container:
    * the first checkbox after the registration's own with that item id. */
  function Find(rs: seq<CheckBox>, id: int): (r: Option<nat>)
    ensures r.Some? ==> 1 <= r.value < |rs| && rs[r.value].itemId == id &&
                        forall j :: 1 <= j < r.value ==> rs[j].itemId != id
    ensures r.None? ==> forall j :: 1 <= j < |rs| ==> rs[j].itemId != id
  {
    FindFrom(rs, id, 1)
  }

  function FindFrom(rs: seq<CheckBox>, id: int, i: nat): (r: Option<nat>)
    requires i >= 1
    ensures r.Some? ==> i <= r.value < |rs| && rs[r.value].itemId == id &&
                        forall j :: i <= j < r.value ==> rs[j].itemId != id
    ensures r.None? ==> forall j :: i <= j < |rs| ==> rs[j].itemId != id
    decreases |rs| - i
  {
    if i >= |rs| then None else if rs[i].itemId == id then Some(i) else FindFrom(rs, id, i + 1)
  }

  /** The end of the children container that follows checkbox `k`: its descendants are the
    * contiguous run of deeper checkboxes after it. */
  function SubtreeEnd(rs: seq<CheckBox>, k: nat): (e: nat)
    requires k < |rs|
    ensures k < e <= |rs|
    ensures forall j :: k < j < e ==> rs[j].level > rs[k].level
    ensures e < |rs| ==> rs[e].level <= rs[k].level
  {
    SubtreeEndFrom(rs, k, k + 1)
  }

  function SubtreeEndFrom(rs: seq<CheckBox>, k: nat, i: nat): (e: nat)
    requires k < i <= |rs|
    requires forall j :: k < j < i ==> rs[j].level > rs[k].level
    ensures i <= e <= |rs|
    ensures forall j :: k < j < e ==> rs[j].level > rs[k].level
    ensures e < |rs| ==> rs[e].level <= rs[k].level
    decreases |rs| - i
  {
    if i == |rs| || rs[i].level <= rs[k].level then i else SubtreeEndFrom(rs, k, i + 1)
  }

  /** In a rendered tree, the children container of the registration's own checkbox holds all the others. */
  lemma RenderSubtreeEnd(mainId: int, t: Tree, level: nat)
    ensures SubtreeEnd(Render(mainId, t, level), 0) == |Render(mainId, t, level)|
  {
  }

  /** A block that starts at `|a|` with a row of level `l`, holds only deeper rows after it and is
    * followed by a row no deeper than `l`: its children container ends where the block does. */
  lemma SubtreeEndAt(a: seq<CheckBox>, r: seq<CheckBox>, b: seq<CheckBox>)
    requires |r| >= 1 && forall k :: 1 <= k < |r| ==> r[k].level > r[0].level
    requires b != [] ==> b[0].level <= r[0].level
    ensures SubtreeEnd(a + r + b, |a|) == |a| + |r|
  {
    var rs := a + r + b;
    assert forall k :: 0 <= k < |r| ==> rs[|a| + k] == r[k];
    assert b != [] ==> rs[|a| + |r|] == b[0];
  }

  // ---------------------------------------------------------------------------------------
  // Rendered trees whose ids are unique

  /** Each checkbox below `t` is seeded with its group's id as `parentId`. */
  predicate Linked(mainId: int, t: Tree) {
    t.Node? ==>
      forall k :: 0 <= k < |t.children| ==>
        CheckBoxParent(mainId, t.children[k].parentId) == Some(t.id) && Linked(mainId, t.children[k])
  }

  /** An item of a linked tree is linked. */
  lemma {:induction false} SubtreeOfLinked(mainId: int, t: Tree, id: int)
    requires SubtreeOf(t, id).Some? && Linked(mainId, t)
    decreases t, 1, 0
    ensures Linked(mainId, SubtreeOf(t, id).value)
  {
    if t.id != id {
      SubtreeOfFromLinked(mainId, t, 0, id);
    }
  }

  lemma {:induction false} SubtreeOfFromLinked(mainId: int, t: Tree, i: nat, id: int)
    requires t.Node? && SubtreeOfFrom(t, i, id).Some? && Linked(mainId, t)
    decreases t, 0, |t.children| - i
    ensures Linked(mainId, SubtreeOfFrom(t, i, id).value)
  {
    if SubtreeOf(t.children[i], id).Some? {
      SubtreeOfLinked(mainId, t.children[i], id);
    } else {
      SubtreeOfFromLinked(mainId, t, i + 1, id);
    }
  }

  /** No two checkboxes carry the same item id. */
  predicate DistinctIds(rs: seq<CheckBox>) {
    forall i, j :: 0 <= i < j < |rs| ==> rs[i].itemId != rs[j].itemId
  }

  /** Every rendered checkbox belongs to an item of the tree. */
  lemma {:induction false} RenderIdsIn(mainId: int, t: Tree, level: nat)
    decreases t, 1, 0
    ensures forall b :: b in Render(mainId, t, level) ==> b.itemId in AllIds(t)
  {
    if t.Node? {
      RenderFromIdsIn(mainId, t, 0, level + 1);
    }
  }

  lemma {:induction false} RenderFromIdsIn(mainId: int, t: Tree, i: nat, level: nat)
    decreases t, 0, if t.Node? then |t.children| - i else 0
    ensures forall b :: b in RenderFrom(mainId, t, i, level) ==> b.itemId in AllIdsFrom(t, i)
  {
    if t.Node? && i < |t.children| {
      RenderIdsIn(mainId, t.children[i], level);
      RenderFromIdsIn(mainId, t, i + 1, level);
    }
  }

  /** The children of `c` below position `i` share no id with the children from `j` on. */
  lemma {:induction false} LaterSiblingsDisjoint(t: Tree, i: nat, j: nat)
    requires t.Node? && UniqueIds(t) && i < j
    decreases |t.children| - j
    ensures i < |t.children| ==> AllIds(t.children[i]) !! AllIdsFrom(t, j)
  {
    if j < |t.children| {
      LaterSiblingsDisjoint(t, i, j + 1);
    }
  }

  lemma DistinctAppend(a: seq<CheckBox>, b: seq<CheckBox>)
    requires DistinctIds(a) && DistinctIds(b)
    requires forall x, y :: x in a && y in b ==> x.itemId != y.itemId
    ensures DistinctIds(a + b)
  {
    forall i, j | 0 <= i < j < |a + b| ensures (a + b)[i].itemId != (a + b)[j].itemId {
      if i < |a| && j >= |a| {
        assert (a + b)[i] in a && (a + b)[j] in b;
      }
    }
  }

  /** With unique ids in the tree, the rendered checkboxes carry distinct ids. */
  lemma {:induction false} RenderDistinct(mainId: int, t: Tree, level: nat)
    requires UniqueIds(t)
    decreases t, 1, 0
    ensures DistinctIds(Render(mainId, t, level))
  {
    if t.Node? {
      RenderFromDistinct(mainId, t, 0, level + 1);
      RenderFromIdsIn(mainId, t, 0, level + 1);
      DistinctAppend([Seed(mainId, t, level)], RenderFrom(mainId, t, 0, level + 1));
    }
  }

  lemma {:induction false} RenderFromDistinct(mainId: int, t: Tree, i: nat, level: nat)
    requires t.Node? && UniqueIds(t)
    decreases t, 0, |t.children| - i
    ensures DistinctIds(RenderFrom(mainId, t, i, level))
  {
    if i < |t.children| {
      RenderDistinct(mainId, t.children[i], level);
      RenderFromDistinct(mainId, t, i + 1, level);
      RenderIdsIn(mainId, t.children[i], level);
      RenderFromIdsIn(mainId, t, i + 1, level);
      LaterSiblingsDisjoint(t, i, i + 1);
      DistinctAppend(Render(mainId, t.children[i], level), RenderFrom(mainId, t, i + 1, level));
    }
  }

  /**
   * Every item below the root of a linked tree has a checkbox, seeded with the id of the
   * innermost group that encloses the item.
   */
  lemma {:induction false} RowOf(mainId: int, t: Tree, level: nat, id: int)
    requires Linked(mainId, t) && id in AllIds(t) && id != t.id
    decreases t, 1, 0
    ensures Ancestry(t, id).Some?
    ensures exists b :: b in Render(mainId, t, level) && b.itemId == id && b.parentId == Some(Ancestry(t, id).value[0])
  {
    Located(t, id);
    RowOfFrom(mainId, t, 0, level + 1, id);
    var b :| b in RenderFrom(mainId, t, 0, level + 1) && b.itemId == id &&
             b.parentId == Some(AncestryFrom(t, 0, id).value[0]);
    assert b in Render(mainId, t, level);
  }

  lemma {:induction false} RowOfFrom(mainId: int, t: Tree, i: nat, level: nat, id: int)
    requires t.Node? && Linked(mainId, t) && id in AllIdsFrom(t, i)
    decreases t, 0, |t.children| - i
    ensures AncestryFrom(t, i, id).Some?
    ensures exists b :: b in RenderFrom(mainId, t, i, level) && b.itemId == id &&
                        b.parentId == Some(AncestryFrom(t, i, id).value[0])
  {
    var c := t.children[i];
    Located(c, id);
    LocatedFrom(t, i, id);
    if id in AllIds(c) {
      var b;
      if id == c.id {
        b := Seed(mainId, c, level);
        assert Render(mainId, c, level)[0] == b;
      } else {
        RowOf(mainId, c, level, id);
        b :| b in Render(mainId, c, level) && b.itemId == id && b.parentId == Some(Ancestry(c, id).value[0]);
      }
      assert b in RenderFrom(mainId, t, i, level);
    } else {
      RowOfFrom(mainId, t, i + 1, level, id);
      var b :| b in RenderFrom(mainId, t, i + 1, level) && b.itemId == id &&
               b.parentId == Some(AncestryFrom(t, i + 1, id).value[0]);
      assert b in RenderFrom(mainId, t, i, level);
    }
  }

  /** With distinct ids, the lookup of a checkbox's id below the first finds that checkbox. */
  lemma FindRow(rs: seq<CheckBox>, b: CheckBox)
    requires DistinctIds(rs) && b in rs && b.itemId != rs[0].itemId
    ensures Find(rs, b.itemId).Some? && rs[Find(rs, b.itemId).value] == b
  {
    var k :| 0 <= k < |rs| && rs[k] == b;
  }

  /** An item has fewer enclosing groups than its tree has checkboxes. */
  lemma {:induction false} AncestryShorter(mainId: int, t: Tree, level: nat, id: int)
    requires Ancestry(t, id).Some?
    decreases t, 1, 0
    ensures |Ancestry(t, id).value| < |Render(mainId, t, level)|
  {
    if t.id != id {
      AncestryFromShorter(mainId, t, 0, level + 1, id);
    }
  }

  lemma {:induction false} AncestryFromShorter(mainId: int, t: Tree, i: nat, level: nat, id: int)
    requires t.Node? && AncestryFrom(t, i, id).Some?
    decreases t, 0, |t.children| - i
    ensures |AncestryFrom(t, i, id).value| <= |RenderFrom(mainId, t, i, level)|
  {
    if Ancestry(t.children[i], id).Some? {
      AncestryShorter(mainId, t.children[i], level, id);
    } else {
      AncestryFromShorter(mainId, t, i + 1, level, id);
    }
  }

  /**
   * The checkboxes of an item form one contiguous block of its tree's rendering, at a depth no
   * smaller than the tree's, followed by nothing deeper.
   */
  lemma {:induction false} SubBlock(mainId: int, t: Tree, level: nat, id: int)
      returns (a: seq<CheckBox>, b: seq<CheckBox>, l: nat)
    requires SubtreeOf(t, id).Some?
    decreases t, 1, 0
    ensures Render(mainId, t, level) == a + Render(mainId, SubtreeOf(t, id).value, l) + b
    ensures l >= level && (b != [] ==> b[0].level <= l)
  {
    if t.id == id {
      a, b, l := [], [], level;
    } else {
      var a', b', l' := SubBlockFrom(mainId, t, 0, level + 1, id);
      a, b, l := [Seed(mainId, t, level)] + a', b', l';
    }
  }

  lemma {:induction false} SubBlockFrom(mainId: int, t: Tree, i: nat, level: nat, id: int)
      returns (a: seq<CheckBox>, b: seq<CheckBox>, l: nat)
    requires t.Node? && SubtreeOfFrom(t, i, id).Some?
    decreases t, 0, |t.children| - i
    ensures RenderFrom(mainId, t, i, level) == a + Render(mainId, SubtreeOfFrom(t, i, id).value, l) + b
    ensures l >= level && (b != [] ==> b[0].level <= l)
  {
    var c := t.children[i];
    var rc := Render(mainId, c, level);
    var rest := RenderFrom(mainId, t, i + 1, level);
    assert RenderFrom(mainId, t, i, level) == rc + rest;
    if SubtreeOf(c, id).Some? {
      var a', b', l' := SubBlock(mainId, c, level, id);
      var r := Render(mainId, SubtreeOf(c, id).value, l');
      assert rc + rest == a' + r + (b' + rest);
      a, b, l := a', b' + rest, l';
      assert b' != [] ==> b[0] == b'[0];
      assert b' == [] && rest != [] ==> b[0] == rest[0] && rest[0].level >= level;
    } else {
      var a', b', l' := SubBlockFrom(mainId, t, i + 1, level, id);
      var r := Render(mainId, SubtreeOfFrom(t, i + 1, id).value, l');
      assert rc + rest == (rc + a') + r + b';
      a, b, l := rc + a', b', l';
    }
  }

  /** In a rendered tree with unique ids, the lookup of an item below the root lands on its
    * checkbox, which carries the id of the item's innermost enclosing group. */
  lemma FoundRow(mainId: int, t: Tree, level: nat, id: int)
    requires Linked(mainId, t) && UniqueIds(t) && id in AllIds(t) && id != t.id
    ensures Ancestry(t, id).Some?
    ensures var rs := Render(mainId, t, level);
            Find(rs, id).Some? && rs[Find(rs, id).value].parentId == Some(Ancestry(t, id).value[0])
  {
    var rs := Render(mainId, t, level);
    RenderDistinct(mainId, t, level);
    RowOf(mainId, t, level, id);
    var b :| b in rs && b.itemId == id && b.parentId == Some(Ancestry(t, id).value[0]);
    FindRow(rs, b);
  }

  /** In a rendered tree with unique ids, the lookup of an item below the root lands on the first
    * checkbox of its block, and that checkbox's children container ends with the block. */
  lemma FoundBlock(mainId: int, t: Tree, level: nat, id: int) returns (l: nat)
    requires UniqueIds(t) && id != t.id && SubtreeOf(t, id).Some?
    ensures var rs := Render(mainId, t, level);
            Find(rs, id).Some? &&
            rs[Find(rs, id).value..SubtreeEnd(rs, Find(rs, id).value)] == Render(mainId, SubtreeOf(t, id).value, l)
  {
    var rs := Render(mainId, t, level);
    Located(t, id);
    var a, b, l' := SubBlock(mainId, t, level, id);
    l := l';
    var r := Render(mainId, SubtreeOf(t, id).value, l);
    assert rs[|a|] == r[0];
    RenderDistinct(mainId, t, level);
    FindRow(rs, r[0]);
    var k := Find(rs, id).value;
    assert rs[k].itemId == rs[|a|].itemId;
    SubtreeEndAt(a, r, b);
    assert rs[|a|..|a| + |r|] == r;
  }

  // ---------------------------------------------------------------------------------------
  // The rendered document

  /** Ignoring check states: what the document queries depend on. */
  function Skeleton(rs: seq<CheckBox>): seq<CheckBox>
  {
    seq(|rs|, k requires 0 <= k < |rs| => rs[k].(checked := false))
  }

  /** The checkboxes of one rendered registration, the first of them its own. */
  class CheckBoxes {
    const rows: array<CheckBox>

    /** `render`: the registration's id is the tree's id, and the tree starts at depth 1. */
    constructor (tree: Tree)
      ensures fresh(rows) && rows[..] == Render(tree.id, tree, 1)
    {
      var rs := Navigate(tree.id, tree, 1);
      rows := new CheckBox[|rs|](k requires 0 <= k < |rs| => rs[k]);
    }
  }
}
