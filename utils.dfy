/** The `utils` helpers: de-duplicating append and array-to-dictionary conversion. */
module Utils {

  /** The elements of `s`, as a set. */
  function Elems(s: seq<int>): set<int> {
    set x | x in s
  }

  /** `s` with every element of `xs` filtered out, the rest in their order. */
  function Without(s: seq<int>, xs: set<int>): seq<int> {
    if s == [] then [] else (if s[0] in xs then [] else [s[0]]) + Without(s[1..], xs)
  }

  /** Filtering keeps exactly the copies of the elements outside `xs`. */
  lemma {:induction false} WithoutCounts(s: seq<int>, xs: set<int>)
    ensures forall x :: multiset(Without(s, xs))[x] == if x in xs then 0 else multiset(s)[x]
    ensures forall x :: x in Without(s, xs) <==> x in s && x !in xs
  {
    if s != [] {
      WithoutCounts(s[1..], xs);
      assert s == [s[0]] + s[1..];
    }
  }

  lemma {:induction false} WithoutAppend(a: seq<int>, b: seq<int>, xs: set<int>)
    ensures Without(a + b, xs) == Without(a, xs) + Without(b, xs)
  {
    if a == [] {
      assert a + b == b;
    } else {
      assert (a + b)[0] == a[0];
      assert (a + b)[1..] == a[1..] + b;
      WithoutAppend(a[1..], b, xs);
    }
  }

  lemma {:induction false} WithoutWithout(s: seq<int>, xs: set<int>, ys: set<int>)
    ensures Without(Without(s, xs), ys) == Without(s, xs + ys)
  {
    if s != [] {
      WithoutWithout(s[1..], xs, ys);
      WithoutAppend(if s[0] in xs then [] else [s[0]], Without(s[1..], xs), ys);
    }
  }

  lemma {:induction false} WithoutNothing(s: seq<int>, xs: set<int>)
    requires forall i :: 0 <= i < |s| ==> s[i] !in xs
    ensures Without(s, xs) == s
  {
    if s != [] {
      WithoutNothing(s[1..], xs);
      assert s == [s[0]] + s[1..];
    }
  }

  /** `s` keeping only the last occurrence of each element. */
  function KeepLast(s: seq<int>): seq<int> {
    if s == [] then [] else (if s[0] in s[1..] then [] else [s[0]]) + KeepLast(s[1..])
  }

  /** Every element of `s` occurs exactly once in `KeepLast(s)`, and nothing else does. */
  lemma {:induction false} KeepLastCounts(s: seq<int>)
    ensures forall x :: multiset(KeepLast(s))[x] == if x in s then 1 else 0
  {
    if s != [] {
      KeepLastCounts(s[1..]);
      assert s == [s[0]] + s[1..];
    }
  }

  lemma {:induction false} KeepLastSnoc(s: seq<int>, y: int)
    ensures KeepLast(s + [y]) == Without(KeepLast(s), {y}) + [y]
  {
    if s == [] {
      assert [] + [y] == [y];
    } else {
      var t := s[1..];
      assert (s + [y])[1..] == t + [y];
      assert s[0] in t + [y] <==> s[0] in t || s[0] == y;
      KeepLastSnoc(t, y);
      WithoutAppend(if s[0] in t then [] else [s[0]], KeepLast(t), {y});
    }
  }

  /** A sequence without repeated elements keeps all of them. */
  lemma {:induction false} KeepLastOfDistinct(s: seq<int>)
    requires forall i, j :: 0 <= i < j < |s| ==> s[i] != s[j]
    ensures KeepLast(s) == s
  {
    if s != [] {
      assert s[0] !in s[1..];
      KeepLastOfDistinct(s[1..]);
    }
  }

  /**
   * What `addIfNotExists(current, items)` returns: every earlier copy of each item is
   * dropped and the items are appended, each once, at its last position in `items`.
   */
  function AddedIfNotExists(current: seq<int>, items: seq<int>): seq<int> {
    Without(current, Elems(items)) + KeepLast(items)
  }

  /** Adding one more item filters it out of what was added so far and appends it. */
  lemma AddedSnoc(current: seq<int>, items: seq<int>, y: int)
    ensures AddedIfNotExists(current, items + [y]) == Without(AddedIfNotExists(current, items), {y}) + [y]
  {
    WithoutAppend(Without(current, Elems(items)), KeepLast(items), {y});
    WithoutWithout(current, Elems(items), {y});
    assert Elems(items + [y]) == Elems(items) + {y};
    KeepLastSnoc(items, y);
  }

  /** `utils.addIfNotExists`: for each item, filter it out of the array and append it. */
  method AddIfNotExists(current: seq<int>, items: seq<int>) returns (r: seq<int>)
    ensures r == AddedIfNotExists(current, items)
  {
    WithoutNothing(current, {});
    assert Elems(items[..0]) == {};
    r := current;
    var i := 0;
    while i < |items|
      invariant 0 <= i <= |items|
      invariant r == AddedIfNotExists(current, items[..i])
    {
      var y := items[i];
      assert items[..i + 1] == items[..i] + [y];
      AddedSnoc(current, items[..i], y);
      r := Without(r, {y}) + [y];
      i := i + 1;
    }
    assert items[..i] == items;
  }

  /**
   * `utils.convertToKeyValue`: a dictionary from each value's key to the value; of
   * several values with one key the last one wins.
   */
  method ConvertToKeyValue<T>(values: seq<T>, keyOf: T -> int) returns (obj: map<int, T>)
    ensures forall k :: k in obj <==> exists i :: 0 <= i < |values| && keyOf(values[i]) == k
    ensures forall i :: 0 <= i < |values| && (forall j :: i < j < |values| ==> keyOf(values[j]) != keyOf(values[i]))
              ==> keyOf(values[i]) in obj && obj[keyOf(values[i])] == values[i]
  {
    obj := map[];
    var i := 0;
    while i < |values|
      invariant 0 <= i <= |values|
      invariant forall k :: k in obj <==> exists j :: 0 <= j < i && keyOf(values[j]) == k
      invariant forall j :: 0 <= j < i && (forall l :: j < l < i ==> keyOf(values[l]) != keyOf(values[j]))
                  ==> keyOf(values[j]) in obj && obj[keyOf(values[j])] == values[j]
    {
      obj := obj[keyOf(values[i]) := values[i]];
      i := i + 1;
    }
  }
}
