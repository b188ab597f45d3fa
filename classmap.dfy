/**
 * The class map saved at training time: a dict from class name to class
 * index.  The background class 'bg' is added when it is missing, with the
 * next free index, and the dict is then inverted into index -> name.
 */
module ClassMap {

  /** A Python dict keeps insertion order; its items are kept as a sequence of (name, index). */
  predicate DistinctNames(items: seq<(string, int)>)
  {
    forall i, j :: 0 <= i < j < |items| ==> items[i].0 != items[j].0
  }

  /** `name in class_mapping`. */
  predicate HasName(items: seq<(string, int)>, name: string)
  {
    exists i :: 0 <= i < |items| && items[i].0 == name
  }

  /** The name of the background class. */
  const Background: string := "bg"

  /**
   * The items after 'bg' is added, when it is missing, with the number of
   * items as its index: the old items come first, 'bg' is a name afterwards, and at
   * most one item is added.
   */
  function WithBackground(items: seq<(string, int)>): (w: seq<(string, int)>)
    ensures items <= w && |w| <= |items| + 1 && HasName(w, Background)
    ensures HasName(items, Background) ==> w == items
    ensures !HasName(items, Background) ==> w[|items|] == (Background, |items|)
  {
    if HasName(items, Background) then items
    else
      var w := items + [(Background, |items|)];
      assert w[|items|].0 == Background;
      w
  }

  /**
   * The dict inverted into index -> name: a later item wins over an earlier
   * one with the same index, and there are never more entries than items.
   */
  function Invert(items: seq<(string, int)>): (m: map<int, string>)
    ensures |m| <= |items|
    decreases |items|
  {
    if items == [] then map[]
    else Invert(items[..|items| - 1])[items[|items| - 1].1 := items[|items| - 1].0]
  }

  /** The set of the dict's values. */
  function Values(items: seq<(string, int)>): set<int>
  {
    set i | 0 <= i < |items| :: items[i].1
  }

  /** The inverted map's indices are exactly the dict's values. */
  lemma {:induction false} InvertKeys(items: seq<(string, int)>)
    ensures Invert(items).Keys == Values(items)
    decreases |items|
  {
    if items != [] {
      var init, last := items[..|items| - 1], items[|items| - 1];
      InvertKeys(init);
      assert items == init + [last];
      ValuesAppend(init, last);
    }
  }

  /** Appending an item adds its index to the dict's values. */
  lemma ValuesAppend(init: seq<(string, int)>, last: (string, int))
    ensures Values(init + [last]) == Values(init) + {last.1}
  {
    var items := init + [last];
    forall v | v in Values(items) ensures v in Values(init) + {last.1} {
      var i :| 0 <= i < |items| && items[i].1 == v;
      if i < |init| {
        assert init[i].1 == v;
      }
    }
    forall v | v in Values(init) ensures v in Values(items) {
      var i :| 0 <= i < |init| && init[i].1 == v;
      assert items[i].1 == v;
    }
    assert items[|init|].1 == last.1;
  }

  /** An index maps to the name of the last item holding it. */
  lemma {:induction false} InvertLookup(items: seq<(string, int)>, j: nat)
    requires j < |items|
    requires forall l :: j < l < |items| ==> items[l].1 != items[j].1
    ensures items[j].1 in Invert(items) && Invert(items)[items[j].1] == items[j].0
    decreases |items|
  {
    if j < |items| - 1 {
      var init := items[..|items| - 1];
      InvertLookup(init, j);
    }
  }

  /** Every entry of the inverted map comes from an item of the dict. */
  lemma {:induction false} InvertSource(items: seq<(string, int)>, v: int)
    requires v in Invert(items)
    ensures exists i :: 0 <= i < |items| && items[i] == (Invert(items)[v], v)
    decreases |items|
  {
    var n := |items|;
    if items[n - 1].1 != v {
      var init := items[..n - 1];
      InvertSource(init, v);
      var i :| 0 <= i < |init| && init[i] == (Invert(init)[v], v);
      assert items[i] == init[i];
    } else {
      assert items[n - 1] == (Invert(items)[v], v);
    }
  }

  /** With distinct names, distinct indices get distinct names. */
  lemma InvertInjective(items: seq<(string, int)>)
    requires DistinctNames(items)
    ensures forall u, v :: u in Invert(items) && v in Invert(items) && u != v ==> Invert(items)[u] != Invert(items)[v]
  {
    var inv := Invert(items);
    forall u, v | u in inv && v in inv && u != v
      ensures inv[u] != inv[v]
    {
      InvertSource(items, u);
      InvertSource(items, v);
      var i :| 0 <= i < |items| && items[i] == (inv[u], u);
      var j :| 0 <= j < |items| && items[j] == (inv[v], v);
      assert i != j;
    }
  }

  /** Adding the background keeps the names distinct and makes 'bg' a name. */
  lemma WithBackgroundNames(items: seq<(string, int)>)
    requires DistinctNames(items)
    ensures DistinctNames(WithBackground(items)) && HasName(WithBackground(items), Background)
    ensures HasName(items, Background) ==> WithBackground(items) == items
  {
    var w := WithBackground(items);
    if !HasName(items, Background) {
      assert w[|items|].0 == Background;
    }
  }

  /**
   * When 'bg' was missing, the inverted map sends the index `len(class_mapping)`
   * to 'bg', and every index that was already used keeps its name unless it
   * equals that index.
   */
  lemma BackgroundIndex(items: seq<(string, int)>)
    requires !HasName(items, Background)
    ensures var inv := Invert(WithBackground(items));
      |items| in inv && inv[|items|] == Background
      && forall v :: v in Invert(items) && v != |items| ==> v in inv && inv[v] == Invert(items)[v]
  {
    var w := WithBackground(items);
    InvertLookup(w, |items|);
    assert w[..|w| - 1] == items;
  }

  /**
   * When the saved indices are exactly `0 .. n - 1` and 'bg' is missing, the
   * background gets the last index `n` of the inverted map, and no other
   * index is called 'bg'.
   */
  lemma BackgroundIsLast(items: seq<(string, int)>)
    requires DistinctNames(items) && !HasName(items, Background)
    requires forall i :: 0 <= i < |items| ==> 0 <= items[i].1 < |items|
    ensures var inv := Invert(WithBackground(items));
      (forall v :: v in inv ==> 0 <= v <= |items|) && |items| in inv && inv[|items|] == Background
      && forall v :: 0 <= v < |items| && v in inv ==> inv[v] != Background
  {
    var w := WithBackground(items);
    InvertKeys(w);
    BackgroundIndex(items);
    WithBackgroundNames(items);
    InvertInjective(w);
    forall v | v in Values(w) ensures 0 <= v <= |items| {
      var i :| 0 <= i < |w| && w[i].1 == v;
      if i < |items| {
        assert w[i] == items[i];
      }
    }
  }

  /**
   * When the saved indices are exactly `0 .. n - 1`, the inverted map after
   * adding 'bg' has exactly the indices `0 .. n`.
   */
  lemma BackgroundKeys(items: seq<(string, int)>)
    requires !HasName(items, Background)
    requires forall v :: 0 <= v < |items| <==> v in Values(items)
    ensures forall v :: v in Invert(WithBackground(items)) <==> 0 <= v <= |items|
  {
    InvertKeys(WithBackground(items));
    BackgroundValues(items);
  }

  /** Adding 'bg' adds exactly the index `len(class_mapping)` to the dict's values. */
  lemma BackgroundValues(items: seq<(string, int)>)
    requires !HasName(items, Background)
    ensures Values(WithBackground(items)) == Values(items) + {|items|}
  {
    ValuesAppend(items, (Background, |items|));
  }

  /** The class map, mutated in place when 'bg' is added. */
  class ClassMapping {
    var items: seq<(string, int)>

    ghost predicate Valid()
      reads this
    {
      DistinctNames(items)
    }

    constructor (saved: seq<(string, int)>)
      requires DistinctNames(saved)
      ensures Valid() && items == saved
    {
      items := saved;
    }

    /** Adds 'bg' with the next index (the current number of items) when no item has that name. */
    method InsertBackground()
      requires Valid()
      modifies this
      ensures Valid() && items == WithBackground(old(items))
    {
      WithBackgroundNames(items);
      if !HasName(items, Background) {
        items := items + [(Background, |items|)];
      }
    }
  }
}
