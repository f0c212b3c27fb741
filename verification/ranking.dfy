/**
 * Ranking of prediction items: the items sorted by descending probability
 * with Python's stable sort.
 * Python's sort is stable also when reversed, so items of equal probability
 * keep the order they had before sorting. The sort is modelled as an
 * insertion sort and specified by sortedness, permutation and stability.
 */
module Ranking {

  /** One entry of the prediction list, `{"label": ..., "probability": ...}`: a class label and its probability. */
  datatype PredictionItem = PredictionItem(classLabel: string, probability: real)

  /** Probabilities never increase along `s`. */
  predicate SortedDesc(s: seq<PredictionItem>) {
    forall i, j :: 0 <= i < j < |s| ==> s[i].probability >= s[j].probability
  }

  /** The items of `s` whose probability is `v`, in their order in `s`. */
  function WithProbability(s: seq<PredictionItem>, v: real): seq<PredictionItem>
  {
    if s == [] then []
    else (if s[0].probability == v then [s[0]] else []) + WithProbability(s[1..], v)
  }

  /**
   * `r` is what a stable descending sort of `s` returns: a permutation of
   * `s`, sorted, in which every group of equal probability is in its order
   * in `s`.
   */
  ghost predicate IsStableDescSort(r: seq<PredictionItem>, s: seq<PredictionItem>) {
    && multiset(r) == multiset(s)
    && SortedDesc(r)
    && forall v :: WithProbability(r, v) == WithProbability(s, v)
  }

  /** Places `x` before the first item of `s` whose probability is at most its own. */
  function Insert(x: PredictionItem, s: seq<PredictionItem>): (r: seq<PredictionItem>)
    requires SortedDesc(s)
    ensures SortedDesc(r)
    ensures multiset(r) == multiset(s) + multiset{x}
    ensures |r| == |s| + 1 && (r[0] == x || (s != [] && r[0] == s[0]))
  {
    if s == [] || x.probability >= s[0].probability then [x] + s
    else
      var t := Insert(x, s[1..]);
      assert s == [s[0]] + s[1..];
      assert t[0].probability <= s[0].probability;
      [s[0]] + t
  }

  /** The stable descending sort: each item is inserted in front of its equals from later positions. */
  function SortDesc(s: seq<PredictionItem>): (r: seq<PredictionItem>)
    ensures SortedDesc(r)
    ensures multiset(r) == multiset(s)
    ensures |r| == |s|
  {
    if s == [] then []
    else
      assert s == [s[0]] + s[1..];
      Insert(s[0], SortDesc(s[1..]))
  }

  /** Inserting `x` adds it in front of its probability group and leaves other groups alone. */
  lemma {:induction false} InsertStable(x: PredictionItem, s: seq<PredictionItem>, v: real)
    requires SortedDesc(s)
    ensures WithProbability(Insert(x, s), v) == (if x.probability == v then [x] else []) + WithProbability(s, v)
    decreases |s|
  {
    if s == [] || x.probability >= s[0].probability {
      assert ([x] + s)[1..] == s;
    } else {
      var t := Insert(x, s[1..]);
      InsertStable(x, s[1..], v);
      assert ([s[0]] + t)[1..] == t;
    }
  }

  /** Sorting keeps every group of equal probability in its original order. */
  lemma {:induction false} SortDescStable(s: seq<PredictionItem>, v: real)
    ensures WithProbability(SortDesc(s), v) == WithProbability(s, v)
    decreases |s|
  {
    if s != [] {
      SortDescStable(s[1..], v);
      InsertStable(s[0], SortDesc(s[1..]), v);
    }
  }

  /** `SortDesc` is a stable descending sort. */
  lemma SortDescIsStableSort(s: seq<PredictionItem>)
    ensures IsStableDescSort(SortDesc(s), s)
  {
    forall v ensures WithProbability(SortDesc(s), v) == WithProbability(s, v) {
      SortDescStable(s, v);
    }
  }

  /** An item is in a probability group exactly when it is in `s` with that probability. */
  lemma {:induction false} WithProbabilityMembers(s: seq<PredictionItem>, v: real, x: PredictionItem)
    ensures x in WithProbability(s, v) <==> x in s && x.probability == v
    decreases |s|
  {
    if s != [] {
      WithProbabilityMembers(s[1..], v, x);
      assert s == [s[0]] + s[1..];
    }
  }

  /** The group of the first item's probability is never empty. */
  lemma HeadGroupNonEmpty(s: seq<PredictionItem>)
    ensures s != [] ==> WithProbability(s, s[0].probability) != []
  {
  }

  /** Sorted sequences with the same groups start with the same item. */
  lemma SameFirstItem(r: seq<PredictionItem>, t: seq<PredictionItem>)
    requires r != [] && t != []
    requires SortedDesc(r) && SortedDesc(t)
    requires forall v :: WithProbability(r, v) == WithProbability(t, v)
    ensures r[0] == t[0]
  {
    var p, q := r[0].probability, t[0].probability;
    WithProbabilityMembers(t, p, r[0]);
    WithProbabilityMembers(r, q, t[0]);
    assert p <= q;
    assert q <= p;
    assert WithProbability(r, p)[0] == r[0];
    assert WithProbability(t, p)[0] == t[0];
  }

  /** Removing a common first item keeps the groups equal. */
  lemma DropSameHead(r: seq<PredictionItem>, t: seq<PredictionItem>, v: real)
    requires r != [] && t != [] && r[0] == t[0]
    requires WithProbability(r, v) == WithProbability(t, v)
    ensures WithProbability(r[1..], v) == WithProbability(t[1..], v)
  {
    var head := if r[0].probability == v then [r[0]] else [];
    assert WithProbability(r[1..], v) == WithProbability(r, v)[|head|..];
    assert WithProbability(t[1..], v) == WithProbability(t, v)[|head|..];
  }

  /**
   * A stable descending sort has only one possible result: any `r` that is
   * sorted and has the groups of `s` in their order is `SortDesc(s)`.
   */
  lemma {:induction false} StableSortUnique(r: seq<PredictionItem>, t: seq<PredictionItem>)
    requires SortedDesc(r) && SortedDesc(t)
    requires forall v :: WithProbability(r, v) == WithProbability(t, v)
    ensures r == t
    decreases |r|
  {
    if r == [] && t != [] {
      HeadGroupNonEmpty(t);
      assert false;
    } else if r != [] && t == [] {
      HeadGroupNonEmpty(r);
      assert false;
    } else if r != [] {
      SameFirstItem(r, t);
      forall v ensures WithProbability(r[1..], v) == WithProbability(t[1..], v) {
        DropSameHead(r, t, v);
      }
      StableSortUnique(r[1..], t[1..]);
    }
  }

  /** Every stable descending sort of `s` equals `SortDesc(s)`. */
  lemma StableSortIsSortDesc(r: seq<PredictionItem>, s: seq<PredictionItem>)
    requires IsStableDescSort(r, s)
    ensures r == SortDesc(s)
  {
    SortDescIsStableSort(s);
    StableSortUnique(r, SortDesc(s));
  }
}
