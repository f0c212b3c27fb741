/**
 * The label table of the chest X-ray classifier and the pure tail of
 * `predict`: pairing each output probability with its class label, ranking
 * the pairs, and averaging the probabilities into the `precision` score.
 * Probabilities are the network's sigmoid outputs, taken here as given reals.
 */
module Prediction {
  import opened Wrappers
  import opened Ranking

  /** The class labels, in the order of the network's output vector. */
  const Classes: seq<string> := [
    "Atelectasis", "Cardiomegaly", "Effusion", "Infiltration", "Mass",
    "Nodule", "Pneumonia", "Pneumothorax", "No Finding", "Tuberculosis",
    "Emphysema", "Fibrosis", "Pleural_Thickening"
  ]

  /** The number of classes, which is the width of the network's output. */
  const NumClasses: nat := |Classes|

  /** No two positions of `s` hold the same value. */
  ghost predicate Distinct<T>(s: seq<T>) {
    forall i, j :: 0 <= i < j < |s| ==> s[i] != s[j]
  }

  /** There are thirteen classes, all with different labels. */
  lemma ClassesShape()
    ensures NumClasses == 13
    ensures Distinct(Classes)
  {
  }

  /** The map from each output index 0..12 to its class label. */
  function IdxToClass(): (m: map<int, string>)
    ensures forall i :: i in m <==> 0 <= i < NumClasses
    ensures forall i :: 0 <= i < NumClasses ==> m[i] == Classes[i]
  {
    map i | 0 <= i < NumClasses :: Classes[i]
  }

  /**
   * `idx_to_class` is a bijection from the indices 0..12 onto the labels:
   * every label is the image of an index, and different indices give
   * different labels.
   */
  lemma IdxToClassBijective()
    ensures forall i :: i in IdxToClass() <==> 0 <= i < 13
    ensures IdxToClass().Values == set c | c in Classes
    ensures forall i, j :: i in IdxToClass() && j in IdxToClass() && i != j ==> IdxToClass()[i] != IdxToClass()[j]
  {
    ClassesShape();
    var m := IdxToClass();
    forall c | c in Classes ensures c in m.Values {
      var i :| 0 <= i < |Classes| && Classes[i] == c;
      assert m[i] == c;
    }
    forall i, j | i in m && j in m && i != j ensures m[i] != m[j] {
      if i < j {
        assert Classes[i] != Classes[j];
      } else {
        assert Classes[j] != Classes[i];
      }
    }
  }

  /** The only error the tail of `predict` can raise. */
  datatype PredictError = IndexError

  /**
   * The unsorted prediction list: one item per probability, carrying the
   * class label of the same index. More
   * probabilities than labels make `CLASSES[i]` raise before any list exists.
   */
  function PairWithLabels(probs: seq<real>): (r: Result<seq<PredictionItem>, PredictError>)
    ensures r.Success? <==> |probs| <= NumClasses
    ensures r.Success? ==> |r.value| == |probs|
    ensures r.Success? ==> forall i :: 0 <= i < |probs| ==> r.value[i].classLabel == Classes[i]
    ensures r.Success? ==> forall i :: 0 <= i < |probs| ==> r.value[i].probability == probs[i]
  {
    if |probs| <= NumClasses then
      Success(seq(|probs|, i requires 0 <= i < |probs| => PredictionItem(Classes[i], probs[i])))
    else
      Failure(IndexError)
  }

  /** The sum of the probabilities. */
  function Sum(xs: seq<real>): real
  {
    if xs == [] then 0.0 else xs[0] + Sum(xs[1..])
  }

  /** The least element of a non-empty sequence. */
  function Min(xs: seq<real>): (m: real)
    requires xs != []
    ensures m in xs
    ensures forall i :: 0 <= i < |xs| ==> m <= xs[i]
  {
    if |xs| == 1 then xs[0]
    else
      var t := Min(xs[1..]);
      assert forall i :: 1 <= i < |xs| ==> xs[i] == xs[1..][i - 1];
      if xs[0] <= t then xs[0] else t
  }

  /** The greatest element of a non-empty sequence. */
  function Max(xs: seq<real>): (m: real)
    requires xs != []
    ensures m in xs
    ensures forall i :: 0 <= i < |xs| ==> xs[i] <= m
  {
    if |xs| == 1 then xs[0]
    else
      var t := Max(xs[1..]);
      assert forall i :: 1 <= i < |xs| ==> xs[i] == xs[1..][i - 1];
      if xs[0] >= t then xs[0] else t
  }

  /**
   * `np.mean(probs)`: the sum divided by the count; `None` stands for the
   * `nan` NumPy returns for an empty array.
   */
  function Mean(xs: seq<real>): (r: Option<real>)
    ensures r.Some? <==> xs != []
    ensures r.Some? ==> r.value * (|xs| as real) == Sum(xs)
  {
    if xs == [] then None else Some(Sum(xs) / (|xs| as real))
  }

  /** A bound on every element bounds the sum by the count times the bound. */
  lemma {:induction false} SumBounds(xs: seq<real>, lo: real, hi: real)
    requires forall i :: 0 <= i < |xs| ==> lo <= xs[i] <= hi
    ensures lo * (|xs| as real) <= Sum(xs) <= hi * (|xs| as real)
    decreases |xs|
  {
    if xs != [] {
      assert forall i :: 0 <= i < |xs| - 1 ==> xs[1..][i] == xs[i + 1];
      SumBounds(xs[1..], lo, hi);
    }
  }

  /** The mean lies between the least and the greatest probability. */
  lemma MeanWithinRange(xs: seq<real>)
    requires xs != []
    ensures Min(xs) <= Mean(xs).value <= Max(xs)
  {
    var lo, hi, total, n := Min(xs), Max(xs), Sum(xs), |xs| as real;
    assert Mean(xs) == Some(total / n);
    SumBounds(xs, lo, hi);
    QuotientBounds(total, n, lo, hi);
  }

  /** Bounds on a total scaled by a positive count bound the quotient. */
  lemma QuotientBounds(total: real, n: real, lo: real, hi: real)
    requires n > 0.0 && lo * n <= total <= hi * n
    ensures lo <= total / n <= hi
  {
    assert (total / n) * n == total;
  }

  /** Probabilities in [0, 1] have a mean in [0, 1]. */
  lemma MeanInUnitInterval(xs: seq<real>)
    requires xs != []
    requires forall i :: 0 <= i < |xs| ==> 0.0 <= xs[i] <= 1.0
    ensures 0.0 <= Mean(xs).value <= 1.0
  {
    MeanWithinRange(xs);
  }

  /** The dictionary `predict` returns: the ranked list and the aggregate score. */
  datatype PredictionResult = PredictionResult(predictions: seq<PredictionItem>, precision: Option<real>)

  /**
   * The tail of `predict` on the probability vector: pair, sort stably by
   * descending probability, and average.
   */
  function Predict(probs: seq<real>): (r: Result<PredictionResult, PredictError>)
    ensures r.Success? <==> |probs| <= NumClasses
    ensures r.Success? ==> IsStableDescSort(r.value.predictions, PairWithLabels(probs).value)
    ensures r.Success? ==> r.value.precision == Mean(probs)
  {
    match PairWithLabels(probs)
    case Failure(e) => Failure(e)
    case Success(items) =>
      SortDescIsStableSort(items);
      Success(PredictionResult(SortDesc(items), Mean(probs)))
  }

  /** Every class label occurs in `preds`, and none occurs twice. */
  ghost predicate HasEachLabelOnce(preds: seq<PredictionItem>) {
    && (forall i :: 0 <= i < NumClasses ==> exists k :: 0 <= k < |preds| && preds[k].classLabel == Classes[i])
    && (forall a, b :: 0 <= a < b < |preds| ==> preds[a].classLabel != preds[b].classLabel)
  }

  /** A value at two positions is counted at least twice. */
  lemma DuplicateCount<T>(s: seq<T>, a: int, b: int)
    requires 0 <= a < b < |s| && s[a] == s[b]
    ensures multiset(s)[s[a]] >= 2
  {
    assert s == s[..b] + s[b..];
    assert s[a] in s[..b];
    assert s[b..][0] == s[b];
  }

  /** In a sequence without repetitions every member is counted once. */
  lemma {:induction false} DistinctCount<T>(s: seq<T>, x: T)
    requires Distinct(s) && x in s
    ensures multiset(s)[x] == 1
    decreases |s|
  {
    assert s == [s[0]] + s[1..];
    if s[0] == x {
      assert x !in s[1..];
    } else {
      assert forall i, j :: 0 <= i < j < |s| - 1 ==> s[1..][i] == s[i + 1] && s[1..][j] == s[j + 1];
      DistinctCount(s[1..], x);
    }
  }

  /**
   * With one probability per class, the ranked predictions name every class
   * exactly once.
   */
  lemma PredictLabelsOnce(probs: seq<real>)
    requires |probs| == NumClasses
    ensures Predict(probs).Success?
    ensures |Predict(probs).value.predictions| == NumClasses
    ensures HasEachLabelOnce(Predict(probs).value.predictions)
  {
    ClassesShape();
    var items := PairWithLabels(probs).value;
    var preds := Predict(probs).value.predictions;
    assert multiset(preds) == multiset(items);
    assert |preds| == |items|;
    assert Distinct(items) by {
      forall i, j | 0 <= i < j < |items| ensures items[i] != items[j] {
        assert items[i].classLabel == Classes[i] != Classes[j] == items[j].classLabel;
      }
    }
    forall i | 0 <= i < NumClasses
      ensures exists k :: 0 <= k < |preds| && preds[k].classLabel == Classes[i]
    {
      assert items[i] in multiset(preds);
      var k :| 0 <= k < |preds| && preds[k] == items[i];
    }
    forall a, b | 0 <= a < b < |preds| ensures preds[a].classLabel != preds[b].classLabel {
      assert preds[a] in multiset(items) && preds[b] in multiset(items);
      var i :| 0 <= i < |items| && items[i] == preds[a];
      var j :| 0 <= j < |items| && items[j] == preds[b];
      if preds[a].classLabel == preds[b].classLabel {
        assert i == j;
        DuplicateCount(preds, a, b);
        DistinctCount(items, items[i]);
        assert false;
      }
    }
  }
}
