/**
 * Detection decoding for one classifier batch: a region is kept when its
 * highest class probability is at least 0.8 and that class is not the
 * background (the last index); its box is refined by the class's regression
 * deltas when that succeeds, scaled by the feature stride into corner form,
 * and appended with the probability to that class's two parallel lists.
 */
module DetectionDecoder {
  import opened Wrappers
  import opened Boxes

  /** `bbox_threshold`: regions whose best probability is below this are dropped. */
  const BboxThreshold: real := 0.8

  /** `np.argmax`: the first index holding the largest value. */
  function ArgMax(p: seq<real>): (r: nat)
    requires |p| > 0
    ensures r < |p|
    ensures forall i :: 0 <= i < |p| ==> p[i] <= p[r]
    ensures forall i :: 0 <= i < r ==> p[i] < p[r]
    decreases |p|
  {
    if |p| == 1 then 0
    else
      var j := ArgMax(p[..|p| - 1]);
      if p[|p| - 1] > p[j] then |p| - 1 else j
  }

  /** `np.max`: a value of `p` that no value of `p` exceeds. */
  function MaxProb(p: seq<real>): (m: real)
    requires |p| > 0
    ensures m in p && forall i :: 0 <= i < |p| ==> p[i] <= m
  {
    p[ArgMax(p)]
  }

  /** An index holding the largest value, with only smaller values before it, is the argmax. */
  lemma ArgMaxUnique(p: seq<real>, r: nat)
    requires r < |p|
    requires forall i :: 0 <= i < |p| ==> p[i] <= p[r]
    requires forall i :: 0 <= i < r ==> p[i] < p[r]
    ensures ArgMax(p) == r
  {
    var a := ArgMax(p);
    assert p[a] <= p[r] && p[r] <= p[a];
  }

  /** The inverted class map names every class index the classifier can pick (all but the last). */
  predicate NamesCover(names: map<int, string>, numClasses: nat)
  {
    forall i :: 0 <= i < numClasses - 1 ==> i in names
  }

  /** `classifier_regr_std` divides every delta, so none of its components is zero. */
  predicate NonZero(std: Row)
  {
    std.c0 != 0.0 && std.c1 != 0.0 && std.c2 != 0.0 && std.c3 != 0.0
  }

  /**
   * `P_regr[0, ii, 4 * c : 4 * (c + 1)]` unpacked into `(tx, ty, tw, th)`:
   * `None` when the slice is shorter than four values, where unpacking raises.
   */
  function ClassDeltas(regr: seq<real>, c: nat): Option<Row>
  {
    if 4 * c + 4 <= |regr| then Some(Row(regr[4 * c], regr[4 * c + 1], regr[4 * c + 2], regr[4 * c + 3]))
    else None
  }

  /** The deltas divided component-wise by `classifier_regr_std`; multiplying back gives the deltas. */
  function Denormalize(t: Row, std: Row): (d: Row)
    requires NonZero(std)
    ensures d.c0 * std.c0 == t.c0 && d.c1 * std.c1 == t.c1 && d.c2 * std.c2 == t.c2 && d.c3 * std.c3 == t.c3
  {
    Row(t.c0 / std.c0, t.c1 / std.c1, t.c2 / std.c2, t.c3 / std.c3)
  }

  /**
   * The size-form box of a kept region: `apply_regr` of the ROI row and the
   * de-normalized deltas when every step succeeds (`applyRegr` returns
   * `None` where it raises), otherwise the ROI row unchanged.  The deltas
   * are missing exactly when the regression row is shorter than `4 * c + 4`.
   */
  function RefinedBox(roi: Row, regr: seq<real>, c: nat, std: Row, applyRegr: (Row, Row) -> Option<Row>): (b: Row)
    requires NonZero(std)
    ensures ClassDeltas(regr, c).None? <==> |regr| < 4 * c + 4
    ensures (ClassDeltas(regr, c).None? || applyRegr(roi, Denormalize(ClassDeltas(regr, c).value, std)).None?) ==>
      b == roi
    ensures ClassDeltas(regr, c).Some? && applyRegr(roi, Denormalize(ClassDeltas(regr, c).value, std)).Some? ==>
      b == applyRegr(roi, Denormalize(ClassDeltas(regr, c).value, std)).value
  {
    match ClassDeltas(regr, c)
    case None => roi
    case Some(t) =>
      match applyRegr(roi, Denormalize(t, std))
      case None => roi
      case Some(b) => b
  }

  /** What happens to one region: dropped, or appended to class `cls`. */
  datatype Decision = Skip | Keep(cls: string, box: Row, prob: real)

  /** The fate of region `ii` of a batch, as the loop body decides it. */
  function DecodeRegion(roi: Row, cls: seq<real>, regr: seq<real>, names: map<int, string>,
                        std: Row, stride: real, applyRegr: (Row, Row) -> Option<Row>): (d: Decision)
    requires |cls| > 0 && NamesCover(names, |cls|) && NonZero(std)
    ensures d.Keep? ==>
      && ArgMax(cls) < |cls| - 1 && d.cls == names[ArgMax(cls)]
      && BboxThreshold <= d.prob && forall j :: 0 <= j < |cls| ==> cls[j] <= d.prob
  {
    var c := ArgMax(cls);
    if MaxProb(cls) < BboxThreshold || c == |cls| - 1 then Skip
    else Keep(names[c], Scale(stride, SizeToCorner(RefinedBox(roi, regr, c, std, applyRegr))), MaxProb(cls))
  }

  /**
   * A region is kept exactly when some class other than the background
   * reaches the largest probability and that probability is at least the
   * threshold; it is then reported with that largest probability, under the
   * name of the first class that reaches it.
   */
  lemma KeepIff(roi: Row, cls: seq<real>, regr: seq<real>, names: map<int, string>,
                std: Row, stride: real, applyRegr: (Row, Row) -> Option<Row>)
    requires |cls| > 0 && NamesCover(names, |cls|) && NonZero(std)
    ensures var d := DecodeRegion(roi, cls, regr, names, std, stride, applyRegr);
      d.Keep? <==>
        exists i :: 0 <= i < |cls| - 1 && BboxThreshold <= cls[i] && forall j :: 0 <= j < |cls| ==> cls[j] <= cls[i]
    ensures var d := DecodeRegion(roi, cls, regr, names, std, stride, applyRegr);
      d.Keep? ==>
        BboxThreshold <= d.prob && (forall j :: 0 <= j < |cls| ==> cls[j] <= d.prob)
        && exists i :: 0 <= i < |cls| - 1 && cls[i] == d.prob && d.cls == names[i]
             && forall j :: 0 <= j < i ==> cls[j] < cls[i]
  {
    var c := ArgMax(cls);
    var d := DecodeRegion(roi, cls, regr, names, std, stride, applyRegr);
    if exists i :: 0 <= i < |cls| - 1 && BboxThreshold <= cls[i] && forall j :: 0 <= j < |cls| ==> cls[j] <= cls[i] {
      var i :| 0 <= i < |cls| - 1 && BboxThreshold <= cls[i] && forall j :: 0 <= j < |cls| ==> cls[j] <= cls[i];
      assert cls[i] == cls[c];
      assert c <= i;
      assert d.Keep?;
    }
    if d.Keep? {
      assert c < |cls| - 1 && cls[c] == d.prob;
    }
  }

  /**
   * The appended box is the stride-scaled corner form of the refined
   * size-form box: its width and height are `stride * w` and `stride * h`.
   */
  lemma KeptBox(roi: Row, cls: seq<real>, regr: seq<real>, names: map<int, string>,
                std: Row, stride: real, applyRegr: (Row, Row) -> Option<Row>)
    requires |cls| > 0 && NamesCover(names, |cls|) && NonZero(std)
    ensures var d := DecodeRegion(roi, cls, regr, names, std, stride, applyRegr);
      var b := RefinedBox(roi, regr, ArgMax(cls), std, applyRegr);
      d.Keep? ==>
        d.box.c0 == stride * b.c0 && d.box.c1 == stride * b.c1
        && d.box.c2 - d.box.c0 == stride * b.c2 && d.box.c3 - d.box.c1 == stride * b.c3
  {
    var b := RefinedBox(roi, regr, ArgMax(cls), std, applyRegr);
    ScaledCornerExtent(stride, b);
    var sb := Scale(stride, SizeToCorner(b));
    assert sb.c0 == stride * b.c0 && sb.c1 == stride * b.c1;
    assert sb.c2 - sb.c0 == stride * b.c2 && sb.c3 - sb.c1 == stride * b.c3;
    var d := DecodeRegion(roi, cls, regr, names, std, stride, applyRegr);
    if d.Keep? {
      assert d.box == sb;
    }
  }

  /**
   * A kept region never carries the background's name when the class map
   * gives distinct names to distinct indices.
   */
  lemma KeptNotBackground(roi: Row, cls: seq<real>, regr: seq<real>, names: map<int, string>,
                          std: Row, stride: real, applyRegr: (Row, Row) -> Option<Row>)
    requires |cls| > 0 && NamesCover(names, |cls|) && NonZero(std) && |cls| - 1 in names
    requires forall i, j :: i in names && j in names && i != j ==> names[i] != names[j]
    ensures var d := DecodeRegion(roi, cls, regr, names, std, stride, applyRegr);
      d.Keep? ==> d.cls != names[|cls| - 1]
  {
  }

  /**
   * A probability exactly at the threshold is kept: the comparison that
   * drops a region is a strict `<`.
   */
  lemma ThresholdInclusive(roi: Row, names: map<int, string>, std: Row, applyRegr: (Row, Row) -> Option<Row>)
    requires 0 in names && NonZero(std)
    ensures DecodeRegion(roi, [0.8, 0.2], [], names, std, 16.0, applyRegr)
      == Keep(names[0], Scale(16.0, SizeToCorner(roi)), 0.8)
  {
    assert ArgMax([0.8, 0.2]) == 0 by {
      ArgMaxUnique([0.8, 0.2], 0);
    }
  }

  /** The regression row of region `ii`: a missing row behaves like one without deltas. */
  function RegrRow(pRegr: seq<seq<real>>, ii: nat): seq<real>
  {
    if ii < |pRegr| then pRegr[ii] else []
  }

  /** The classifier output for a batch has a usable probability row for every region it scores. */
  predicate WellFormedOutput(rois: seq<Row>, pCls: seq<seq<real>>, names: map<int, string>)
  {
    |pCls| <= |rois| &&
    forall ii :: 0 <= ii < |pCls| ==> |pCls[ii]| > 0 && NamesCover(names, |pCls[ii]|)
  }

  /** The decisions for every region of a batch, in order. */
  function Decisions(rois: seq<Row>, pCls: seq<seq<real>>, pRegr: seq<seq<real>>, names: map<int, string>,
                     std: Row, stride: real, applyRegr: (Row, Row) -> Option<Row>): (ds: seq<Decision>)
    requires WellFormedOutput(rois, pCls, names) && NonZero(std)
    ensures |ds| == |pCls|
  {
    seq(|pCls|, ii requires 0 <= ii < |pCls| =>
      DecodeRegion(rois[ii], pCls[ii], RegrRow(pRegr, ii), names, std, stride, applyRegr))
  }

  /** The list of class `c`, empty when the class has none yet. */
  function Get<T>(m: map<string, seq<T>>, c: string): seq<T>
  {
    if c in m then m[c] else []
  }

  /** `bboxes` and `probs` have the same classes, and lists of the same length. */
  predicate Parallel(bboxes: map<string, seq<Row>>, probs: map<string, seq<real>>)
  {
    bboxes.Keys == probs.Keys && forall c :: c in bboxes ==> |bboxes[c]| == |probs[c]|
  }

  /** The per-class lists after one decision. */
  function Record(bboxes: map<string, seq<Row>>, probs: map<string, seq<real>>, d: Decision)
    : (map<string, seq<Row>>, map<string, seq<real>>)
  {
    match d
    case Skip => (bboxes, probs)
    case Keep(c, b, p) => (bboxes[c := Get(bboxes, c) + [b]], probs[c := Get(probs, c) + [p]])
  }

  /** The per-class lists after a run of decisions, taken in order. */
  function Accumulate(bboxes: map<string, seq<Row>>, probs: map<string, seq<real>>, ds: seq<Decision>)
    : (map<string, seq<Row>>, map<string, seq<real>>)
    decreases |ds|
  {
    if ds == [] then (bboxes, probs)
    else
      var prev := Accumulate(bboxes, probs, ds[..|ds| - 1]);
      Record(prev.0, prev.1, ds[|ds| - 1])
  }

  /** The boxes of class `c` among the decisions, in order. */
  function BoxesOf(ds: seq<Decision>, c: string): seq<Row>
    decreases |ds|
  {
    if ds == [] then []
    else
      var d := ds[|ds| - 1];
      BoxesOf(ds[..|ds| - 1], c) + (if d.Keep? && d.cls == c then [d.box] else [])
  }

  /** The probabilities of class `c` among the decisions, in order. */
  function ProbsOf(ds: seq<Decision>, c: string): seq<real>
    decreases |ds|
  {
    if ds == [] then []
    else
      var d := ds[|ds| - 1];
      ProbsOf(ds[..|ds| - 1], c) + (if d.Keep? && d.cls == c then [d.prob] else [])
  }

  /** Some decision keeps a region of class `c`. */
  predicate HasClass(ds: seq<Decision>, c: string)
  {
    exists i :: 0 <= i < |ds| && ds[i].Keep? && ds[i].cls == c
  }

  /** Appending decisions keeps `bboxes` and `probs` parallel. */
  lemma {:induction false} AccumulateParallel(bboxes: map<string, seq<Row>>, probs: map<string, seq<real>>,
                                              ds: seq<Decision>)
    requires Parallel(bboxes, probs)
    ensures var r := Accumulate(bboxes, probs, ds); Parallel(r.0, r.1)
    decreases |ds|
  {
    if ds != [] {
      AccumulateParallel(bboxes, probs, ds[..|ds| - 1]);
    }
  }

  /** A class has lists exactly when it had them before or some region was kept for it. */
  lemma {:induction false} AccumulateClasses(bboxes: map<string, seq<Row>>, probs: map<string, seq<real>>,
                                             ds: seq<Decision>, c: string)
    ensures c in Accumulate(bboxes, probs, ds).0 <==> c in bboxes || HasClass(ds, c)
    decreases |ds|
  {
    if ds != [] {
      var init, d := ds[..|ds| - 1], ds[|ds| - 1];
      AccumulateClasses(bboxes, probs, init, c);
      if HasClass(ds, c) && !(d.Keep? && d.cls == c) {
        var i :| 0 <= i < |ds| && ds[i].Keep? && ds[i].cls == c;
        assert init[i] == ds[i];
      }
      if HasClass(init, c) {
        var i :| 0 <= i < |init| && init[i].Keep? && init[i].cls == c;
        assert ds[i] == init[i];
      }
    }
  }

  /**
   * After a run of decisions each class's box list is its old list followed
   * by the boxes kept for that class, in order.
   */
  lemma {:induction false} AccumulateBoxes(bboxes: map<string, seq<Row>>, probs: map<string, seq<real>>,
                                           ds: seq<Decision>, c: string)
    ensures Get(Accumulate(bboxes, probs, ds).0, c) == Get(bboxes, c) + BoxesOf(ds, c)
    decreases |ds|
  {
    if ds != [] {
      AccumulateBoxes(bboxes, probs, ds[..|ds| - 1], c);
    }
  }

  /** The same for the probability lists. */
  lemma {:induction false} AccumulateProbs(bboxes: map<string, seq<Row>>, probs: map<string, seq<real>>,
                                           ds: seq<Decision>, c: string)
    ensures Get(Accumulate(bboxes, probs, ds).1, c) == Get(probs, c) + ProbsOf(ds, c)
    decreases |ds|
  {
    if ds != [] {
      AccumulateProbs(bboxes, probs, ds[..|ds| - 1], c);
    }
  }

  /** One more decision is one more `Record`. */
  lemma AccumulateNext(bboxes: map<string, seq<Row>>, probs: map<string, seq<real>>, ds: seq<Decision>, i: nat)
    requires i < |ds|
    ensures var prev := Accumulate(bboxes, probs, ds[..i]);
      Accumulate(bboxes, probs, ds[..i + 1]) == Record(prev.0, prev.1, ds[i])
  {
    assert ds[..i + 1][..i] == ds[..i];
  }

  /** A second update of the same key overrides the first. */
  lemma OverrideTwice<T>(m: map<string, T>, c: string, u: T, v: T)
    ensures m[c := u][c := v] == m[c := v]
  {
  }

  /**
   * The `try` block of the decoding loop: unpack the class's four deltas,
   * divide them by `classifier_regr_std` and apply them; on any failure the
   * `except` keeps the ROI row as it was.  This is the statement-by-statement
   * form of `RefinedBox`, which specifies it and which the lemmas use.
   */
  method Regress(roi: Row, regr: seq<real>, c: nat, std: Row, applyRegr: (Row, Row) -> Option<Row>)
    returns (x: Row)
    requires NonZero(std)
    ensures x == RefinedBox(roi, regr, c, std, applyRegr)
  {
    x := roi;
    if 4 * c + 4 <= |regr| {
      var tx, ty, tw, th := regr[4 * c], regr[4 * c + 1], regr[4 * c + 2], regr[4 * c + 3];
      tx := tx / std.c0;
      ty := ty / std.c1;
      tw := tw / std.c2;
      th := th / std.c3;
      match applyRegr(x, Row(tx, ty, tw, th)) {
        case Some(b) => x := b;
        case None =>
      }
    }
  }

  /**
   * `bboxes` and `probs` of one image: for every class the kept boxes, in
   * corner form and in feature-stride units, and their probabilities.
   */
  class Detections {
    var bboxes: map<string, seq<Row>>
    var probs: map<string, seq<real>>

    ghost predicate Valid()
      reads this
    {
      Parallel(bboxes, probs)
    }

    constructor ()
      ensures Valid() && bboxes == map[] && probs == map[]
    {
      bboxes := map[];
      probs := map[];
    }

    /** A class seen for the first time gets an empty box list and an empty probability list. */
    method AddClass(c: string)
      requires Valid()
      modifies this
      ensures Valid() && c in bboxes
      ensures bboxes == old(bboxes)[c := Get(old(bboxes), c)] && probs == old(probs)[c := Get(old(probs), c)]
    {
      if c !in bboxes {
        bboxes := bboxes[c := []];
        probs := probs[c := []];
      }
    }

    /** The two appends to the lists of a class that has them. */
    method Append(c: string, box: Row, p: real)
      requires Valid() && c in bboxes
      modifies this
      ensures Valid()
      ensures bboxes == old(bboxes)[c := old(bboxes)[c] + [box]] && probs == old(probs)[c := old(probs)[c] + [p]]
    {
      bboxes := bboxes[c := bboxes[c] + [box]];
      probs := probs[c := probs[c] + [p]];
    }

    /**
     * The loop over the regions `ii` of one classifier batch: threshold,
     * class lookup, regression with its fallback, and the two appends.
     */
    method DecodeBatch(rois: seq<Row>, pCls: seq<seq<real>>, pRegr: seq<seq<real>>, names: map<int, string>,
                       std: Row, stride: real, applyRegr: (Row, Row) -> Option<Row>)
      requires Valid() && WellFormedOutput(rois, pCls, names) && NonZero(std)
      modifies this
      ensures Valid()
      ensures (bboxes, probs)
        == Accumulate(old(bboxes), old(probs), Decisions(rois, pCls, pRegr, names, std, stride, applyRegr))
    {
      ghost var ds := Decisions(rois, pCls, pRegr, names, std, stride, applyRegr);
      for ii := 0 to |pCls|
        invariant Valid()
        invariant (bboxes, probs) == Accumulate(old(bboxes), old(probs), ds[..ii])
      {
        AccumulateNext(old(bboxes), old(probs), ds, ii);
        ghost var before := (bboxes, probs);
        if MaxProb(pCls[ii]) < BboxThreshold || ArgMax(pCls[ii]) == |pCls[ii]| - 1 {
          continue;
        }
        var clsName := names[ArgMax(pCls[ii])];
        AddClass(clsName);
        var clsNum := ArgMax(pCls[ii]);
        var x := Regress(rois[ii], RegrRow(pRegr, ii), clsNum, std, applyRegr);
        Append(clsName, Scale(stride, SizeToCorner(x)), MaxProb(pCls[ii]));
        OverrideTwice(before.0, clsName, Get(before.0, clsName), Get(before.0, clsName) + [Scale(stride, SizeToCorner(x))]);
        OverrideTwice(before.1, clsName, Get(before.1, clsName), Get(before.1, clsName) + [MaxProb(pCls[ii])]);
      }
      assert ds[..|pCls|] == ds;
    }
  }
}
