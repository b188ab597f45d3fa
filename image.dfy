/**
 * One image's pass through the detector head: the proposals are turned into
 * size form, cut into padded classifier batches, and every batch's output
 * is decoded into the image's `bboxes` and `probs`.  The classifier and the
 * box regression are parameters.
 */
module ImageDetection {
  import opened Wrappers
  import opened Boxes
  import opened RegionBatcher
  import opened DetectionDecoder

  /** `model_classifier_only.predict` on one batch: the rows of `P_cls` and of `P_regr`. */
  type Classifier = seq<Row> -> (seq<seq<real>>, seq<seq<real>>)

  /** On every batch of `k` regions the classifier scores at most `k` regions, each with a named class. */
  ghost predicate ClassifierFits(classify: Classifier, k: nat, names: map<int, string>)
  {
    forall b: seq<Row> :: |b| == k ==> WellFormedOutput(b, classify(b).0, names)
  }

  /** The classifier's output on each of the given batches can be decoded. */
  predicate Fits(batches: seq<seq<Row>>, classify: Classifier, names: map<int, string>)
  {
    forall j :: 0 <= j < |batches| ==> WellFormedOutput(batches[j], classify(batches[j]).0, names)
  }

  /** A classifier that fits all batches of `k` fits the batches of any proposals. */
  lemma FitsBatches(rows: seq<Row>, k: nat, classify: Classifier, names: map<int, string>)
    requires k > 0 && ClassifierFits(classify, k, names)
    ensures Fits(Batches(rows, k), classify, names)
  {
    var bs := Batches(rows, k);
    forall j | 0 <= j < |bs|
      ensures WellFormedOutput(bs[j], classify(bs[j]).0, names)
    {
      assert |bs[j]| == k;
    }
  }

  /** The decisions for all regions of all batches, batch after batch. */
  function BatchDecisions(batches: seq<seq<Row>>, classify: Classifier, names: map<int, string>,
                          std: Row, stride: real, applyRegr: (Row, Row) -> Option<Row>): seq<Decision>
    requires Fits(batches, classify, names) && NonZero(std)
    decreases |batches|
  {
    if batches == [] then []
    else
      var b := batches[|batches| - 1];
      BatchDecisions(batches[..|batches| - 1], classify, names, std, stride, applyRegr)
        + Decisions(b, classify(b).0, classify(b).1, names, std, stride, applyRegr)
  }

  /** Decoding two runs of decisions one after the other is decoding their concatenation. */
  lemma {:induction false} AccumulateAppend(bboxes: map<string, seq<Row>>, probs: map<string, seq<real>>,
                                            ds: seq<Decision>, es: seq<Decision>)
    ensures var mid := Accumulate(bboxes, probs, ds);
      Accumulate(bboxes, probs, ds + es) == Accumulate(mid.0, mid.1, es)
    decreases |es|
  {
    if es != [] {
      assert (ds + es)[..|ds + es| - 1] == ds + es[..|es| - 1];
      assert (ds + es)[|ds + es| - 1] == es[|es| - 1];
      AccumulateAppend(bboxes, probs, ds, es[..|es| - 1]);
    } else {
      assert ds + es == ds;
    }
  }

  /** Decoding the batches up to `j + 1` is decoding those up to `j`, then batch `j`. */
  lemma DecodeStep(batches: seq<seq<Row>>, j: nat, classify: Classifier, names: map<int, string>,
                   std: Row, stride: real, applyRegr: (Row, Row) -> Option<Row>)
    requires j < |batches| && Fits(batches, classify, names) && NonZero(std)
    ensures Fits(batches[..j], classify, names) && Fits(batches[..j + 1], classify, names)
    ensures var prev := Accumulate(map[], map[], BatchDecisions(batches[..j], classify, names, std, stride, applyRegr));
      var b := batches[j];
      Accumulate(map[], map[], BatchDecisions(batches[..j + 1], classify, names, std, stride, applyRegr))
        == Accumulate(prev.0, prev.1, Decisions(b, classify(b).0, classify(b).1, names, std, stride, applyRegr))
  {
    var b := batches[j];
    assert batches[..j + 1][..j] == batches[..j];
    AccumulateAppend(map[], map[], BatchDecisions(batches[..j], classify, names, std, stride, applyRegr),
      Decisions(b, classify(b).0, classify(b).1, names, std, stride, applyRegr));
  }

  /** The classifier call and the decoding loop for each batch, in order, into fresh `bboxes` and `probs`. */
  method DecodeBatches(batches: seq<seq<Row>>, classify: Classifier, names: map<int, string>,
                       std: Row, stride: real, applyRegr: (Row, Row) -> Option<Row>)
    returns (det: Detections)
    requires Fits(batches, classify, names) && NonZero(std)
    ensures fresh(det) && det.Valid()
    ensures (det.bboxes, det.probs)
      == Accumulate(map[], map[], BatchDecisions(batches, classify, names, std, stride, applyRegr))
  {
    det := new Detections();
    for j := 0 to |batches|
      invariant fresh(det) && det.Valid() && Fits(batches[..j], classify, names)
      invariant (det.bboxes, det.probs)
        == Accumulate(map[], map[], BatchDecisions(batches[..j], classify, names, std, stride, applyRegr))
    {
      var out := classify(batches[j]);
      DecodeStep(batches, j, classify, names, std, stride, applyRegr);
      det.DecodeBatch(batches[j], out.0, out.1, names, std, stride, applyRegr);
    }
    assert batches[..|batches|] == batches;
  }

  /**
   * Lines 287-335 for one image: `R` is converted in place, the batches are
   * taken in order, and each batch's regions are decoded into fresh
   * `bboxes` and `probs`.
   */
  method DetectImage(R: array<Row>, k: nat, classify: Classifier, names: map<int, string>,
                     std: Row, stride: real, applyRegr: (Row, Row) -> Option<Row>)
    returns (det: Detections)
    requires k > 0 && ClassifierFits(classify, k, names) && NonZero(std)
    modifies R
    ensures forall i :: 0 <= i < R.Length ==> R[i] == CornerToSize(old(R[i]))
    ensures Fits(Batches(R[..], k), classify, names)
    ensures fresh(det) && det.Valid()
    ensures (det.bboxes, det.probs)
      == Accumulate(map[], map[], BatchDecisions(Batches(R[..], k), classify, names, std, stride, applyRegr))
  {
    ToSizeForm(R);
    var batches := BatchRegions(R, k);
    FitsBatches(R[..], k, classify, names);
    det := DecodeBatches(batches, classify, names, std, stride, applyRegr);
  }

  /** Without proposals the classifier is never called and nothing is detected. */
  lemma NoProposals(k: nat, classify: Classifier, names: map<int, string>,
                    std: Row, stride: real, applyRegr: (Row, Row) -> Option<Row>)
    requires k > 0 && NonZero(std)
    ensures Batches([], k) == [] && Fits(Batches([], k), classify, names)
    ensures Accumulate(map[], map[], BatchDecisions(Batches([], k), classify, names, std, stride, applyRegr))
      == (map[], map[])
  {
  }

  /** Every decision that keeps a region carries a probability of at least the threshold. */
  predicate KeptAbove(ds: seq<Decision>)
  {
    forall i :: 0 <= i < |ds| && ds[i].Keep? ==> BboxThreshold <= ds[i].prob
  }

  /** Every decision of a batch that keeps a region carries a probability of at least the threshold. */
  lemma DecisionsAboveThreshold(rois: seq<Row>, pCls: seq<seq<real>>, pRegr: seq<seq<real>>,
                                names: map<int, string>, std: Row, stride: real, applyRegr: (Row, Row) -> Option<Row>)
    requires WellFormedOutput(rois, pCls, names) && NonZero(std)
    ensures KeptAbove(Decisions(rois, pCls, pRegr, names, std, stride, applyRegr))
  {
    var ds := Decisions(rois, pCls, pRegr, names, std, stride, applyRegr);
    forall i | 0 <= i < |ds| && ds[i].Keep?
      ensures BboxThreshold <= ds[i].prob
    {
      KeepIff(rois[i], pCls[i], RegrRow(pRegr, i), names, std, stride, applyRegr);
    }
  }

  /** The same over all batches of an image. */
  lemma {:induction false} BatchDecisionsAboveThreshold(batches: seq<seq<Row>>, classify: Classifier,
                                                        names: map<int, string>, std: Row, stride: real,
                                                        applyRegr: (Row, Row) -> Option<Row>)
    requires Fits(batches, classify, names) && NonZero(std)
    ensures KeptAbove(BatchDecisions(batches, classify, names, std, stride, applyRegr))
    decreases |batches|
  {
    if batches != [] {
      var b := batches[|batches| - 1];
      var init := batches[..|batches| - 1];
      assert Fits(init, classify, names);
      var pre := BatchDecisions(init, classify, names, std, stride, applyRegr);
      var post := Decisions(b, classify(b).0, classify(b).1, names, std, stride, applyRegr);
      BatchDecisionsAboveThreshold(init, classify, names, std, stride, applyRegr);
      DecisionsAboveThreshold(b, classify(b).0, classify(b).1, names, std, stride, applyRegr);
      var ds := pre + post;
      assert BatchDecisions(batches, classify, names, std, stride, applyRegr) == ds;
      forall i | 0 <= i < |ds| && ds[i].Keep?
        ensures BboxThreshold <= ds[i].prob
      {
        if i < |pre| {
          assert ds[i] == pre[i];
        } else {
          assert ds[i] == post[i - |pre|];
        }
      }
    }
  }

  /** The probabilities kept for a class come from decisions that keep that class. */
  lemma {:induction false} ProbsOfAbove(ds: seq<Decision>, c: string)
    requires KeptAbove(ds)
    ensures forall p :: p in ProbsOf(ds, c) ==> BboxThreshold <= p
    decreases |ds|
  {
    if ds != [] {
      ProbsOfAbove(ds[..|ds| - 1], c);
    }
  }

  /**
   * Every probability in an image's `probs` is at least the threshold, and
   * `bboxes` and `probs` hold the same classes with lists of equal length.
   */
  lemma ImageDetectionsAboveThreshold(batches: seq<seq<Row>>, classify: Classifier, names: map<int, string>,
                                      std: Row, stride: real, applyRegr: (Row, Row) -> Option<Row>, c: string)
    requires Fits(batches, classify, names) && NonZero(std)
    ensures var r := Accumulate(map[], map[], BatchDecisions(batches, classify, names, std, stride, applyRegr));
      Parallel(r.0, r.1) && forall p :: p in Get(r.1, c) ==> BboxThreshold <= p
  {
    var ds := BatchDecisions(batches, classify, names, std, stride, applyRegr);
    AccumulateParallel(map[], map[], ds);
    AccumulateProbs(map[], map[], ds, c);
    BatchDecisionsAboveThreshold(batches, classify, names, std, stride, applyRegr);
    ProbsOfAbove(ds, c);
  }
}
