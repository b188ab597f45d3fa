/**
 * Which slices of a sample are run through the detector.  A 2-D image has
 * one slice, a CT volume one per z index.  With the skip option on, a
 * counter incremented before each slice lets through only every third one.
 */
module SliceSkip {
  import opened Text

  /** Slice `iii` (counted from 0) is processed: skipping is off, or it is the third of its group. */
  predicate Processed(iii: nat, skip: string)
  {
    !StrToBool(skip) || (iii + 1) % 3 == 0
  }

  /**
   * The slice loop of one sample: the indices, in increasing order, of the
   * slices that reach the detector.
   */
  method SelectSlices(sliceNums: nat, skip: string) returns (selected: seq<nat>)
    ensures forall iii: nat :: iii in selected <==> iii < sliceNums && Processed(iii, skip)
    ensures forall i, j :: 0 <= i < j < |selected| ==> selected[i] < selected[j]
    ensures |selected| == if StrToBool(skip) then sliceNums / 3 else sliceNums
  {
    selected := [];
    var iSkip := 0;
    for iii := 0 to sliceNums
      invariant iSkip == iii
      invariant forall s: nat :: s in selected <==> s < iii && Processed(s, skip)
      invariant forall i, j :: 0 <= i < j < |selected| ==> selected[i] < selected[j]
      invariant forall i :: 0 <= i < |selected| ==> selected[i] < iii
      invariant |selected| == if StrToBool(skip) then iii / 3 else iii
    {
      iSkip := iSkip + 1;
      if StrToBool(skip) && iSkip % 3 != 0 {
        continue;
      }
      selected := selected + [iii];
    }
  }
}
