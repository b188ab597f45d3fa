/**
 * One line of the submission file per detection kept after suppression:
 * the series id, the world coordinates of the box centre on its slice, and
 * the probability.  The file itself is not modelled; the line's values are.
 */
module Submission {
  import opened Wrappers
  import opened Boxes
  import opened Coordinates
  import opened Text

  /** Where the image came from: a 2-D slice file, or slice `iii` of a volume file. */
  datatype Sample = SliceFile(imgName: string) | VolumeSlice(imgName: string, iii: nat)

  /** `CT_parameter[seriesuid]`: the volume's origin and spacing, in z, y, x order. */
  datatype CtParameters = CtParameters(origin: Vec3, spacing: Vec3)

  /** The values of one submission line: `seriesuid, x, y, z, probability`. */
  datatype CsvRow = CsvRow(seriesuid: string, x: real, y: real, z: real, probability: real)

  /** Why a line cannot be produced: `int()` rejects the slice number, or the series has no parameters. */
  datatype RowError = BadSliceName(name: string) | UnknownSeries(seriesuid: string)

  /** The series id and slice index: parsed from a slice file's name, or the volume's root name and loop index. */
  function SeriesAndSlice(s: Sample): (r: Result<(string, int), RowError>)
    ensures r.Failure? ==> s.SliceFile? && r.error == BadSliceName(s.imgName)
    ensures r.Success? && s.SliceFile? ==> '_' !in r.value.0 && r.value.0 + "_" <= s.imgName
    ensures s.VolumeSlice? ==> r.Success? && r.value.0 <= s.imgName && r.value.1 == s.iii
  {
    match s
    case SliceFile(name) =>
      (match SliceNameParts(name)
       case None => Failure(BadSliceName(name))
       case Some(p) => Success(p))
    case VolumeSlice(name, iii) => Success((SplitextRoot(name), iii))
  }

  /**
   * The line for one suppressed box `(x1, y1, x2, y2)` with probability
   * `prob`: the box is mapped back to the original image, its centre is
   * taken, and the voxel `(z, y, x)` is mapped to world coordinates.  It
   * fails exactly when the sample's name cannot be parsed or its series has
   * no parameters; otherwise it carries the series id and the probability.
   */
  function SubmissionRow(s: Sample, box: Row, prob: real, ratio: real, params: map<string, CtParameters>)
    : (r: Result<CsvRow, RowError>)
    requires ratio != 0.0
    ensures var p := SeriesAndSlice(s);
      && (r.Failure? <==> p.Failure? || p.value.0 !in params)
      && (p.Failure? ==> r == Failure(p.error))
      && (p.Success? && p.value.0 !in params ==> r == Failure(UnknownSeries(p.value.0)))
      && (r.Success? ==> r.value.seriesuid == p.value.0 && r.value.probability == prob)
    ensures var p, b := SeriesAndSlice(s), GetRealCoordinates(ratio, box.c0, box.c1, box.c2, box.c3);
      r.Success? ==>
        var ct := params[p.value.0];
        ct.spacing.z != 0.0 && ct.spacing.y != 0.0 && ct.spacing.x != 0.0 ==>
          World2Voxel(Vec3(r.value.z, r.value.y, r.value.x), ct.origin, ct.spacing)
            == Vec3(p.value.1 as real, Center(b).1, Center(b).0)
  {
    var b := GetRealCoordinates(ratio, box.c0, box.c1, box.c2, box.c3);
    match SeriesAndSlice(s)
    case Failure(e) => Failure(e)
    case Success(p) =>
      var (id, z) := p;
      if id !in params then Failure(UnknownSeries(id))
      else
        var c := Center(b);
        var w := Voxel2World(Vec3(z as real, c.1, c.0), params[id].origin, params[id].spacing);
        Success(CsvRow(id, w.x, w.y, w.z, prob))
  }

  /** Whether a line fails does not depend on the box or the probability. */
  lemma FailureIndependentOfBox(s: Sample, box: Row, box': Row, prob: real, prob': real, ratio: real,
                                params: map<string, CtParameters>)
    requires ratio != 0.0
    ensures SubmissionRow(s, box, prob, ratio, params).Failure?
      == SubmissionRow(s, box', prob', ratio, params).Failure?
    ensures SubmissionRow(s, box, prob, ratio, params).Failure?
      ==> SubmissionRow(s, box, prob, ratio, params) == SubmissionRow(s, box', prob', ratio, params)
  {
  }

  /**
   * For a slice file named `<id>_<n>.<ext>` with known parameters, the line
   * is for series `id`; mapping its world point back gives the voxel
   * `(n, centre y, centre x)` of the box on the original image, and the
   * centre lies inside that box.
   */
  lemma SliceFileRow(id: string, n: nat, ext: string, box: Row, prob: real, ratio: real,
                     params: map<string, CtParameters>)
    requires '_' !in id && id in params && ratio > 0.0 && box.c0 <= box.c2 && box.c1 <= box.c3
    requires params[id].spacing.z != 0.0 && params[id].spacing.y != 0.0 && params[id].spacing.x != 0.0
    ensures SubmissionRow(SliceFile(id + "_" + DecimalString(n) + "." + ext), box, prob, ratio, params).Success?
    ensures var r := SubmissionRow(SliceFile(id + "_" + DecimalString(n) + "." + ext), box, prob, ratio, params);
      var b := GetRealCoordinates(ratio, box.c0, box.c1, box.c2, box.c3);
      var v := World2Voxel(Vec3(r.value.z, r.value.y, r.value.x), params[id].origin, params[id].spacing);
      && r.value.seriesuid == id && r.value.probability == prob
      && v == Vec3(n as real, Center(b).1, Center(b).0)
      && b.x1 as real <= v.x <= b.x2 as real && b.y1 as real <= v.y <= b.y2 as real
  {
    var b := GetRealCoordinates(ratio, box.c0, box.c1, box.c2, box.c3);
    SliceNamePartsOf(id, n, ext);
    var c := Center(b);
    GetRealCoordinatesOrdered(ratio, box.c0, box.c1, box.c2, box.c3);
    CenterInside(b);
  }

  /**
   * For slice `iii` of a volume file, the line is for the file's root name
   * and its z coordinate is `iii * spacing + origin`; a file name without
   * an underscore fails as a slice file.
   */
  lemma VolumeSliceRow(name: string, iii: nat, box: Row, prob: real, ratio: real,
                       params: map<string, CtParameters>)
    requires SplitextRoot(name) in params && ratio != 0.0
    ensures var r := SubmissionRow(VolumeSlice(name, iii), box, prob, ratio, params);
      var ct := params[SplitextRoot(name)];
      r.Success? && r.value.seriesuid == SplitextRoot(name) && r.value.probability == prob
      && r.value.z == iii as real * ct.spacing.z + ct.origin.z
    ensures '_' !in name ==> SubmissionRow(SliceFile(name), box, prob, ratio, params) == Failure(BadSliceName(name))
  {
    var id := SplitextRoot(name);
    assert SeriesAndSlice(VolumeSlice(name, iii)) == Success((id, iii));
    var c := Center(GetRealCoordinates(ratio, box.c0, box.c1, box.c2, box.c3));
    var w := Voxel2World(Vec3(iii as real, c.1, c.0), params[id].origin, params[id].spacing);
    assert w.z == iii as real * params[id].spacing.z + params[id].origin.z;
    assert SubmissionRow(VolumeSlice(name, iii), box, prob, ratio, params) == Success(CsvRow(id, w.x, w.y, w.z, prob));
    if '_' !in name {
      SliceNamePartsNoUnderscore(name);
      assert SeriesAndSlice(SliceFile(name)) == Failure(BadSliceName(name));
    }
  }

  /**
   * Where no spacing is zero, the world point of the line for slice `iii`
   * of a volume maps back to the voxel `(iii, centre y, centre x)` of the
   * box on the original image; for a positive ratio and an ordered box
   * that centre lies inside the box.
   */
  lemma VolumeSliceVoxel(name: string, iii: nat, box: Row, prob: real, ratio: real,
                         params: map<string, CtParameters>)
    requires SplitextRoot(name) in params && ratio != 0.0
    ensures var r := SubmissionRow(VolumeSlice(name, iii), box, prob, ratio, params);
      var ct := params[SplitextRoot(name)];
      var b := GetRealCoordinates(ratio, box.c0, box.c1, box.c2, box.c3);
      r.Success? && (ct.spacing.z != 0.0 && ct.spacing.y != 0.0 && ct.spacing.x != 0.0 ==>
        var v := World2Voxel(Vec3(r.value.z, r.value.y, r.value.x), ct.origin, ct.spacing);
        && v == Vec3(iii as real, Center(b).1, Center(b).0)
        && (ratio > 0.0 && box.c0 <= box.c2 && box.c1 <= box.c3 ==>
              b.x1 as real <= v.x <= b.x2 as real && b.y1 as real <= v.y <= b.y2 as real))
  {
    var b := GetRealCoordinates(ratio, box.c0, box.c1, box.c2, box.c3);
    assert SeriesAndSlice(VolumeSlice(name, iii)) == Success((SplitextRoot(name), iii));
    if ratio > 0.0 && box.c0 <= box.c2 && box.c1 <= box.c3 {
      GetRealCoordinatesOrdered(ratio, box.c0, box.c1, box.c2, box.c3);
      CenterInside(b);
    }
  }

  /**
   * The loop over the boxes kept for one class: a line per box, in order.
   * An error raised for a box ends the run; since it does not depend on
   * the box, it is raised at the first one.
   */
  method SubmissionRows(s: Sample, boxes: seq<Row>, probs: seq<real>, ratio: real, params: map<string, CtParameters>)
    returns (rows: seq<CsvRow>, err: Option<RowError>)
    requires ratio != 0.0 && |boxes| == |probs|
    ensures |rows| <= |boxes|
    ensures forall i :: 0 <= i < |rows| ==> SubmissionRow(s, boxes[i], probs[i], ratio, params) == Success(rows[i])
    ensures err.None? ==> |rows| == |boxes|
    ensures err.Some? ==> rows == [] && |boxes| > 0 && SubmissionRow(s, boxes[0], probs[0], ratio, params) == Failure(err.value)
  {
    rows := [];
    err := None;
    for jk := 0 to |boxes|
      invariant |rows| == jk
      invariant forall i :: 0 <= i < jk ==> SubmissionRow(s, boxes[i], probs[i], ratio, params) == Success(rows[i])
    {
      match SubmissionRow(s, boxes[jk], probs[jk], ratio, params)
      case Failure(e) =>
        if jk > 0 {
          FailureIndependentOfBox(s, boxes[0], boxes[jk], probs[0], probs[jk], ratio, params);
        }
        err := Some(e);
        return;
      case Success(r) =>
        rows := rows + [r];
    }
  }
}
