# keras-frcnn lung-nodule inference: a Dafny model of the post-processing

The inference script `keras-frcnn/test_frcnn.py` runs a trained Faster R-CNN
over CT slices and writes one CSV line per detected nodule. This project
models the deterministic part of that script between the two
neural-network calls and the CSV writer. Two library steps in that span are
not modelled: the proposal step `roi_helpers.rpn_to_roi` (line 285), whose
output is taken as the input array, and the suppression step
`roi_helpers.non_max_suppression_fast` (line 342), whose surviving boxes are
taken as input by the submission rows. The project proves properties of the
model:

- `RegionBatcher` (`batching.dfy`): the proposals, converted in place
  from corner form `(x1, y1, x2, y2)` to size form `(x, y, w, h)`. They are
  cut into batches of `num_rois` rows, and the last batch is padded with
  copies of its first row.
- `DetectionDecoder` (`detection.dfy`): the decision for one region.
  A region is dropped below the 0.8 threshold or when the arg-max class is
  the background. Otherwise the model gives the class lookup and the
  regression with its `try`/`except` fallback. The class `Detections` holds
  the `bboxes`/`probs` dictionaries that the loop appends to.
- `ImageDetection` (`image.dfy`): the whole batch loop for one image, with
  the classifier network as a function parameter.
- `Coordinates` (`coordinates.dfy`): `get_real_coordinates`, which does a
  floor division by the resize ratio; `voxel2world`; and the box centre.
- `Text` (`text.dfy`): `str_to_bool`, `str.partition`, `int()` on a
  slice number, and the root of `os.path.splitext`.
- `SliceSkip` (`slices.dfy`): the `--skip` rule, which keeps every third
  slice of a CT volume.
- `ClassMap` (`classmap.dfy`): the insertion of `'bg'` into the class
  mapping and the inversion of that mapping.
- `Submission` (`submission.dfy`): from a detected box to a CSV row
  `seriesuid, x, y, z, probability`, covering both naming schemes of the
  samples.
- `Boxes` (`boxes.dfy`) and `Wrappers` (`wrappers.dfy`): the four-number
  box row, and `Option`/`Result`.

Floating-point numbers are modelled as `real`. Python dictionaries are
modelled as `map`s, or as insertion-ordered `seq`s of pairs where the order
matters (the class mapping). Python's `//` on floats is modelled as
floor division.

Two details of the code decide results at the boundaries:

- The threshold test at line 313 drops a region only when its largest
  probability is `< 0.8`, so a probability of exactly 0.8 is kept
  (`DetectionDecoder.ThresholdInclusive`).
- `get_real_coordinates` floors. `x // ratio` is already integral, so the
  `round` around it changes nothing, and the result is the floor of the
  quotient, not the nearest integer (`Coordinates.FloorDivUnique`).

## Model

| member | source | states |
|---|---|---|
| Text.StrToBool | keras-frcnn/test_frcnn.py:35-36 | `str_to_bool(s)` is true exactly for the 16 upper/lower-case spellings of "true" and false for every other string |
| Text.Lower | keras-frcnn/test_frcnn.py:36 | lower-casing keeps the length, turns every upper-case ASCII letter into its lower-case letter (code point plus 32), and changes no other character |
| Coordinates.FloorDiv | keras-frcnn/test_frcnn.py:133-140 | for a positive ratio, the per-coordinate result `r` satisfies `r * ratio <= c < (r + 1) * ratio` |
| Coordinates.FloorDivUnique | keras-frcnn/test_frcnn.py:133-140 | any integer `r` with `r * ratio <= c < (r + 1) * ratio` is the result, so the result is the floor of `c / ratio` and not the nearest integer |
| Coordinates.FloorDivMonotone | keras-frcnn/test_frcnn.py:133-140 | for a positive ratio, scaling back preserves the order of coordinates |
| Coordinates.GetRealCoordinates | keras-frcnn/test_frcnn.py:133-140 | each of the four returned pixel coordinates lies in the cell `[r * ratio, (r + 1) * ratio)` of its input |
| Coordinates.GetRealCoordinatesOrdered | keras-frcnn/test_frcnn.py:133-140 | a box with `x1 <= x2` and `y1 <= y2` stays ordered after scaling back to the original image |
| Coordinates.Center | keras-frcnn/test_frcnn.py:372 | `x_v` and `y_v` are the midpoints of the real box: twice each is the sum of its two edges |
| Coordinates.CenterInside | keras-frcnn/test_frcnn.py:372 | the centre of an ordered box lies inside the box |
| Coordinates.Voxel2World | keras-frcnn/test_frcnn.py:142-149 | `world = voxel * spacing + origin` per axis; when no spacing is zero, mapping the world point back gives the voxel |
| Coordinates.Voxel2WorldIdentity | keras-frcnn/test_frcnn.py:142-149 | with origin 0 and spacing 1 the world coordinates equal the voxel coordinates |
| Text.Partition | keras-frcnn/test_frcnn.py:366-368 | `s.partition(sep)`: the head, separator and tail concatenate to `s`, the head holds no `sep`, and a missing separator gives an empty separator and tail |
| Text.PartitionAt | keras-frcnn/test_frcnn.py:366-368 | partitioning `a + sep + b`, when `a` holds no `sep`, gives `(a, sep, b)` |
| Text.PartitionAbsent | keras-frcnn/test_frcnn.py:366-368 | a string without `sep` partitions to `(s, "", "")` |
| Text.ParseInt | keras-frcnn/test_frcnn.py:368 | `int()` accepts exactly an optional sign followed by at least one ASCII digit, and gives a negative value only after a `-` |
| Text.ParseZeroPadded | keras-frcnn/test_frcnn.py:368 | `int()` of a zero-padded decimal spelling such as "012" is the number itself |
| Text.ParseDecimalString | keras-frcnn/test_frcnn.py:368 | `int()` reads back the decimal spelling of every natural number and of its negation |
| Text.SplitextRoot | keras-frcnn/test_frcnn.py:371 | `os.path.splitext(name)[0]` is a prefix of the name; when it is shorter, it is cut at the last dot and holds a character other than a dot |
| Text.SplitextRootOf | keras-frcnn/test_frcnn.py:371 | `os.path.splitext(root + "." + ext)[0]` is `root` when `ext` has no dot and `root` is not all dots |
| Text.SliceNameParts | keras-frcnn/test_frcnn.py:366-368 | a parsed slice name yields a series id free of underscores that, followed by `_`, starts the name |
| Text.SliceNamePartsOf | keras-frcnn/test_frcnn.py:366-368 | a slice file named `<id>_<n>.<ext>` with no underscore in `id` yields the series `id` and the slice number `n` |
| Text.SliceNamePartsNoUnderscore | keras-frcnn/test_frcnn.py:366-368 | a name without an underscore leaves an empty number text, which `int()` rejects |
| SliceSkip.SelectSlices | keras-frcnn/test_frcnn.py:259-263 | the slices reaching the detector are exactly those with `i_skip % 3 == 0` when `str_to_bool(skip)` holds, and all of them otherwise; they come in increasing order, `slice_nums / 3` of them when skipping |
| ClassMap.Invert | keras-frcnn/test_frcnn.py:181 | the inverted mapping never has more entries than the dict has items |
| ClassMap.InvertKeys | keras-frcnn/test_frcnn.py:181 | the keys of `{v: k for k, v in items}` are exactly the indices of the mapping |
| ClassMap.InvertLookup | keras-frcnn/test_frcnn.py:181 | an index maps to the name of the last entry holding it, since later entries of the comprehension overwrite earlier ones |
| ClassMap.InvertInjective | keras-frcnn/test_frcnn.py:181 | the inverted map gives distinct names to distinct indices |
| ClassMap.WithBackground | keras-frcnn/test_frcnn.py:178-179 | the old items are kept in order; 'bg' is a name afterwards; nothing changes when it already was one, and otherwise the one added item is `('bg', len(class_mapping))` |
| ClassMap.BackgroundIndex | keras-frcnn/test_frcnn.py:178-181 | when 'bg' is missing, the inverted map sends `len(class_mapping)` to 'bg' and keeps every other index's name |
| ClassMap.BackgroundIsLast | keras-frcnn/test_frcnn.py:178-181 | with distinct names and indices below `n`, the indices stay in `0..n`, index `n` is 'bg', and no lower index is 'bg' |
| ClassMap.BackgroundKeys | keras-frcnn/test_frcnn.py:178-181 | when the indices are exactly `0..n-1`, after inserting 'bg' they are exactly `0..n` |
| ClassMap.ClassMapping.InsertBackground | keras-frcnn/test_frcnn.py:176-179 | the mapping gains 'bg' at index `len(class_mapping)` only if it lacked it, and names stay distinct |
| Boxes.CornerSizeRoundTrip | keras-frcnn/test_frcnn.py:287-289 | the corner-to-size conversion loses nothing: converting back to corners (as the append at line 334 does) gives the original row, and the other way round |
| RegionBatcher.ToSizeForm | keras-frcnn/test_frcnn.py:287-289 | every row of `R` is changed in place from corner form to size form |
| RegionBatcher.Pad | keras-frcnn/test_frcnn.py:300-307 | a padded batch has `num_rois` rows, starts with the slice, and repeats the slice's row 0 after it |
| RegionBatcher.PadSlice | keras-frcnn/test_frcnn.py:302-307 | building the zero array and filling it produces the padded batch |
| RegionBatcher.Slices | keras-frcnn/test_frcnn.py:295-298 | every slice is non-empty and holds at most `num_rois` rows, and every slice but the last is full |
| RegionBatcher.SlicesFlatten | keras-frcnn/test_frcnn.py:295-298 | concatenating the slices in order gives back every proposal exactly once |
| RegionBatcher.Batches | keras-frcnn/test_frcnn.py:295-307 | every batch handed to the classifier has exactly `num_rois` rows |
| RegionBatcher.BatchesCount | keras-frcnn/test_frcnn.py:295-298 | the number of batches is `ceil(n / num_rois)`: `n // num_rois`, plus one if a remainder is left |
| RegionBatcher.SliceIndex | keras-frcnn/test_frcnn.py:296 | slice `jk` is `R[num_rois*jk : num_rois*(jk+1)]`, cut at the end of `R` |
| RegionBatcher.BatchShape | keras-frcnn/test_frcnn.py:296-307 | batch `jk` is slice `jk`, followed by copies of that slice's row 0 up to `num_rois` rows |
| RegionBatcher.RoundStep | keras-frcnn/test_frcnn.py:295-307 | round `jk` of the loop: an empty slice ends it; before round `n // num_rois` the slice is full and is used as is; in that round it is padded and is the last batch |
| RegionBatcher.BatchRegions | keras-frcnn/test_frcnn.py:295-307 | the loop over `jk` yields exactly the specified batches of the converted proposals |
| DetectionDecoder.ArgMax | keras-frcnn/test_frcnn.py:313-316 | `np.argmax`: an index of the maximum, the first one if there are ties |
| DetectionDecoder.ArgMaxUnique | keras-frcnn/test_frcnn.py:313-316 | the first index holding the maximum is the only value `np.argmax` can return |
| DetectionDecoder.MaxProb | keras-frcnn/test_frcnn.py:313-335 | `np.max` of the class probabilities is one of them and no probability exceeds it |
| DetectionDecoder.DecodeRegion | keras-frcnn/test_frcnn.py:313-335 | a kept region's class is not the background, its name is `class_mapping[argmax]`, and its probability is the maximum and at least 0.8 |
| DetectionDecoder.Denormalize | keras-frcnn/test_frcnn.py:327-330 | each delta is divided by its `classifier_regr_std` component, so multiplying back recovers it |
| DetectionDecoder.KeepIff | keras-frcnn/test_frcnn.py:313-316 | a region is kept exactly when a non-background class attains the maximum and the maximum is at least 0.8; it is reported with that probability under the name of the first class attaining it |
| DetectionDecoder.ThresholdInclusive | keras-frcnn/test_frcnn.py:313-314 | a probability of exactly 0.8 is kept, not dropped |
| DetectionDecoder.KeptNotBackground | keras-frcnn/test_frcnn.py:313-316 | when names are distinct, a kept region is never labelled with the background class (the last index) |
| DetectionDecoder.RefinedBox | keras-frcnn/test_frcnn.py:322-333 | the box is the ROI itself when the class's four deltas are missing or `apply_regr` fails, and otherwise the result of `apply_regr` on the std-divided deltas |
| DetectionDecoder.KeptBox | keras-frcnn/test_frcnn.py:334 | the appended box starts at `stride * (x, y)` and has extent `stride * (w, h)` |
| DetectionDecoder.Regress | keras-frcnn/test_frcnn.py:322-333 | the statement-level `try` block (slice, four divisions, `apply_regr`) computes the refined box |
| DetectionDecoder.AccumulateParallel | keras-frcnn/test_frcnn.py:318-335 | appending decisions keeps `bboxes` and `probs` with the same classes and lists of equal length |
| DetectionDecoder.AccumulateClasses | keras-frcnn/test_frcnn.py:318-320 | a class is a key afterwards exactly when it was before or some kept region has it |
| DetectionDecoder.AccumulateBoxes | keras-frcnn/test_frcnn.py:334 | a class's box list grows by exactly the boxes of its kept regions, in order |
| DetectionDecoder.AccumulateProbs | keras-frcnn/test_frcnn.py:335 | a class's probability list grows by exactly the probabilities of its kept regions, in order |
| DetectionDecoder.Detections.AddClass | keras-frcnn/test_frcnn.py:318-320 | a class missing from both dictionaries gets empty lists, and a present class is left alone |
| DetectionDecoder.Detections.Append | keras-frcnn/test_frcnn.py:334-335 | one box and one probability are appended to the class's lists, and nothing else changes |
| DetectionDecoder.Detections.DecodeBatch | keras-frcnn/test_frcnn.py:311-335 | the loop over the regions of one batch appends exactly the decisions of its regions, in order |
| ImageDetection.DecodeBatches | keras-frcnn/test_frcnn.py:292-335 | starting from empty dictionaries, all batches are decoded in order |
| ImageDetection.DetectImage | keras-frcnn/test_frcnn.py:287-335 | one image: conversion in place, batching, classification and decoding give the dictionaries of all decisions of all batches |
| ImageDetection.NoProposals | keras-frcnn/test_frcnn.py:292-298 | no proposals means no batch and empty dictionaries |
| ImageDetection.ImageDetectionsAboveThreshold | keras-frcnn/test_frcnn.py:292-335 | an image's dictionaries hold the same classes with lists of equal length, and every probability in them is at least 0.8 |
| Submission.SubmissionRow | keras-frcnn/test_frcnn.py:344-378 | a CSV row fails exactly when the name cannot be parsed or its series has no CT parameters; otherwise it carries that series and the box's probability, and, where no spacing is zero, its world point maps back to voxel `(slice, centre y, centre x)` of the real box |
| Submission.SeriesAndSlice | keras-frcnn/test_frcnn.py:365-371 | only a slice file's name can fail to parse; a parsed slice file gives an underscore-free series id that, followed by `_`, starts the name; a volume slice gives a prefix of the file name and the loop index |
| Submission.FailureIndependentOfBox | keras-frcnn/test_frcnn.py:366-374 | whether a row fails depends only on the sample name, never on the box or probability |
| Submission.SliceFileRow | keras-frcnn/test_frcnn.py:346-378 | for `<id>_<n>.<ext>` the row is for series `id`, and mapping its world coordinates back gives voxel `(n, centre y, centre x)` of the real box, inside that box |
| Submission.VolumeSliceRow | keras-frcnn/test_frcnn.py:369-376 | for slice `iii` of a volume, the row succeeds for the file's root name with the box's probability and `z = iii * spacing.z + origin.z`; a name without `_` fails as a slice file |
| Submission.VolumeSliceVoxel | keras-frcnn/test_frcnn.py:346-376 | for slice `iii` of a volume, where no spacing is zero, the row's world point maps back to voxel `(iii, centre y, centre x)` of the real box, and that centre lies inside the box for a positive ratio and an ordered box |
| Submission.SubmissionRows | keras-frcnn/test_frcnn.py:343-378 | the rows of the kept boxes, one per box in order, or the failure of the first box when a row cannot be built |

## Left out

- Reading the configuration pickle, the CT parameter pickle, images and `.mhd` volumes (`cv2`, SimpleITK, `load_itk`), `normalizePlanes`, `format_img`, drawing, timing, printing, and writing the CSV file are I/O and are not modelled.
- The RPN and classifier networks and the Keras models are not modelled. The classifier is a function parameter, and the feature map it also receives is left out.
- `roi_helpers.rpn_to_roi` is not part of this model: the proposals are the input array.
- `roi_helpers.apply_regr` is not part of this model. It is a parameter that either returns a box or fails; a failure stands for the exception that the `except` clause swallows.
- `roi_helpers.non_max_suppression_fast` is not part of this model. `Submission.SubmissionRows` takes the boxes left after suppression as its input.
- `class_to_color` uses random numbers and is drawing only; it is not modelled.
- Floating point is modelled as exact `real` arithmetic, so there is no NaN, no infinity and no rounding error. `float()` and `int(round(...))` after a floor are the identity on the values that arise.
- Dictionary iteration order over `bboxes` (line 339) is not modelled, because the dictionaries are `map`s. The order of the lists inside them is modelled.
- RegionBatcher.Batches: requires `num_rois > 0`. In the code, `num_rois == 0` raises `ZeroDivisionError` at line 295.
- DetectionDecoder.DecodeRegion: requires that the class map names every class index the classifier returns. In the code, a missing index raises `KeyError` at line 316.
- DetectionDecoder.Denormalize: requires a nonzero `classifier_regr_std`. A zero there gives `inf` in NumPy, which real numbers cannot represent.
- Text.ParseInt: covers an optional sign followed by ASCII digits only. Python's `int()` also accepts surrounding whitespace, underscores and non-ASCII digits.
- Text.Lower: lower-cases ASCII letters only. Python's `str.lower` also folds non-ASCII letters.
- `--skip`: when the option is absent, it defaults to the boolean `True`, and `str_to_bool(True)` would raise `AttributeError`. The model takes the option as a string. Separately, the output file name gets `_skip` whenever the option is truthy, whatever `str_to_bool` says (lines 62-63); that file name is not modelled. The same `AttributeError` applies to `--ReadFormMHD`: it defaults to the boolean `False`, which reaches `str_to_bool` at line 50, so the script runs only when that option is given as a string.
- SliceSkip.SelectSlices: with skipping on, a 2-D image has one slice, so it is never processed. This follows from the stated contract; no separate lemma is stated for it.
- Submission.SubmissionRow: requires a nonzero resize ratio. With a zero ratio, line 135 raises: the floor division gives an infinity or NaN, which `int(round(...))` cannot convert.
