# Object-detection labels, label-source slicing and raster-source config in Dafny

This project models three parts of Raster Vision's core data layer.

- **`ObjectDetectionLabels`**, the scene-wide set of detections. It stores boxes `(ymin, xmin, ymax, xmax)` in pixel coordinates. Each box has a class id and a score. These are three columns of one TF-style box list, which always stay the same length. The model covers:
  - construction, with scores defaulting to 1.0;
  - conversions between window-local, global and normalised coordinates;
  - concatenation (`+`);
  - windowed writes (`labels[window] = item`), which shift local boxes to global coordinates and append them;
  - windowed reads and `get_overlapping`, which select boxes by intersection over the box's own area (IOA) and can clip them;
  - filtering by areas of interest (AOIs);
  - duplicate pruning by non-maximum suppression (NMS);
  - reading GeoJSON features;
  - the two equalities: `==` on the `{box: (class_id, score)}` dictionary and the positional `assert_equal`.
- **`LabelSource.__getitem__`**, which turns a row slice and an optional column slice into a window over the scene extent. It has rules for rejecting keys.
- **`rs_config_upgrader`**, which drops the retired `extent_crop` field from version-6 raster-source configs. Also **`RasterSourceConfig.validate_extent`**, which turns an extent tuple into a box.

Module layout:

- `boxes.dfy` (`Boxes`): the box, the overlap measures IOA and IoU, and clipping to a window.
- `box_list_ops.dfy` (`BoxListOps`): the box-list operations the label set calls: pruning non-overlapping rows, clipping, and NMS. They are specified from the docstrings at `object_detection_labels.py:245-249` and `:281-287` and from the usual meaning of greedy NMS and clipping. The conventions this adds (zero-area boxes, the clamp, stable ties, the `>=` score test, never dropping a clipped row) are listed under "Left out". The suppression steps take the overlap measure as a parameter; NMS passes IoU. Their properties hold for any measure, and they are proved without unfolding IoU's arithmetic.
- `object_detection_labels.dfy` (`ObjectDetection`): the label set.
  - A label-set value is the `LabelSet` sequence of rows `(box, class id, score)`. Its three columns are derived from the rows.
  - The class `ObjectDetectionLabels` holds the `boxlist` field, which a windowed write replaces.
  - Loops in the source become methods with loop invariants: the GeoJSON reader, `to_dict` and `filter_by_aoi`. Each is proved equal to a specification function.
- `label_source.dfy` (`LabelSource`): the key-to-window translation.
- `raster_source_config.dfy` (`RasterSourceConfig`): the upgrader and the extent validator. The upgrader is a pure function plus an in-place method on a dictionary object.
- `wrappers.dfy` (`Wrappers`): `Option`, `Result` and `Outcome`.

Coordinates are exact reals, because the box arrays are float arrays. Errors the source raises are modelled as `Failure` results:

- `ValueError` when a column's length differs from the number of boxes;
- `KeyError` when a feature has no `class_id`;
- `NotImplementedError`, `TypeError` and failed assertions for bad keys;
- `ConfigError` when a version-6 config still sets `extent_crop`.

## Model

| member | source | states |
|---|---|---|
| Boxes.Ioa | rastervision_core/rastervision/core/data/label/object_detection_labels.py:245-248 | IOA (intersection area over the box's own area) is never negative and is at most 1 for a well-formed box |
| Boxes.IoaOneIffContained | rastervision_core/rastervision/core/data/label/object_detection_labels.py:245-248 | for a box of positive area, IOA reaches 1 exactly when the box lies inside the window |
| Boxes.IoaAtLeastOneIffFullIntersection | rastervision_core/rastervision/core/data/label/object_detection_labels.py:245-248 | IOA is at least 1 exactly when the intersection covers the box's whole area |
| Boxes.IntersectionWithinArea | rastervision_core/rastervision/core/data/label/object_detection_labels.py:245-248 | an intersection area is non-negative and never exceeds the area of a well-formed box |
| Boxes.Iou | rastervision_core/rastervision/core/data/label/object_detection_labels.py:284-285 | IoU is never negative, and it is positive only when the two boxes intersect with positive area |
| Boxes.Clip | rastervision_core/rastervision/core/data/label/object_detection_labels.py:249 | a clipped box lies inside a well-formed window, and a well-formed box already inside is unchanged |
| Boxes.ClipIsIntersection | rastervision_core/rastervision/core/data/label/object_detection_labels.py:255-256 | clipping a well-formed box gives exactly its intersection with the window: side lengths are the overlaps and the area is the intersection area |
| Boxes.IouAtMostOne | rastervision_core/rastervision/core/data/label/object_detection_labels.py:284-285 | IoU of two well-formed boxes lies in [0, 1], so merge thresholds compare against a proper ratio |
| BoxListOps.Filter | rastervision_core/rastervision/core/data/label/object_detection_labels.py:253-254 | never longer than the input, and a row is kept exactly when the predicate holds for it |
| BoxListOps.FilterSubset | rastervision_core/rastervision/core/data/label/object_detection_labels.py:253-254 | the kept rows are a sub-multiset of the input: nothing is duplicated |
| BoxListOps.FilterNonIncreasing | rastervision_core/rastervision/core/data/label/object_detection_labels.py:253-254 | filtering keeps the relative order of rows, so score order survives it |
| BoxListOps.FilterAppend | rastervision_core/rastervision/core/data/label/object_detection_labels.py:253-254 | filtering a concatenation is concatenating the filtered parts, so selection preserves order |
| BoxListOps.FilterKeepsAll | rastervision_core/rastervision/core/data/label/object_detection_labels.py:253-254 | when every row passes, filtering returns the input unchanged |
| BoxListOps.PruneNonOverlapping | rastervision_core/rastervision/core/data/label/object_detection_labels.py:253-254 | keeps exactly the rows whose IOA with the window is at least the threshold, as a sub-multiset of the input |
| BoxListOps.ClipToWindow | rastervision_core/rastervision/core/data/label/object_detection_labels.py:255-256 | no row is dropped; each box becomes its clip to the window, with class id and score kept; in a well-formed window every box lies inside it and has the intersection's area |
| BoxListOps.Insert | rastervision_core/rastervision/core/data/label/object_detection_labels.py:294-298 | inserting into the score-sorted sequence adds exactly that row |
| BoxListOps.InsertNonIncreasing | rastervision_core/rastervision/core/data/label/object_detection_labels.py:294-298 | inserting into a score-sorted sequence keeps it sorted |
| BoxListOps.SortByScore | rastervision_core/rastervision/core/data/label/object_detection_labels.py:294-298 | the result is a permutation of the input with non-increasing scores |
| BoxListOps.Suppress | rastervision_core/rastervision/core/data/label/object_detection_labels.py:284-285 | suppression never lengthens the candidate list, so the greedy selection terminates |
| BoxListOps.SuppressIsFilter | rastervision_core/rastervision/core/data/label/object_detection_labels.py:284-285 | suppression is the order-keeping filter with the predicate "overlap with the selected box at most the merge threshold" |
| BoxListOps.SuppressMembers | rastervision_core/rastervision/core/data/label/object_detection_labels.py:284-285 | a row survives suppression exactly when its overlap with the selected box does not exceed the merge threshold |
| BoxListOps.SuppressSubset | rastervision_core/rastervision/core/data/label/object_detection_labels.py:284-285 | the survivors are a sub-multiset of the candidates |
| BoxListOps.SuppressNonIncreasing | rastervision_core/rastervision/core/data/label/object_detection_labels.py:294-298 | suppression keeps the candidates' score order |
| BoxListOps.Greedy | rastervision_core/rastervision/core/data/label/object_detection_labels.py:286-287 | takes at most `max_output_size` rows from the sorted candidates, starting with the best one |
| BoxListOps.GreedySubset | rastervision_core/rastervision/core/data/label/object_detection_labels.py:286-287 | the selection is a sub-multiset of the sorted candidates |
| BoxListOps.GreedyLength | rastervision_core/rastervision/core/data/label/object_detection_labels.py:286-287 | the greedy selection never takes more rows than it is given |
| BoxListOps.GreedyPairwiseSeparated | rastervision_core/rastervision/core/data/label/object_detection_labels.py:284-285 | no two selected boxes overlap by more than the merge threshold |
| BoxListOps.GreedyNonIncreasing | rastervision_core/rastervision/core/data/label/object_detection_labels.py:294-298 | the selected rows come out in non-increasing score order |
| BoxListOps.GreedyComplete | rastervision_core/rastervision/core/data/label/object_detection_labels.py:284-287 | from score-sorted candidates, any given candidate is selected, or suppressed by a selected box scoring at least as high and overlapping it by more than the threshold, or cut off because the output limit was reached by selected boxes that all score at least as high |
| BoxListOps.NonMaxSuppression | rastervision_core/rastervision/core/data/label/object_detection_labels.py:281-287 | a sub-multiset of at most `max_output_size` rows, all scoring at least the score threshold, sorted by score, pairwise within the merge threshold, and every candidate is selected, cut off by a full output whose rows all score at least as high, or suppressed by a selected box that scores at least as high and overlaps it by more than the merge threshold |
| ObjectDetection.Ones | rastervision_core/rastervision/core/data/label/object_detection_labels.py:41-43 | the default scores: one 1.0 per class id |
| ObjectDetection.Make | rastervision_core/rastervision/core/data/label/object_detection_labels.py:23-44 | succeeds exactly when the class-id and score columns match the box count; its columns are then the given ones, and omitted scores are all 1.0 |
| ObjectDetection.MakeEmpty | rastervision_core/rastervision/core/data/label/object_detection_labels.py:98-103 | the empty label set is what three empty columns build |
| ObjectDetection.FromBoxList | rastervision_core/rastervision/core/data/label/object_detection_labels.py:105-111 | a box list without `classes` fails; with `classes` it succeeds exactly when the columns match the box count; the box and class columns are then the box list's, and the scores are the box list's or all 1.0 |
| ObjectDetection.FromBoxListOfToBoxList | rastervision_core/rastervision/core/data/label/object_detection_labels.py:105-111 | rebuilding labels from their own box list gives back the same labels |
| ObjectDetection.MakeOfColumns | rastervision_core/rastervision/core/data/label/object_detection_labels.py:23-44 | construction from a label set's own three columns gives back that label set |
| ObjectDetection.LocalToGlobal | rastervision_core/rastervision/core/data/label/object_detection_labels.py:193-202 | columns 0 and 2 gain `window.ymin`, and columns 1 and 3 gain `window.xmin` |
| ObjectDetection.GlobalToLocal | rastervision_core/rastervision/core/data/label/object_detection_labels.py:204-213 | the same offsets are subtracted |
| ObjectDetection.LocalGlobalRoundTrip | rastervision_core/rastervision/core/data/label/object_detection_labels.py:193-213 | each shift undoes the other, in both orders |
| ObjectDetection.LocalToNormalized | rastervision_core/rastervision/core/data/label/object_detection_labels.py:215-223 | no finite result for a non-empty box array over a window of zero height or width; an empty array stays empty; otherwise scaling back by the window size gives the input |
| ObjectDetection.NormalizedToLocal | rastervision_core/rastervision/core/data/label/object_detection_labels.py:225-233 | y columns are multiplied by the window height and x columns by its width |
| ObjectDetection.NormalizedRoundTrip | rastervision_core/rastervision/core/data/label/object_detection_labels.py:215-233 | when the window has non-zero size, the two normalisations invert each other in both orders |
| ObjectDetection.NormalizedInUnitSquare | rastervision_core/rastervision/core/data/label/object_detection_labels.py:215-223 | well-formed local boxes inside a window of positive size normalise into the unit square |
| ObjectDetection.Concatenate | rastervision_core/rastervision/core/data/label/object_detection_labels.py:260-271 | the length is the sum; the box, class-id and score columns are the first operand's followed by the second's |
| ObjectDetection.ConcatenateMonoid | rastervision_core/rastervision/core/data/label/object_detection_labels.py:260-271 | the empty label set is a unit of concatenation, and concatenation is associative |
| ObjectDetection.GetOverlapping | rastervision_core/rastervision/core/data/label/object_detection_labels.py:235-258 | the result is exactly the rows whose IOA reaches the threshold, in stored order; without clipping they are unchanged (a sub-multiset of the input); with clipping each keeps its class id and score and its box is clipped to the window, inside it when the window is well formed |
| ObjectDetection.GetOverlappingOfConcatenate | rastervision_core/rastervision/core/data/label/object_detection_labels.py:235-271 | the overlap query distributes over concatenation, clipped or not, so selection keeps stored order |
| ObjectDetection.GetOverlappingZeroThreshold | rastervision_core/rastervision/core/data/label/object_detection_labels.py:235-258 | a threshold of at most 0 returns the labels unchanged |
| ObjectDetection.GetOverlappingFullThreshold | rastervision_core/rastervision/core/data/label/object_detection_labels.py:235-258 | for boxes of positive area, a threshold of 1 keeps exactly the boxes inside the window |
| ObjectDetection.PruneDuplicates | rastervision_core/rastervision/core/data/label/object_detection_labels.py:273-299 | at most `max_output_size` rows (default: all of them), a sub-multiset of the input, every score at least `score_thresh`, sorted by score, no two above the merge IoU, and every candidate at or above `score_thresh` is kept, cut off by a full output whose rows all score at least as high, or suppressed by a kept box that scores at least as high and overlaps it above the merge IoU |
| ObjectDetection.PruneDuplicatesKeepsStrongerBox | rastervision_core/rastervision/core/data/label/object_detection_labels.py:279-285 | of two boxes with IoU 0.81 and merge threshold 0.5, only the higher-scoring one is kept |
| ObjectDetection.Eq | rastervision_core/rastervision/core/data/label/object_detection_labels.py:50-52 | `==` compares the two dictionaries; it is reflexive, and equal label sets hold the same set of boxes |
| ObjectDetection.AssertEqual | rastervision_core/rastervision/core/data/label/object_detection_labels.py:67-73 | `assert_equal` compares the three columns position by position; identical labels pass, and passing labels have the same length |
| ObjectDetection.ToBoxList | rastervision_core/rastervision/core/data/label/object_detection_labels.py:176-177 | the box list holds the box column with `classes` and `scores` fields of the same length, row by row |
| ObjectDetection.LabelSet.NpBoxes | rastervision_core/rastervision/core/data/label/object_detection_labels.py:159-160 | the box column has one box per row, in row order |
| ObjectDetection.LabelSet.Scores | rastervision_core/rastervision/core/data/label/object_detection_labels.py:162-165 | the score column has one score per row, in row order |
| ObjectDetection.LabelSet.ClassIds | rastervision_core/rastervision/core/data/label/object_detection_labels.py:167-168 | the class-id column has one class id per row, in row order |
| ObjectDetection.DictOf | rastervision_core/rastervision/core/data/label/object_detection_labels.py:179-191 | the dictionary's keys are exactly the boxes of the rows |
| ObjectDetection.DictOfLastWins | rastervision_core/rastervision/core/data/label/object_detection_labels.py:188-190 | a box maps to the class id and score of the last row holding it |
| ObjectDetection.AssertEqualIffSameRows | rastervision_core/rastervision/core/data/label/object_detection_labels.py:67-73 | the positional comparison passes exactly when the row sequences are identical |
| ObjectDetection.EqIgnoresOrder | rastervision_core/rastervision/core/data/label/object_detection_labels.py:50-52 | with distinct boxes, `==` holds for any two arrangements of the same rows |
| ObjectDetection.AssertEqualImpliesEq | rastervision_core/rastervision/core/data/label/object_detection_labels.py:50-73 | labels that pass `assert_equal` are also `==` |
| ObjectDetection.EqIsNotAssertEqual | rastervision_core/rastervision/core/data/label/object_detection_labels.py:50-73 | two rows in swapped order are `==` but fail `assert_equal` |
| ObjectDetection.EqCollapsesDuplicateBoxes | rastervision_core/rastervision/core/data/label/object_detection_labels.py:179-191 | two rows sharing a box compare `==` to the later row alone |
| ObjectDetection.WithinSomeAoi | rastervision_core/rastervision/core/data/label/object_detection_labels.py:85-90 | the scan over AOIs that stops at the first match reports whether the box is within some AOI |
| ObjectDetection.RowsWithinSomeAoi | rastervision_core/rastervision/core/data/label/object_detection_labels.py:83-90 | the outer loop over rows keeps, in order, exactly the rows the AOI scan accepts |
| ObjectDetection.FilterByAoiOf | rastervision_core/rastervision/core/data/label/object_detection_labels.py:75-96 | a sub-multiset holding exactly the rows whose box is within at least one AOI |
| ObjectDetection.FilterByAoiDropsStraddlingBox | rastervision_core/rastervision/core/data/label/object_detection_labels.py:84-86 | a box that intersects its only AOI but crosses the AOI's boundary is dropped |
| ObjectDetection.RowsOf | rastervision_core/rastervision/core/data/label/object_detection_labels.py:132-139 | one row per feature, in order, with the bounds reordered to `(ymin, xmin, ymax, xmax)` and the score defaulting to 1.0 |
| ObjectDetection.FromGeojsonOf | rastervision_core/rastervision/core/data/label/object_detection_labels.py:113-153 | fails exactly when some feature lacks `class_id`; without an extent, one row per feature with the bounds reordered and the score defaulting to 1.0; with an extent, exactly the rows at least 80% inside it by IOA, in order, clipped to it, so every box lies inside a well-formed extent |
| ObjectDetection.FromGeojsonExtentThreshold | rastervision_core/rastervision/core/data/label/object_detection_labels.py:150-152 | with an extent, a feature 90% inside is kept and clipped, and one 50% inside is dropped |
| ObjectDetection.FromGeojson | rastervision_core/rastervision/core/data/label/object_detection_labels.py:113-153 | the feature loop and its `make_empty` and extent branches compute the GeoJSON specification |
| ObjectDetection.ObjectDetectionLabels.constructor | rastervision_core/rastervision/core/data/label/object_detection_labels.py:23-44 | the new object holds the labels the three columns build, with both fields present |
| ObjectDetection.ObjectDetectionLabels.Len | rastervision_core/rastervision/core/data/label/object_detection_labels.py:170-171 | the box count, which equals the lengths of the class-id and score columns |
| ObjectDetection.ObjectDetectionLabels.Add | rastervision_core/rastervision/core/data/label/object_detection_labels.py:46-48 | `a + b` has `a`'s rows followed by `b`'s |
| ObjectDetection.ObjectDetectionLabels.GetItem | rastervision_core/rastervision/core/data/label/object_detection_labels.py:64-65 | `labels[window]` is the unclipped overlap query with IOA threshold 0.5: exactly the stored rows at least half inside the window, in stored order |
| ObjectDetection.ObjectDetectionLabels.SetItem | rastervision_core/rastervision/core/data/label/object_detection_labels.py:54-62 | succeeds exactly when the item's columns match; then the old rows are followed by the item's boxes shifted by the window offset, with their class ids and scores (default 1.0); otherwise the labels are unchanged |
| ObjectDetection.ObjectDetectionLabels.ToDict | rastervision_core/rastervision/core/data/label/object_detection_labels.py:179-191 | the loop builds the dictionary in which later rows overwrite earlier ones |
| ObjectDetection.ObjectDetectionLabels.FilterByAoi | rastervision_core/rastervision/core/data/label/object_detection_labels.py:75-96 | the nested loop keeps, in order, exactly the rows within some AOI, and gives the empty set when none qualify |
| LabelSource.WindowOf | rastervision_core/rastervision/core/data/label_source/label_source.py:50-79 | box keys are not implemented; other non-slice, non-tuple keys are a type error; a tuple must hold one or two slices; a slice pair with a negative bound is not implemented; missing starts are 0, missing stops are the extent's `ymax`/`xmax`, and steps are ignored |
| LabelSource.RowSliceForms | rastervision_core/rastervision/core/data/label_source/label_source.py:53-68 | a bare slice, a 1-tuple and a 2-tuple with an unbounded column slice give the same window |
| LabelSource.FullKeyWindow | rastervision_core/rastervision/core/data/label_source/label_source.py:74-79 | `[:, :]` spans from the origin to the extent's `ymax`/`xmax`, not from the extent's own corner |
| LabelSource.WindowMatchesSliceLengths | rastervision_core/rastervision/core/data/label_source/label_source.py:74-79 | bounded slices with start before stop give a well-formed window exactly as tall and wide as the slices, whatever their steps |
| LabelSource.NegativeBoundRejected | rastervision_core/rastervision/core/data/label_source/label_source.py:70-72 | any negative start or stop on either slice is rejected as not implemented |
| LabelSource.GetItemAsWritten | rastervision_core/rastervision/core/data/label_source/label_source.py:50-52 | as written, every key fails with a NameError for `Box`, raised before the key is examined |
| LabelSource.AsWrittenRejectsValidSlice | rastervision_core/rastervision/core/data/label_source/label_source.py:4-6 | as written, the slice `[0:10]` fails, although the intended rules give a window |
| RasterSourceConfig.UpgradedOf | rastervision_core/rastervision/core/data/raster_source/raster_source_config.py:13-22 | version 6 fails exactly when `extent_crop` is set to a non-None value; otherwise it leaves no `extent_crop` key and an absent key changes nothing; other versions are unchanged; other keys are always untouched |
| RasterSourceConfig.UpgradeIdempotent | rastervision_core/rastervision/core/data/raster_source/raster_source_config.py:13-22 | upgrading an upgraded version-6 dictionary again changes nothing |
| RasterSourceConfig.ConfigDict.Upgrade | rastervision_core/rastervision/core/data/raster_source/raster_source_config.py:13-22 | the in-place deletion leaves the dictionary the upgrade specification gives; on the error the dictionary is untouched |
| RasterSourceConfig.ValidateExtent | rastervision_core/rastervision/core/data/raster_source/raster_source_config.py:51-55 | None stays None; a tuple becomes the box with the same `(ymin, xmin, ymax, xmax)` |
| RasterSourceConfig.ValidateExtentInjective | rastervision_core/rastervision/core/data/raster_source/raster_source_config.py:51-55 | two configured extents give the same box exactly when they are the same tuple, so validation loses nothing |
| RasterSourceConfig.ValidateExtentWellFormed | rastervision_core/rastervision/core/data/raster_source/raster_source_config.py:51-55 | the box is well formed exactly when the tuple's minima do not exceed its maxima |

## Left out

- `ObjectDetectionLabels.save` writes through a GeoJSON label store. This is file I/O and a call into code that is not part of this model.
- `__str__` only returns the string form of the box array. `get_boxes` only converts rows to `Box` objects; `LabelSet.NpBoxes` holds the same information.
- The label stores are file and raster I/O, and they are not part of this model.
- The internals of `BoxList`, `np_box_list_ops` and `Box` are not part of this model. They are specified from the docstrings at `object_detection_labels.py:245-249` and `:281-287` and from the usual meaning of greedy NMS and clipping; the conventions this adds are listed below. Boxes are plain values, and `to_dict` keys on the box rather than on its `tuple_format()` tuple, which holds the same four numbers.
- Boxes.Ioa: a box of zero or negative area has IOA 0. The docstring defines IOA as a plain ratio, which for a zero-area box is 0/0; NumPy would give NaN, which fails every threshold test, so such a box would never be kept. The model keeps it under a threshold of 0 or less (see `GetOverlappingZeroThreshold`).
- Boxes.Iou: two boxes whose union has no positive area have IoU 0. The ratio would be 0/0 in NumPy.
- Floating-point rounding in IOA, IoU, the normalised conversions and the local/global coordinate shifts is not modelled. Arithmetic is exact over the reals, so LocalGlobalRoundTrip holds exactly, while in float64 a shift can lose precision (`0.1 + 1e17 - 1e17` is 0).
- Shapely is not modelled. A feature's geometry is given by its bounds, `Polygon.within` is the parameter `within`, and `RectWithin` is the rectangle instance.
- A GeoJSON feature without `geometry` or `properties` is not modelled. Only a missing `class_id` is.
- A windowed-write item without `boxes` or `class_ids` is not modelled. `WindowItem` always carries both.
- `__eq__`'s `isinstance` test is not modelled: both operands are always label sets here.
- The validation errors that the unseen NMS helper may raise are not modelled. Examples are thresholds outside [0, 1] or a box list without scores.
- BoxListOps.NonMaxSuppression: the order among equal scores is stable. This is a choice, because the helper's tie order is not part of this model.
- BoxListOps.NonMaxSuppression: a row whose score equals the threshold is kept, following the docstring ("Prune boxes with score less than this threshold"). The unseen helper may compare strictly.
- Boxes.Clip: each coordinate is clamped into the window's range, the usual meaning of clipping; the clipping helper itself is not part of this model.
- BoxListOps.ClipToWindow: never drops a row. A clipping helper that also drops boxes of zero area after clipping would differ only for rows kept by an IOA threshold of 0 or less, since a positive threshold already drops rows that do not overlap the window.
- ObjectDetection.LocalToNormalized: a non-empty box array over a window of zero height or width gives `None`. NumPy would give arrays of infinities or NaN. An empty array is divided by nothing and stays empty, as in NumPy.
- ObjectDetection.ObjectDetectionLabels.constructor: requires columns of matching lengths. The mismatch error path is modelled by `Make`, which `SetItem` uses.
- The final `self[window]` in `LabelSource.__getitem__`, and the abstract `get_labels`, `extent`, `crs_transformer` and `set_extent`, are not modelled. Their behaviour belongs to the concrete label sources.
- LabelSource.WindowOf: slice bounds are integers. Comparing a non-numeric bound with 0 would raise in Python, and that is not modelled.
- `RasterSourceConfig.build` only raises `NotImplementedError`. `update` delegates to transformer configs. Config registration and validation machinery is framework code. None of these are modelled.

## Findings

| source | as written | input that shows it | evidently intended | confidence | as-written member | corrected member |
|---|---|---|---|---|---|---|
| rastervision_core/rastervision/core/data/label_source/label_source.py:4-6 | `Box` is imported only under `if TYPE_CHECKING:`, but line 51 evaluates `isinstance(key, Box)` at run time, so every call raises `NameError` before the key is examined | `source[0:10]`; `LabelSource.AsWrittenRejectsValidSlice` shows the failure next to the window `(0, 0, 10, extent.xmax)` the rules give | the key rules of lines 51-79: box keys not implemented, slices and tuples translated to a window | high; not executed | LabelSource.GetItemAsWritten | LabelSource.WindowOf |
