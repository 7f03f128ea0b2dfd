/**
 * Object-detection labels: a set of boxes with their class ids and scores,
 * kept as one box list whose `classes` and `scores` columns always run in
 * step with the boxes. A label set is the sequence of its rows; the class
 * ObjectDetectionLabels holds the box list that windowed writes replace.
 */
module ObjectDetection {
  import opened Wrappers
  import opened Boxes
  import opened BoxListOps

  datatype LabelError =
    | FieldLengthMismatch(field: string)  // a column whose length differs from the number of boxes
    | MissingField(field: string)         // a box list without the `classes` column
    | MissingProperty(name: string)       // a GeoJSON feature without `class_id`

  /** The value of a label set: its rows, in stored order. */
  datatype LabelSet = LabelSet(rows: seq<Row>) {

    function Len(): nat {
      |rows|
    }

    /** The box column, `(ymin, xmin, ymax, xmax)` per row. */
    function NpBoxes(): (r: seq<Box>)
      ensures |r| == |rows| && forall i :: 0 <= i < |rows| ==> r[i] == rows[i].box
    {
      seq(|rows|, i requires 0 <= i < |rows| => rows[i].box)
    }

    function ClassIds(): (r: seq<int>)
      ensures |r| == |rows| && forall i :: 0 <= i < |rows| ==> r[i] == rows[i].classId
    {
      seq(|rows|, i requires 0 <= i < |rows| => rows[i].classId)
    }

    function Scores(): (r: seq<real>)
      ensures |r| == |rows| && forall i :: 0 <= i < |rows| ==> r[i] == rows[i].score
    {
      seq(|rows|, i requires 0 <= i < |rows| => rows[i].score)
    }
  }

  /** The source's `BoxList` as this core uses it: boxes plus two optional columns. */
  datatype BoxList = BoxList(boxes: seq<Box>, classes: Option<seq<int>>, scores: Option<seq<real>>)

  /** The payload of a windowed write: window-local boxes, class ids, optional scores. */
  datatype WindowItem = WindowItem(boxes: seq<Box>, classIds: seq<int>, scores: Option<seq<real>>)

  function Ones(n: nat): (r: seq<real>)
    ensures |r| == n && forall i :: 0 <= i < n ==> r[i] == 1.0
  {
    seq(n, _ => 1.0)
  }

  /**
   * Construction from three columns. Adding a column whose length differs from
   * the number of boxes fails; missing scores default to 1.0.
   */
  function Make(npboxes: seq<Box>, classIds: seq<int>, scores: Option<seq<real>>): (r: Result<LabelSet, LabelError>)
    ensures r.Success? <==> |classIds| == |npboxes| && (scores.Some? ==> |scores.value| == |npboxes|)
    ensures r.Success? ==> r.value.NpBoxes() == npboxes && r.value.ClassIds() == classIds
    ensures r.Success? && scores.Some? ==> r.value.Scores() == scores.value
    ensures r.Success? && scores.None? ==> forall i :: 0 <= i < r.value.Len() ==> r.value.rows[i].score == 1.0
  {
    if |classIds| != |npboxes| then Failure(FieldLengthMismatch("classes"))
    else
      var s := scores.GetOr(Ones(|classIds|));
      if |s| != |npboxes| then Failure(FieldLengthMismatch("scores"))
      else Success(LabelSet(seq(|npboxes|, i requires 0 <= i < |npboxes| => Row(npboxes[i], classIds[i], s[i]))))
  }

  /** The label set with no rows, built from three empty columns. */
  function MakeEmpty(): (r: LabelSet)
    ensures r.Len() == 0
    ensures Make([], [], Some([])) == Success(r)
  {
    LabelSet([])
  }

  /** `to_boxlist`: the box column with the class ids and scores as its two extra fields. */
  function ToBoxList(labels: LabelSet): (r: BoxList)
    ensures |r.boxes| == labels.Len() && r.classes.Some? && r.scores.Some?
    ensures |r.classes.value| == labels.Len() && |r.scores.value| == labels.Len()
    ensures forall i :: 0 <= i < labels.Len() ==>
              r.boxes[i] == labels.rows[i].box && r.classes.value[i] == labels.rows[i].classId &&
              r.scores.value[i] == labels.rows[i].score
  {
    BoxList(labels.NpBoxes(), Some(labels.ClassIds()), Some(labels.Scores()))
  }

  /** Rebuild labels from a box list: `classes` is required, `scores` defaults to 1.0. */
  function FromBoxList(boxlist: BoxList): (r: Result<LabelSet, LabelError>)
    ensures boxlist.classes.None? ==> r == Failure(MissingField("classes"))
    ensures boxlist.classes.Some? ==>
              (r.Success? <==> |boxlist.classes.value| == |boxlist.boxes| &&
                               (boxlist.scores.Some? ==> |boxlist.scores.value| == |boxlist.boxes|))
    ensures r.Success? ==> r.value.NpBoxes() == boxlist.boxes && Some(r.value.ClassIds()) == boxlist.classes
    ensures r.Success? ==> r.value.Scores() == boxlist.scores.GetOr(Ones(|boxlist.boxes|))
  {
    if boxlist.classes.None? then Failure(MissingField("classes"))
    else Make(boxlist.boxes, boxlist.classes.value, boxlist.scores)
  }

  /** Splitting labels into columns and rebuilding them gives the same labels. */
  lemma {:induction false} FromBoxListOfToBoxList(labels: LabelSet)
    ensures FromBoxList(ToBoxList(labels)) == Success(labels)
  {
    var r := FromBoxList(ToBoxList(labels));
    assert r.Success?;
    assert |r.value.rows| == |labels.rows|;
    forall i | 0 <= i < |labels.rows| ensures r.value.rows[i] == labels.rows[i] {
      assert r.value.NpBoxes()[i] == labels.NpBoxes()[i];
      assert r.value.ClassIds()[i] == labels.ClassIds()[i];
      assert r.value.Scores()[i] == labels.Scores()[i];
    }
    assert r.value.rows == labels.rows;
  }

  /** Rebuilding labels from their own columns gives the same labels. */
  lemma {:induction false} MakeOfColumns(labels: LabelSet)
    ensures Make(labels.NpBoxes(), labels.ClassIds(), Some(labels.Scores())) == Success(labels)
  {
    FromBoxListOfToBoxList(labels);
  }

  // ----- coordinate frames -----

  function ShiftBox(b: Box, dy: real, dx: real): Box {
    Box(b.ymin + dy, b.xmin + dx, b.ymax + dy, b.xmax + dx)
  }

  function ScaleBox(b: Box, sy: real, sx: real): Box {
    Box(b.ymin * sy, b.xmin * sx, b.ymax * sy, b.xmax * sx)
  }

  /** Window-local to global: columns 0 and 2 gain `window.ymin`, columns 1 and 3 gain `window.xmin`. */
  function LocalToGlobal(npboxes: seq<Box>, window: Box): (r: seq<Box>)
    ensures |r| == |npboxes|
    ensures forall i :: 0 <= i < |r| ==>
              r[i].ymin == npboxes[i].ymin + window.ymin && r[i].ymax == npboxes[i].ymax + window.ymin &&
              r[i].xmin == npboxes[i].xmin + window.xmin && r[i].xmax == npboxes[i].xmax + window.xmin
  {
    seq(|npboxes|, i requires 0 <= i < |npboxes| => ShiftBox(npboxes[i], window.ymin, window.xmin))
  }

  /** Global to window-local: the same offsets subtracted. */
  function GlobalToLocal(npboxes: seq<Box>, window: Box): (r: seq<Box>)
    ensures |r| == |npboxes|
    ensures forall i :: 0 <= i < |r| ==>
              r[i].ymin == npboxes[i].ymin - window.ymin && r[i].ymax == npboxes[i].ymax - window.ymin &&
              r[i].xmin == npboxes[i].xmin - window.xmin && r[i].xmax == npboxes[i].xmax - window.xmin
  {
    seq(|npboxes|, i requires 0 <= i < |npboxes| => ShiftBox(npboxes[i], -window.ymin, -window.xmin))
  }

  /** Global to local undoes local to global, exactly. */
  lemma LocalGlobalRoundTrip(npboxes: seq<Box>, window: Box)
    ensures GlobalToLocal(LocalToGlobal(npboxes, window), window) == npboxes
    ensures LocalToGlobal(GlobalToLocal(npboxes, window), window) == npboxes
  {
  }

  /**
   * Window-local to normalised: y columns divided by the window height and x
   * columns by its width. A non-empty box array over a window of zero height
   * or width has no finite result (the division yields infinities or NaN),
   * modelled as None; an empty array stays empty, since nothing is divided.
   */
  function LocalToNormalized(npboxes: seq<Box>, window: Box): (r: Option<seq<Box>>)
    ensures r.None? <==> |npboxes| > 0 && (window.Height() == 0.0 || window.Width() == 0.0)
    ensures npboxes == [] ==> r == Some([])
    ensures r.Some? ==> (|r.value| == |npboxes| &&
              forall i :: 0 <= i < |npboxes| ==> ScaleBox(r.value[i], window.Height(), window.Width()) == npboxes[i])
  {
    var h, w := window.Height(), window.Width();
    if |npboxes| > 0 && (h == 0.0 || w == 0.0) then None
    else Some(seq(|npboxes|, i requires 0 <= i < |npboxes| && h != 0.0 && w != 0.0 => ScaleBox(npboxes[i], 1.0 / h, 1.0 / w)))
  }

  /** Normalised to window-local: y columns times the window height, x columns times its width. */
  function NormalizedToLocal(npboxes: seq<Box>, window: Box): (r: seq<Box>)
    ensures |r| == |npboxes|
    ensures forall i :: 0 <= i < |r| ==> r[i] == ScaleBox(npboxes[i], window.Height(), window.Width())
  {
    seq(|npboxes|, i requires 0 <= i < |npboxes| => ScaleBox(npboxes[i], window.Height(), window.Width()))
  }

  /** On a window of non-zero size the two normalisations invert each other. */
  lemma {:induction false} NormalizedRoundTrip(npboxes: seq<Box>, window: Box)
    requires window.Height() != 0.0 && window.Width() != 0.0
    ensures LocalToNormalized(npboxes, window).Some?
    ensures NormalizedToLocal(LocalToNormalized(npboxes, window).value, window) == npboxes
    ensures LocalToNormalized(NormalizedToLocal(npboxes, window), window) == Some(npboxes)
  {
    var h, w := window.Height(), window.Width();
    var there := NormalizedToLocal(LocalToNormalized(npboxes, window).value, window);
    var back := LocalToNormalized(NormalizedToLocal(npboxes, window), window).value;
    forall i | 0 <= i < |npboxes| ensures there[i] == npboxes[i] && back[i] == npboxes[i] {
      ScaleInverse(npboxes[i], h, w);
    }
    assert there == npboxes;
    assert back == npboxes;
  }

  lemma ScaleInverse(b: Box, h: real, w: real)
    requires h != 0.0 && w != 0.0
    ensures ScaleBox(ScaleBox(b, h, w), 1.0 / h, 1.0 / w) == b
    ensures ScaleBox(ScaleBox(b, 1.0 / h, 1.0 / w), h, w) == b
  {
    assert b.ymin * h * (1.0 / h) == b.ymin && b.ymin * (1.0 / h) * h == b.ymin;
    assert b.ymax * h * (1.0 / h) == b.ymax && b.ymax * (1.0 / h) * h == b.ymax;
    assert b.xmin * w * (1.0 / w) == b.xmin && b.xmin * (1.0 / w) * w == b.xmin;
    assert b.xmax * w * (1.0 / w) == b.xmax && b.xmax * (1.0 / w) * w == b.xmax;
  }

  /** A well-formed local box inside a window of positive size normalises into the unit square. */
  lemma {:induction false} NormalizedInUnitSquare(npboxes: seq<Box>, window: Box)
    requires window.Height() > 0.0 && window.Width() > 0.0
    requires forall i :: 0 <= i < |npboxes| ==>
               npboxes[i].WellFormed() && Contains(Box(0.0, 0.0, window.Height(), window.Width()), npboxes[i])
    ensures forall i :: 0 <= i < |npboxes| ==>
              Contains(Box(0.0, 0.0, 1.0, 1.0), LocalToNormalized(npboxes, window).value[i])
  {
    var h, w := window.Height(), window.Width();
    forall i | 0 <= i < |npboxes|
      ensures Contains(Box(0.0, 0.0, 1.0, 1.0), LocalToNormalized(npboxes, window).value[i])
    {
      assert LocalToNormalized(npboxes, window).value[i] == ScaleBox(npboxes[i], 1.0 / h, 1.0 / w);
      ScaledBoxInUnitSquare(npboxes[i], h, w);
    }
  }

  lemma ScaledBoxInUnitSquare(b: Box, h: real, w: real)
    requires h > 0.0 && w > 0.0 && b.WellFormed() && Contains(Box(0.0, 0.0, h, w), b)
    ensures Contains(Box(0.0, 0.0, 1.0, 1.0), ScaleBox(b, 1.0 / h, 1.0 / w))
  {
    UnitRatio(b.ymin, h);
    UnitRatio(b.ymax, h);
    UnitRatio(b.xmin, w);
    UnitRatio(b.xmax, w);
  }

  lemma UnitRatio(v: real, size: real)
    requires size > 0.0 && 0.0 <= v <= size
    ensures 0.0 <= v * (1.0 / size) <= 1.0
  {
    assert v * (1.0 / size) == v / size;
  }

  // ----- whole-set operations -----

  /** `labels1 + labels2`: every row of the first, then every row of the second. */
  function Concatenate(labels1: LabelSet, labels2: LabelSet): (r: LabelSet)
    ensures r.Len() == labels1.Len() + labels2.Len()
    ensures r.NpBoxes() == labels1.NpBoxes() + labels2.NpBoxes()
    ensures r.ClassIds() == labels1.ClassIds() + labels2.ClassIds()
    ensures r.Scores() == labels1.Scores() + labels2.Scores()
  {
    LabelSet(labels1.rows + labels2.rows)
  }

  /** The empty set is a unit of concatenation, and concatenation is associative. */
  lemma ConcatenateMonoid(a: LabelSet, b: LabelSet, c: LabelSet)
    ensures Concatenate(a, MakeEmpty()) == a && Concatenate(MakeEmpty(), a) == a
    ensures Concatenate(Concatenate(a, b), c) == Concatenate(a, Concatenate(b, c))
  {
    assert a.rows + [] == a.rows;
    assert (a.rows + b.rows) + c.rows == a.rows + (b.rows + c.rows);
  }

  /**
   * The rows whose intersection with `window`, over their own area, is at
   * least `ioaThresh`, in stored order; with `clip` every kept box is clipped
   * to the window.
   */
  function GetOverlapping(labels: LabelSet, window: Box, ioaThresh: real, clip: bool): (r: LabelSet)
    ensures r.Len() <= labels.Len()
    ensures !clip ==> multiset(r.rows) <= multiset(labels.rows)
    ensures !clip ==> forall x :: x in r.rows <==> x in labels.rows && Ioa(x.box, window) >= ioaThresh
    ensures clip && window.WellFormed() ==> forall i :: 0 <= i < r.Len() ==> Contains(window, r.rows[i].box)
    ensures var p := PruneNonOverlapping(labels.rows, window, ioaThresh);
            (!clip ==> r.rows == p) &&
            (clip ==> |r.rows| == |p| &&
                      forall i :: 0 <= i < |p| ==> r.rows[i] == Row(Clip(p[i].box, window), p[i].classId, p[i].score))
  {
    var pruned := PruneNonOverlapping(labels.rows, window, ioaThresh);
    LabelSet(if clip then ClipToWindow(pruned, window) else pruned)
  }

  lemma {:induction false} ClipToWindowAppend(a: seq<Row>, b: seq<Row>, window: Box)
    ensures ClipToWindow(a + b, window) == ClipToWindow(a, window) + ClipToWindow(b, window)
  {
    var l, r := ClipToWindow(a + b, window), ClipToWindow(a, window) + ClipToWindow(b, window);
    assert |l| == |r|;
    forall i | 0 <= i < |l| ensures l[i] == r[i] {
      if i < |a| {
        assert (a + b)[i] == a[i];
      } else {
        assert (a + b)[i] == b[i - |a|];
      }
    }
  }

  /**
   * A windowed read of a merge is the merge of the windowed reads: selection
   * keeps the relative order of rows from each operand.
   */
  lemma {:induction false} GetOverlappingOfConcatenate(a: LabelSet, b: LabelSet, window: Box, ioaThresh: real, clip: bool)
    ensures GetOverlapping(Concatenate(a, b), window, ioaThresh, clip) ==
            Concatenate(GetOverlapping(a, window, ioaThresh, clip), GetOverlapping(b, window, ioaThresh, clip))
  {
    var keep := (x: Row) => Ioa(x.box, window) >= ioaThresh;
    FilterAppend(a.rows, b.rows, keep);
    assert PruneNonOverlapping(a.rows + b.rows, window, ioaThresh) ==
           PruneNonOverlapping(a.rows, window, ioaThresh) + PruneNonOverlapping(b.rows, window, ioaThresh);
    if clip {
      ClipToWindowAppend(PruneNonOverlapping(a.rows, window, ioaThresh), PruneNonOverlapping(b.rows, window, ioaThresh), window);
    }
  }

  /** A threshold of at most 0 keeps every row, unchanged. */
  lemma {:induction false} GetOverlappingZeroThreshold(labels: LabelSet, window: Box, ioaThresh: real)
    requires ioaThresh <= 0.0
    ensures GetOverlapping(labels, window, ioaThresh, false) == labels
  {
    FilterKeepsAll(labels.rows, (x: Row) => Ioa(x.box, window) >= ioaThresh);
  }

  /** A threshold of 1 keeps exactly the boxes of positive area lying inside the window. */
  lemma {:induction false} GetOverlappingFullThreshold(labels: LabelSet, window: Box)
    requires forall i :: 0 <= i < labels.Len() ==>
               labels.rows[i].box.ymin < labels.rows[i].box.ymax && labels.rows[i].box.xmin < labels.rows[i].box.xmax
    ensures forall x :: x in GetOverlapping(labels, window, 1.0, false).rows <==> x in labels.rows && Contains(window, x.box)
  {
    forall x | x in labels.rows ensures Ioa(x.box, window) >= 1.0 <==> Contains(window, x.box) {
      var k :| 0 <= k < labels.Len() && labels.rows[k] == x;
      IoaOneIffContained(x.box, window);
    }
  }

  /**
   * Duplicate pruning by non-maximum suppression; `maxOutputSize` defaults to
   * the number of rows.
   */
  function PruneDuplicates(labels: LabelSet, scoreThresh: real, mergeThresh: real, maxOutputSize: Option<nat>): (r: LabelSet)
    ensures r.Len() <= maxOutputSize.GetOr(labels.Len()) && r.Len() <= labels.Len()
    ensures multiset(r.rows) <= multiset(labels.rows)
    ensures forall x :: x in r.rows ==> x.score >= scoreThresh
    ensures NonIncreasing(r.rows)
    ensures Separated(r.rows, Iou, mergeThresh)
    ensures forall x :: x in labels.rows && x.score >= scoreThresh ==>
              Accounted(x, r.rows, maxOutputSize.GetOr(labels.Len()), Iou, mergeThresh)
  {
    var r := NonMaxSuppression(labels.rows, maxOutputSize.GetOr(labels.Len()), mergeThresh, scoreThresh);
    LabelSet(r)
  }

  /** Of two heavily overlapping boxes only the higher-scoring one survives. */
  lemma PruneDuplicatesKeepsStrongerBox()
    ensures var strong := Row(Box(0.0, 0.0, 10.0, 10.0), 1, 0.9);
            var weak := Row(Box(0.0, 0.0, 9.0, 9.0), 1, 0.8);
            PruneDuplicates(LabelSet([strong, weak]), 0.0, 0.5, None) == LabelSet([strong])
  {
    var strong := Row(Box(0.0, 0.0, 10.0, 10.0), 1, 0.9);
    var weak := Row(Box(0.0, 0.0, 9.0, 9.0), 1, 0.8);
    var keep := (x: Row) => x.score >= 0.0;
    assert Filter([weak], keep) == [weak];
    assert Filter([strong, weak], keep) == [strong, weak] by {
      assert [strong, weak][1..] == [weak];
    }
    assert SortByScore([weak]) == [weak];
    assert SortByScore([strong, weak]) == [strong, weak] by {
      assert [strong, weak][1..] == [weak];
    }
    assert IntersectionArea(strong.box, weak.box) == 81.0;
    assert Iou(strong.box, weak.box) == 81.0 / 100.0;
    assert Suppress([weak], strong.box, Iou, 0.5) == [];
    assert [strong, weak][1..] == [weak];
    GreedyStep([strong, weak], 2, Iou, 0.5);
  }

  // ----- equality -----

  /** The `{box: (class_id, score)}` dictionary, filled row by row so later rows overwrite earlier ones. */
  function DictOf(rows: seq<Row>): (d: map<Box, (int, real)>)
    ensures d.Keys == set x | x in rows :: x.box
  {
    if rows == [] then map[]
    else
      var last := rows[|rows| - 1];
      var init := rows[..|rows| - 1];
      assert rows == init + [last];
      DictOf(init)[last.box := (last.classId, last.score)]
  }

  /** A box maps to the class id and score of the last row holding it. */
  lemma {:induction false} DictOfLastWins(rows: seq<Row>, i: nat)
    requires i < |rows|
    requires forall j :: i < j < |rows| ==> rows[j].box != rows[i].box
    ensures DictOf(rows)[rows[i].box] == (rows[i].classId, rows[i].score)
  {
    if i < |rows| - 1 {
      var init := rows[..|rows| - 1];
      DictOfLastWins(init, i);
    }
  }

  /** `==` on labels: equal dictionaries. */
  predicate Eq(a: LabelSet, b: LabelSet): (r: bool)
    ensures a == b ==> r
    ensures r ==> (set x | x in a.rows :: x.box) == (set x | x in b.rows :: x.box)
  {
    DictOf(a.rows) == DictOf(b.rows)
  }

  /** `assert_equal`: the box, class id and score columns agree position by position. */
  predicate AssertEqual(actual: LabelSet, expected: LabelSet): (r: bool)
    ensures actual == expected ==> r
    ensures r ==> actual.Len() == expected.Len()
  {
    actual.NpBoxes() == expected.NpBoxes() && actual.ClassIds() == expected.ClassIds() &&
    actual.Scores() == expected.Scores()
  }

  /** Positional comparison succeeds exactly on identical row sequences. */
  lemma AssertEqualIffSameRows(a: LabelSet, b: LabelSet)
    ensures AssertEqual(a, b) <==> a == b
  {
    if AssertEqual(a, b) {
      assert |a.rows| == |a.NpBoxes()| == |b.NpBoxes()| == |b.rows|;
      forall i | 0 <= i < |a.rows| ensures a.rows[i] == b.rows[i] {
        assert a.NpBoxes()[i] == b.NpBoxes()[i];
        assert a.ClassIds()[i] == b.ClassIds()[i];
        assert a.Scores()[i] == b.Scores()[i];
      }
    }
  }

  /** No two rows share a box. */
  predicate DistinctBoxes(rows: seq<Row>) {
    forall i, j :: 0 <= i < j < |rows| ==> rows[i].box != rows[j].box
  }

  lemma DictOfDistinct(rows: seq<Row>, x: Row)
    requires DistinctBoxes(rows) && x in rows
    ensures x.box in DictOf(rows) && DictOf(rows)[x.box] == (x.classId, x.score)
  {
    var k :| 0 <= k < |rows| && rows[k] == x;
    DictOfLastWins(rows, k);
  }

  /** With distinct boxes, `==` ignores row order: any arrangement of the same rows compares equal. */
  lemma {:induction false} EqIgnoresOrder(a: LabelSet, b: LabelSet)
    requires DistinctBoxes(a.rows) && DistinctBoxes(b.rows)
    requires forall x :: x in a.rows <==> x in b.rows
    ensures Eq(a, b)
  {
    var da, db := DictOf(a.rows), DictOf(b.rows);
    forall k | k in da ensures k in db && da[k] == db[k] {
      var x :| x in a.rows && x.box == k;
      DictOfDistinct(a.rows, x);
      DictOfDistinct(b.rows, x);
    }
    assert da.Keys == db.Keys;
  }

  /** Labels that pass `assert_equal` also compare equal with `==`. */
  lemma AssertEqualImpliesEq(a: LabelSet, b: LabelSet)
    requires AssertEqual(a, b)
    ensures Eq(a, b)
  {
    AssertEqualIffSameRows(a, b);
  }

  /** The two equalities differ: the same two rows in swapped order are `==` but fail `assert_equal`. */
  lemma EqIsNotAssertEqual()
    ensures var r1 := Row(Box(0.0, 0.0, 1.0, 1.0), 1, 1.0);
            var r2 := Row(Box(2.0, 2.0, 3.0, 3.0), 2, 0.5);
            Eq(LabelSet([r1, r2]), LabelSet([r2, r1])) && !AssertEqual(LabelSet([r1, r2]), LabelSet([r2, r1]))
  {
    var r1 := Row(Box(0.0, 0.0, 1.0, 1.0), 1, 1.0);
    var r2 := Row(Box(2.0, 2.0, 3.0, 3.0), 2, 0.5);
    EqIgnoresOrder(LabelSet([r1, r2]), LabelSet([r2, r1]));
    assert LabelSet([r1, r2]).NpBoxes()[0] != LabelSet([r2, r1]).NpBoxes()[0];
  }

  /** `==` collapses rows sharing a box: the later row wins and the lengths may differ. */
  lemma EqCollapsesDuplicateBoxes()
    ensures var b := Box(0.0, 0.0, 1.0, 1.0);
            Eq(LabelSet([Row(b, 1, 1.0), Row(b, 2, 0.5)]), LabelSet([Row(b, 2, 0.5)]))
  {
    var b := Box(0.0, 0.0, 1.0, 1.0);
    assert [Row(b, 1, 1.0), Row(b, 2, 0.5)][..1] == [Row(b, 1, 1.0)];
    assert [Row(b, 2, 0.5)][..0] == [];
  }

  // ----- filtering by area of interest and reading GeoJSON -----

  /** The box lies within at least one of the AOI polygons. */
  predicate InSomeAoi<P>(b: Box, aois: seq<P>, within: (Box, P) -> bool) {
    exists k :: 0 <= k < |aois| && within(b, aois[k])
  }

  function AoiKeep<P>(aois: seq<P>, within: (Box, P) -> bool): Row -> bool {
    (x: Row) => InSomeAoi(x.box, aois, within)
  }

  /** Scans the AOIs in order and stops at the first one the box lies within. */
  method WithinSomeAoi<P>(b: Box, aois: seq<P>, within: (Box, P) -> bool) returns (found: bool)
    ensures found <==> InSomeAoi(b, aois, within)
  {
    found := false;
    var j := 0;
    while j < |aois|
      invariant 0 <= j <= |aois|
      invariant forall k :: 0 <= k < j ==> !within(b, aois[k])
    {
      if within(b, aois[j]) {
        found := true;
        break;
      }
      j := j + 1;
    }
  }

  /** Filtering one more row appends it exactly when it is kept. */
  lemma FilterStep(s: seq<Row>, i: nat, keep: Row -> bool)
    requires i < |s|
    ensures Filter(s[..i + 1], keep) == Filter(s[..i], keep) + (if keep(s[i]) then [s[i]] else [])
  {
    assert s[..i + 1] == s[..i] + [s[i]];
    FilterAppend(s[..i], [s[i]], keep);
    assert [s[i]][1..] == [];
  }

  /** One step of the AOI filter: the next row is appended exactly when the scan found an AOI holding it. */
  lemma AoiFilterStep<P>(s: seq<Row>, i: nat, aois: seq<P>, within: (Box, P) -> bool, found: bool)
    requires i < |s| && (found <==> InSomeAoi(s[i].box, aois, within))
    ensures Filter(s[..i + 1], AoiKeep(aois, within)) ==
            Filter(s[..i], AoiKeep(aois, within)) + (if found then [s[i]] else [])
  {
    FilterStep(s, i, AoiKeep(aois, within));
  }

  /** The loop of `filter_by_aoi`: each row in turn is kept when the AOI scan finds one holding its box. */
  method RowsWithinSomeAoi<P>(rows: seq<Row>, aois: seq<P>, within: (Box, P) -> bool) returns (newRows: seq<Row>)
    ensures newRows == Filter(rows, AoiKeep(aois, within))
  {
    newRows := [];
    var i := 0;
    while i < |rows|
      invariant 0 <= i <= |rows|
      invariant newRows == Filter(rows[..i], AoiKeep(aois, within))
    {
      var row := rows[i];
      var found := WithinSomeAoi(row.box, aois, within);
      AoiFilterStep(rows, i, aois, within, found);
      if found {
        newRows := newRows + [row];
      }
      i := i + 1;
    }
    assert rows[..|rows|] == rows;
  }

  /** The rows whose box is within some AOI, in stored order. */
  function FilterByAoiOf<P>(labels: LabelSet, aois: seq<P>, within: (Box, P) -> bool): (r: LabelSet)
    ensures multiset(r.rows) <= multiset(labels.rows)
    ensures forall x :: x in r.rows <==> x in labels.rows && InSomeAoi(x.box, aois, within)
  {
    FilterSubset(labels.rows, AoiKeep(aois, within));
    LabelSet(Filter(labels.rows, AoiKeep(aois, within)))
  }

  /** Containment of one rectangle in another, the `within` test for rectangular AOIs. */
  function RectWithin(b: Box, aoi: Box): bool {
    Contains(aoi, b)
  }

  /** A box straddling the boundary of the only AOI is dropped even though it intersects it. */
  lemma FilterByAoiDropsStraddlingBox()
    ensures var aoi := Box(0.0, 0.0, 10.0, 10.0);
            var straddling := Row(Box(5.0, 5.0, 15.0, 15.0), 1, 1.0);
            IntersectionArea(straddling.box, aoi) > 0.0 &&
            FilterByAoiOf(LabelSet([straddling]), [aoi], RectWithin).rows == []
  {
    var aoi := Box(0.0, 0.0, 10.0, 10.0);
    var straddling := Row(Box(5.0, 5.0, 15.0, 15.0), 1, 1.0);
    assert !RectWithin(straddling.box, [aoi][0]);
    assert !InSomeAoi(straddling.box, [aoi], RectWithin);
    assert IntersectionArea(straddling.box, aoi) == 25.0;
  }

  /** A GeoJSON feature: the bounds of its geometry and its `class_id` and `score` properties. */
  datatype Feature = Feature(bounds: Bounds, classId: Option<int>, score: Option<real>)

  /** Geometry bounds in the order `(minx, miny, maxx, maxy)`. */
  datatype Bounds = Bounds(minx: real, miny: real, maxx: real, maxy: real)

  function BoxOfBounds(b: Bounds): Box {
    Box(b.miny, b.minx, b.maxy, b.maxx)
  }

  /** The row a feature with a `class_id` becomes; a missing score is 1.0. */
  function RowOf(f: Feature): Row
    requires f.classId.Some?
  {
    Row(BoxOfBounds(f.bounds), f.classId.value, f.score.GetOr(1.0))
  }

  predicate AllHaveClassId(features: seq<Feature>) {
    forall i :: 0 <= i < |features| ==> features[i].classId.Some?
  }

  function RowsOf(features: seq<Feature>): (r: seq<Row>)
    requires AllHaveClassId(features)
    ensures |r| == |features| && forall i :: 0 <= i < |features| ==> r[i] == RowOf(features[i])
  {
    seq(|features|, i requires 0 <= i < |features| => RowOf(features[i]))
  }

  /**
   * Labels read from GeoJSON features: a feature without `class_id` fails,
   * a missing score is 1.0; with an extent, keep rows at least 80% inside it
   * and clip them to it.
   */
  function FromGeojsonOf(features: seq<Feature>, extent: Option<Box>): (r: Result<LabelSet, LabelError>)
    ensures r.Failure? <==> !AllHaveClassId(features)
    ensures r.Failure? ==> r.error == MissingProperty("class_id")
    ensures r.Success? && extent.None? ==> (r.value.Len() == |features| &&
              forall i :: 0 <= i < |features| ==>
                r.value.rows[i] == Row(BoxOfBounds(features[i].bounds), features[i].classId.value, features[i].score.GetOr(1.0)))
    ensures r.Success? && extent.Some? && extent.value.WellFormed() ==>
              (r.value.Len() <= |features| && forall i :: 0 <= i < r.value.Len() ==> Contains(extent.value, r.value.rows[i].box))
    ensures r.Success? && extent.Some? ==>
              r.value.rows == ClipToWindow(PruneNonOverlapping(RowsOf(features), extent.value, 0.8), extent.value)
  {
    if !AllHaveClassId(features) then Failure(MissingProperty("class_id"))
    else
      var labels := LabelSet(RowsOf(features));
      Success(if extent.Some? then GetOverlapping(labels, extent.value, 0.8, true) else labels)
  }

  /** With an extent, a feature 90% inside is kept and clipped; one 50% inside is dropped. */
  lemma FromGeojsonExtentThreshold()
    ensures var extent := Box(0.0, 0.0, 10.0, 10.0);
            var mostlyInside := Feature(Bounds(1.0, 0.0, 11.0, 10.0), Some(1), None);
            var halfInside := Feature(Bounds(5.0, 0.0, 15.0, 10.0), Some(2), None);
            FromGeojsonOf([mostlyInside, halfInside], Some(extent)) ==
              Success(LabelSet([Row(Box(0.0, 1.0, 10.0, 10.0), 1, 1.0)]))
  {
    ExampleFeatureRows(Box(0.0, 0.0, 10.0, 10.0));
    ExampleKept();
    ExampleClipped();
  }

  lemma ExampleKept()
    ensures PruneNonOverlapping([Row(Box(0.0, 1.0, 10.0, 11.0), 1, 1.0), Row(Box(0.0, 5.0, 10.0, 15.0), 2, 1.0)],
                                Box(0.0, 0.0, 10.0, 10.0), 0.8) == [Row(Box(0.0, 1.0, 10.0, 11.0), 1, 1.0)]
  {
    var a := Row(Box(0.0, 1.0, 10.0, 11.0), 1, 1.0);
    var b := Row(Box(0.0, 5.0, 10.0, 15.0), 2, 1.0);
    var kept := PruneNonOverlapping([a, b], Box(0.0, 0.0, 10.0, 10.0), 0.8);
    IoaOfExamples();
    assert a in kept && b !in kept;
    PruneKeepsFirstOnly(a, b, kept);
  }

  lemma ExampleClipped()
    ensures ClipToWindow([Row(Box(0.0, 1.0, 10.0, 11.0), 1, 1.0)], Box(0.0, 0.0, 10.0, 10.0)) ==
            [Row(Box(0.0, 1.0, 10.0, 10.0), 1, 1.0)]
  {
  }

  lemma ExampleFeatureRows(extent: Box)
    ensures var features := [Feature(Bounds(1.0, 0.0, 11.0, 10.0), Some(1), None), Feature(Bounds(5.0, 0.0, 15.0, 10.0), Some(2), None)];
            FromGeojsonOf(features, Some(extent)) ==
              Success(GetOverlapping(LabelSet([Row(Box(0.0, 1.0, 10.0, 11.0), 1, 1.0), Row(Box(0.0, 5.0, 10.0, 15.0), 2, 1.0)]), extent, 0.8, true))
  {
    var features := [Feature(Bounds(1.0, 0.0, 11.0, 10.0), Some(1), None), Feature(Bounds(5.0, 0.0, 15.0, 10.0), Some(2), None)];
    assert AllHaveClassId(features);
    assert RowsOf(features) == [Row(Box(0.0, 1.0, 10.0, 11.0), 1, 1.0), Row(Box(0.0, 5.0, 10.0, 15.0), 2, 1.0)];
  }

  lemma IoaOfExamples()
    ensures Ioa(Box(0.0, 1.0, 10.0, 11.0), Box(0.0, 0.0, 10.0, 10.0)) == 0.9
    ensures Ioa(Box(0.0, 5.0, 10.0, 15.0), Box(0.0, 0.0, 10.0, 10.0)) == 0.5
  {
    assert IntersectionArea(Box(0.0, 1.0, 10.0, 11.0), Box(0.0, 0.0, 10.0, 10.0)) == 90.0;
    assert IntersectionArea(Box(0.0, 5.0, 10.0, 15.0), Box(0.0, 0.0, 10.0, 10.0)) == 50.0;
  }

  /** A sub-multiset of `[a, b]` that holds `a` but not `b` is `[a]`. */
  lemma PruneKeepsFirstOnly(a: Row, b: Row, kept: seq<Row>)
    requires multiset(kept) <= multiset([a, b]) && a in kept && b !in kept && a != b
    ensures kept == [a]
  {
    assert forall x :: x in kept ==> x == a by {
      forall x | x in kept ensures x == a {
        assert x in multiset(kept);
      }
    }
    assert multiset(kept)[a] <= 1;
    CountOfConstant(kept, a);
    assert kept[0] in kept;
  }

  lemma {:induction false} CountOfConstant(s: seq<Row>, a: Row)
    requires forall x :: x in s ==> x == a
    ensures multiset(s)[a] == |s|
  {
    if s != [] {
      assert s == [s[0]] + s[1..];
      assert s[0] in s;
      assert forall x :: x in s[1..] ==> x in s;
      CountOfConstant(s[1..], a);
    }
  }

  /** Reads GeoJSON features into labels, one feature at a time. */
  method FromGeojson(features: seq<Feature>, extent: Option<Box>) returns (r: Result<LabelSet, LabelError>)
    ensures r == FromGeojsonOf(features, extent)
  {
    var boxes: seq<Box> := [];
    var classIds: seq<int> := [];
    var scores: seq<real> := [];
    var i := 0;
    while i < |features|
      invariant 0 <= i <= |features|
      invariant AllHaveClassId(features[..i])
      invariant |boxes| == i && |classIds| == i && |scores| == i
      invariant forall k :: 0 <= k < i ==>
                  RowOf(features[k]) == Row(boxes[k], classIds[k], scores[k])
    {
      var f := features[i];
      boxes := boxes + [BoxOfBounds(f.bounds)];
      if f.classId.None? {
        assert !AllHaveClassId(features);
        return Failure(MissingProperty("class_id"));
      }
      classIds := classIds + [f.classId.value];
      scores := scores + [f.score.GetOr(1.0)];
      i := i + 1;
    }
    assert features[..i] == features;
    var labels: LabelSet;
    if |boxes| > 0 {
      labels := Make(boxes, classIds, Some(scores)).value;
    } else {
      labels := MakeEmpty();
    }
    assert labels.rows == RowsOf(features) by {
      forall k | 0 <= k < |features| ensures labels.rows[k] == RowOf(features[k]) {
        assert labels.rows[k].box == labels.NpBoxes()[k];
        assert labels.rows[k].classId == labels.ClassIds()[k];
        assert labels.rows[k].score == labels.Scores()[k];
      }
    }
    if extent.Some? {
      labels := GetOverlapping(labels, extent.value, 0.8, true);
    }
    r := Success(labels);
  }

  // ----- the label-set object -----

  /** Labels whose box list is replaced wholesale by windowed writes. */
  class ObjectDetectionLabels {
    var boxlist: BoxList

    /** Both columns are present and as long as the box column. */
    ghost predicate Valid()
      reads this
    {
      boxlist.scores.Some? && FromBoxList(boxlist).Success?
    }

    function Value(): LabelSet
      reads this
      requires Valid()
    {
      FromBoxList(boxlist).value
    }

    constructor (npboxes: seq<Box>, classIds: seq<int>, scores: Option<seq<real>>)
      requires Make(npboxes, classIds, scores).Success?
      ensures Valid() && Value() == Make(npboxes, classIds, scores).value
    {
      boxlist := BoxList(npboxes, Some(classIds), Some(scores.GetOr(Ones(|classIds|))));
    }

    /** `len(labels)`: the number of boxes. */
    function Len(): (n: nat)
      reads this
      requires Valid()
      ensures n == Value().Len() == |Value().ClassIds()| == |Value().Scores()|
    {
      |boxlist.boxes|
    }

    /** `labels + other`. */
    function Add(other: ObjectDetectionLabels): (r: LabelSet)
      reads this, other
      requires Valid() && other.Valid()
      ensures r.rows == Value().rows + other.Value().rows
    {
      Concatenate(Value(), other.Value())
    }

    /** `labels[window]`: the rows at least half inside the window, unclipped. */
    function GetItem(window: Box): (r: LabelSet)
      reads this
      requires Valid()
      ensures forall x :: x in r.rows <==> x in Value().rows && Ioa(x.box, window) >= 0.5
      ensures r == GetOverlapping(Value(), window, 0.5, false)
    {
      GetOverlapping(Value(), window, 0.5, false)
    }

    /**
     * `labels[window] = item`: shift the window-local boxes to global
     * coordinates and append them, with their class ids and scores, to the
     * stored rows. A column of the wrong length fails and leaves the labels
     * as they were.
     */
    method SetItem(window: Box, item: WindowItem) returns (outcome: Outcome<LabelError>)
      requires Valid()
      modifies this
      ensures Valid()
      ensures outcome.Pass? <==> |item.classIds| == |item.boxes| && (item.scores.Some? ==> |item.scores.value| == |item.boxes|)
      ensures outcome.Fail? ==> Value() == old(Value())
      ensures outcome.Pass? ==> Len() == old(Len()) + |item.boxes|
      ensures outcome.Pass? ==> Value().rows[..old(Len())] == old(Value()).rows
      ensures outcome.Pass? ==> forall i :: 0 <= i < |item.boxes| ==>
                Value().rows[old(Len()) + i] ==
                  Row(ShiftBox(item.boxes[i], window.ymin, window.xmin), item.classIds[i],
                      if item.scores.Some? then item.scores.value[i] else 1.0)
    {
      var boxes := LocalToGlobal(item.boxes, window);
      var newLabels := Make(boxes, item.classIds, item.scores);
      if newLabels.Failure? {
        return Fail(newLabels.error);
      }
      var concatenated := Concatenate(Value(), newLabels.value);
      FromBoxListOfToBoxList(concatenated);
      boxlist := ToBoxList(concatenated);
      outcome := Pass;
      assert Value() == concatenated;
      forall i | 0 <= i < |item.boxes|
        ensures concatenated.rows[old(Len()) + i] ==
                  Row(ShiftBox(item.boxes[i], window.ymin, window.xmin), item.classIds[i],
                      if item.scores.Some? then item.scores.value[i] else 1.0)
      {
        var row := newLabels.value.rows[i];
        assert row.box == newLabels.value.NpBoxes()[i] == boxes[i];
        assert row.classId == newLabels.value.ClassIds()[i];
      }
    }

    /** `labels.to_dict()`, filled row by row. */
    method ToDict() returns (d: map<Box, (int, real)>)
      requires Valid()
      ensures d == DictOf(Value().rows)
    {
      var rows := Value().rows;
      d := map[];
      var i := 0;
      while i < |rows|
        invariant 0 <= i <= |rows|
        invariant d == DictOf(rows[..i])
      {
        assert rows[..i + 1][..i] == rows[..i];
        d := d[rows[i].box := (rows[i].classId, rows[i].score)];
        i := i + 1;
      }
      assert rows[..|rows|] == rows;
    }

    /**
     * `labels.filter_by_aoi(aois)`: the rows whose box is within at least one
     * AOI, in stored order; the empty label set when there is none.
     */
    method FilterByAoi<P>(aois: seq<P>, within: (Box, P) -> bool) returns (r: LabelSet)
      requires Valid()
      ensures r == FilterByAoiOf(Value(), aois, within)
    {
      var newRows := RowsWithinSomeAoi(Value().rows, aois, within);
      if |newRows| == 0 {
        r := MakeEmpty();
      } else {
        r := LabelSet(newRows);
      }
    }
  }
}
