/**
 * Indexing a label source with slices: `source[rows]` or `source[rows, cols]`
 * names the window of the scene extent that the row slice and the optional
 * column slice cover. Only the window is computed; reading the labels in it
 * is left to each concrete label source.
 */
module LabelSource {
  import opened Wrappers
  import opened Boxes

  /** A Python slice; a missing bound or step is None. */
  datatype Slice = Slice(start: Option<int>, stop: Option<int>, step: Option<int>)

  /** An element of a tuple key. */
  datatype KeyItem = SliceItem(slice: Slice) | NoneItem | OtherItem

  /** The key passed to `source[key]`. */
  datatype Key =
    | BoxKey(box: Box)
    | SliceKey(slice: Slice)
    | TupleKey(items: seq<KeyItem>)
    | OtherKey

  datatype KeyError =
    | NotImplemented
    | TypeError(message: string)
    | AssertionError
    | NameError(name: string)

  /** The slice with neither bounds nor step, `slice(None, None)`. */
  const FullSlice := Slice(None, None, None)

  predicate Negative(bound: Option<int>) {
    bound.Some? && bound.value < 0
  }

  /** A bound where given, else the default. */
  function BoundOr(bound: Option<int>, default: real): real {
    if bound.None? then default else bound.value as real
  }

  /** The tuple elements a tuple key may hold: one or two slices, the first for rows. */
  predicate WellFormedItems(items: seq<KeyItem>) {
    1 <= |items| <= 2 && forall i :: 0 <= i < |items| ==> items[i].SliceItem?
  }

  /** The (row, column) slice pair of a key that names a window. */
  function SlicePair(key: Key): Option<(Slice, Slice)> {
    match key
    case SliceKey(h) => Some((h, FullSlice))
    case TupleKey(items) =>
      if !WellFormedItems(items) then None
      else if |items| == 1 then Some((items[0].slice, FullSlice))
      else Some((items[0].slice, items[1].slice))
    case _ => None
  }

  /**
   * The window a key names over `extent`, or the error the key raises. Box
   * keys are not implemented, keys other than a slice or a tuple are a type
   * error, a tuple of the wrong arity or holding anything but slices fails an
   * assertion, and negative bounds are not implemented. Missing starts are 0
   * and missing stops are the extent's `ymax` and `xmax`; steps are ignored.
   */
  function WindowOf(key: Key, extent: Box): (r: Result<Box, KeyError>)
    ensures key.BoxKey? ==> r == Failure(NotImplemented)
    ensures key.OtherKey? ==> r == Failure(TypeError("Unsupported key type."))
    ensures key.TupleKey? && !WellFormedItems(key.items) ==> r == Failure(AssertionError)
    ensures SlicePair(key).Some? &&
            (Negative(SlicePair(key).value.0.start) || Negative(SlicePair(key).value.0.stop) ||
             Negative(SlicePair(key).value.1.start) || Negative(SlicePair(key).value.1.stop)) ==>
              r == Failure(NotImplemented)
    ensures r.Success? <==> (SlicePair(key).Some? &&
              !Negative(SlicePair(key).value.0.start) && !Negative(SlicePair(key).value.0.stop) &&
              !Negative(SlicePair(key).value.1.start) && !Negative(SlicePair(key).value.1.stop))
    ensures r.Success? ==>
              var (h, w) := SlicePair(key).value;
              r.value == Box(BoundOr(h.start, 0.0), BoundOr(w.start, 0.0), BoundOr(h.stop, extent.ymax), BoundOr(w.stop, extent.xmax))
  {
    match key
    case BoxKey(_) => Failure(NotImplemented)
    case OtherKey => Failure(TypeError("Unsupported key type."))
    case SliceKey(s) => WindowOfSlices([SliceItem(s)], extent)
    case TupleKey(items) => WindowOfSlices(items, extent)
  }

  /** The checks and defaults applied once the key is a list of one or two entries. */
  function WindowOfSlices(slices: seq<KeyItem>, extent: Box): Result<Box, KeyError> {
    if !(1 <= |slices| <= 2) then Failure(AssertionError)
    else if exists i :: 0 <= i < |slices| && slices[i].NoneItem? then Failure(AssertionError)
    else if !slices[0].SliceItem? then Failure(AssertionError)
    else if |slices| == 2 && !slices[1].SliceItem? then Failure(AssertionError)
    else
      var h := slices[0].slice;
      var w := if |slices| == 1 then FullSlice else slices[1].slice;
      if Negative(h.start) || Negative(h.stop) || Negative(w.start) || Negative(w.stop) then Failure(NotImplemented)
      else Success(Box(BoundOr(h.start, 0.0), BoundOr(w.start, 0.0), BoundOr(h.stop, extent.ymax), BoundOr(w.stop, extent.xmax)))
  }

  /** A bare slice, a one-element tuple and a tuple with an unbounded column slice name the same window. */
  lemma {:induction false} RowSliceForms(h: Slice, extent: Box)
    ensures WindowOf(SliceKey(h), extent) == WindowOf(TupleKey([SliceItem(h)]), extent)
    ensures WindowOf(SliceKey(h), extent) == WindowOf(TupleKey([SliceItem(h), SliceItem(FullSlice)]), extent)
  {
    assert WellFormedItems([SliceItem(h)]);
    assert WellFormedItems([SliceItem(h), SliceItem(FullSlice)]);
  }

  /** `source[:, :]` is the whole extent measured from the origin, not from the extent's own corner. */
  lemma FullKeyWindow(extent: Box)
    ensures WindowOf(TupleKey([SliceItem(FullSlice), SliceItem(FullSlice)]), extent) ==
            Success(Box(0.0, 0.0, extent.ymax, extent.xmax))
  {
    assert WellFormedItems([SliceItem(FullSlice), SliceItem(FullSlice)]);
  }

  /**
   * Slices with both bounds, start before stop, name a well-formed window
   * exactly as tall and wide as the slices are long, whatever their steps.
   */
  lemma {:induction false} WindowMatchesSliceLengths(y0: int, y1: int, x0: int, x1: int, hs: Option<int>, ws: Option<int>, extent: Box)
    requires 0 <= y0 <= y1 && 0 <= x0 <= x1
    ensures var key := TupleKey([SliceItem(Slice(Some(y0), Some(y1), hs)), SliceItem(Slice(Some(x0), Some(x1), ws))]);
            WindowOf(key, extent).Success? &&
            WindowOf(key, extent).value.WellFormed() &&
            WindowOf(key, extent).value.Height() == (y1 - y0) as real &&
            WindowOf(key, extent).value.Width() == (x1 - x0) as real
  {
    var key := TupleKey([SliceItem(Slice(Some(y0), Some(y1), hs)), SliceItem(Slice(Some(x0), Some(x1), ws))]);
    assert WellFormedItems(key.items);
  }

  /** A negative bound in either slice is rejected even when the other bounds are fine. */
  lemma {:induction false} NegativeBoundRejected(h: Slice, w: Slice, extent: Box)
    requires Negative(h.start) || Negative(h.stop) || Negative(w.start) || Negative(w.stop)
    ensures WindowOf(TupleKey([SliceItem(h), SliceItem(w)]), extent) == Failure(NotImplemented)
  {
    assert WellFormedItems([SliceItem(h), SliceItem(w)]);
  }

  /**
   * `__getitem__` as written: `Box` is imported only for type checking, so
   * the first test, `isinstance(key, Box)`, evaluates an unbound name and
   * raises NameError before the key is looked at.
   */
  function GetItemAsWritten(key: Key, extent: Box): (r: Result<Box, KeyError>)
    ensures r.Failure? && r.error.NameError? && r.error.name == "Box"
  {
    Failure(NameError("Box"))
  }

  /** As written, even the plainest slice key fails, where the intended rules give a window. */
  lemma AsWrittenRejectsValidSlice(extent: Box)
    ensures var key := SliceKey(Slice(Some(0), Some(10), None));
            GetItemAsWritten(key, extent).Failure? &&
            WindowOf(key, extent) == Success(Box(0.0, 0.0, 10.0, extent.xmax))
  {
  }
}
