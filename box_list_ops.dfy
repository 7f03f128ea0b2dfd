/**
 * The box-list operations the label set is built on: pruning by overlap with
 * a window, clipping to a window, and greedy non-maximum suppression. A box
 * list always carries the `classes` and `scores` fields here, so it is a
 * sequence of rows and every selection moves the three columns together.
 */
module BoxListOps {
  import opened Boxes

  /** One row of a box list: a box with its `classes` and `scores` entries. */
  datatype Row = Row(box: Box, classId: int, score: real)

  /** Scores never increase along `s`. */
  predicate NonIncreasing(s: seq<Row>) {
    forall i, j :: 0 <= i < j < |s| ==> s[i].score >= s[j].score
  }

  /** The rows of `s` that satisfy `keep`, in their original order. */
  function Filter(s: seq<Row>, keep: Row -> bool): (r: seq<Row>)
    ensures |r| <= |s|
    ensures forall x :: x in r <==> x in s && keep(x)
  {
    if s == [] then []
    else
      var rest := Filter(s[1..], keep);
      assert s == [s[0]] + s[1..];
      if keep(s[0]) then [s[0]] + rest else rest
  }

  /** A filter takes each row at most as often as its input holds it. */
  lemma {:induction false} FilterSubset(s: seq<Row>, keep: Row -> bool)
    ensures multiset(Filter(s, keep)) <= multiset(s)
  {
    if s != [] {
      FilterSubset(s[1..], keep);
      assert s == [s[0]] + s[1..];
      assert multiset(s) == multiset{s[0]} + multiset(s[1..]);
    }
  }

  /** A filtered sequence of rows keeps the score order of its source. */
  lemma {:induction false} FilterNonIncreasing(s: seq<Row>, keep: Row -> bool)
    requires NonIncreasing(s)
    ensures NonIncreasing(Filter(s, keep))
  {
    if s != [] {
      var rest := Filter(s[1..], keep);
      TailNonIncreasing(s);
      FilterNonIncreasing(s[1..], keep);
      if keep(s[0]) {
        TailScoresAtMostHead(s);
        ScoresAtMostSubset(rest, s[1..], s[0].score);
        ConsNonIncreasing(s[0], rest);
      }
    }
  }

  lemma TailNonIncreasing(s: seq<Row>)
    requires s != [] && NonIncreasing(s)
    ensures NonIncreasing(s[1..])
  {
    forall i, j | 0 <= i < j < |s| - 1 ensures s[1..][i].score >= s[1..][j].score {
      assert s[1..][i] == s[i + 1] && s[1..][j] == s[j + 1];
    }
  }

  lemma ScoresAtMostSubset(a: seq<Row>, b: seq<Row>, m: real)
    requires ScoresAtMost(b, m) && forall y :: y in a ==> y in b
    ensures ScoresAtMost(a, m)
  {
  }

  /** Filtering distributes over concatenation: the kept rows keep their order. */
  lemma {:induction false} FilterAppend(a: seq<Row>, b: seq<Row>, keep: Row -> bool)
    ensures Filter(a + b, keep) == Filter(a, keep) + Filter(b, keep)
  {
    if a != [] {
      assert (a + b)[1..] == a[1..] + b;
      assert (a + b)[0] == a[0];
      FilterAppend(a[1..], b, keep);
    } else {
      assert a + b == b;
    }
  }

  /** A filter that keeps every row returns its input unchanged. */
  lemma {:induction false} FilterKeepsAll(s: seq<Row>, keep: Row -> bool)
    requires forall x :: x in s ==> keep(x)
    ensures Filter(s, keep) == s
  {
    if s != [] {
      assert s == [s[0]] + s[1..];
      FilterKeepsAll(s[1..], keep);
    }
  }

  /**
   * Keeps the rows whose intersection over area with `window` is at least
   * `minOverlap`, in order.
   */
  function PruneNonOverlapping(rows: seq<Row>, window: Box, minOverlap: real): (r: seq<Row>)
    ensures multiset(r) <= multiset(rows)
    ensures forall x :: x in r <==> x in rows && Ioa(x.box, window) >= minOverlap
  {
    FilterSubset(rows, (x: Row) => Ioa(x.box, window) >= minOverlap);
    Filter(rows, (x: Row) => Ioa(x.box, window) >= minOverlap)
  }

  /** Clips every box to `window`; no row is dropped and class ids and scores stay put. */
  function ClipToWindow(rows: seq<Row>, window: Box): (r: seq<Row>)
    ensures |r| == |rows|
    ensures forall i :: 0 <= i < |r| ==> r[i] == Row(Clip(rows[i].box, window), rows[i].classId, rows[i].score)
    ensures window.WellFormed() ==> forall i :: 0 <= i < |r| ==> Contains(window, r[i].box)
    ensures forall i :: 0 <= i < |r| && rows[i].box.WellFormed() && window.WellFormed() ==>
              r[i].box.Area() == IntersectionArea(rows[i].box, window)
  {
    var r := seq(|rows|, i requires 0 <= i < |rows| => rows[i].(box := Clip(rows[i].box, window)));
    assert forall i :: 0 <= i < |r| && rows[i].box.WellFormed() && window.WellFormed() ==>
             r[i].box.Area() == IntersectionArea(rows[i].box, window) by {
      forall i | 0 <= i < |r| && rows[i].box.WellFormed() && window.WellFormed()
        ensures r[i].box.Area() == IntersectionArea(rows[i].box, window)
      {
        ClipIsIntersection(rows[i].box, window);
      }
    }
    r
  }

  /** Places `x` after every row scoring strictly higher and before the rest. */
  function Insert(x: Row, sorted: seq<Row>): (r: seq<Row>)
    ensures |r| == |sorted| + 1
    ensures multiset(r) == multiset(sorted) + multiset{x}
  {
    if sorted == [] then [x]
    else if x.score >= sorted[0].score then [x] + sorted
    else
      assert sorted == [sorted[0]] + sorted[1..];
      [sorted[0]] + Insert(x, sorted[1..])
  }

  /** No row of `s` scores above `m`. */
  predicate ScoresAtMost(s: seq<Row>, m: real) {
    forall y :: y in s ==> y.score <= m
  }

  lemma ConsNonIncreasing(h: Row, t: seq<Row>)
    requires NonIncreasing(t) && ScoresAtMost(t, h.score)
    ensures NonIncreasing([h] + t)
  {
    var r := [h] + t;
    forall i, j | 0 <= i < j < |r| ensures r[i].score >= r[j].score {
      assert r[j] == t[j - 1];
      if i > 0 {
        assert r[i] == t[i - 1];
      }
    }
  }

  lemma {:induction false} InsertScoresAtMost(x: Row, s: seq<Row>, m: real)
    requires ScoresAtMost(s, m) && x.score <= m
    ensures ScoresAtMost(Insert(x, s), m)
  {
    if s != [] && x.score < s[0].score {
      assert s == [s[0]] + s[1..];
      InsertScoresAtMost(x, s[1..], m);
    }
  }

  /** Inserting into a score-sorted sequence keeps it sorted. */
  lemma {:induction false} InsertNonIncreasing(x: Row, sorted: seq<Row>)
    requires NonIncreasing(sorted)
    ensures NonIncreasing(Insert(x, sorted))
  {
    if sorted == [] {
    } else if x.score >= sorted[0].score {
      forall y | y in sorted ensures y.score <= x.score {
        var k :| 0 <= k < |sorted| && sorted[k] == y;
        assert sorted[0].score >= sorted[k].score;
      }
      ConsNonIncreasing(x, sorted);
    } else {
      var tail := sorted[1..];
      assert NonIncreasing(tail);
      InsertNonIncreasing(x, tail);
      forall y | y in tail ensures y.score <= sorted[0].score {
        var k :| 0 <= k < |tail| && tail[k] == y;
        assert sorted[k + 1] == y;
      }
      InsertScoresAtMost(x, tail, sorted[0].score);
      ConsNonIncreasing(sorted[0], Insert(x, tail));
    }
  }

  /** A stable sort by descending score. */
  function SortByScore(rows: seq<Row>): (r: seq<Row>)
    ensures |r| == |rows| && multiset(r) == multiset(rows)
    ensures NonIncreasing(r)
  {
    if rows == [] then []
    else
      assert rows == [rows[0]] + rows[1..];
      var rest := SortByScore(rows[1..]);
      InsertNonIncreasing(rows[0], rest);
      Insert(rows[0], rest)
  }

  /*
   * The suppression steps below take the overlap measure as the parameter
   * `iou`; non-maximum suppression passes `Iou`. The steps rely on nothing
   * about the measure, and keeping it a parameter keeps its arithmetic out
   * of their proofs.
   */

  /** The rows whose overlap with `selected` does not exceed `iouThreshold`. */
  function Suppress(rows: seq<Row>, selected: Box, iou: (Box, Box) -> real, iouThreshold: real): (r: seq<Row>)
    ensures |r| <= |rows|
  {
    if rows == [] then []
    else
      var rest := Suppress(rows[1..], selected, iou, iouThreshold);
      if iou(selected, rows[0].box) <= iouThreshold then [rows[0]] + rest else rest
  }

  /** Suppression is the filter that keeps the rows overlapping `selected` by at most `iouThreshold`. */
  lemma {:induction false} SuppressIsFilter(rows: seq<Row>, selected: Box, iou: (Box, Box) -> real, iouThreshold: real)
    ensures Suppress(rows, selected, iou, iouThreshold) == Filter(rows, (x: Row) => iou(selected, x.box) <= iouThreshold)
  {
    if rows != [] {
      SuppressIsFilter(rows[1..], selected, iou, iouThreshold);
    }
  }

  /** A row survives suppression exactly when it overlaps `selected` by at most `iouThreshold`. */
  lemma SuppressMembers(rows: seq<Row>, selected: Box, iou: (Box, Box) -> real, iouThreshold: real)
    ensures forall x :: x in Suppress(rows, selected, iou, iouThreshold) <==> x in rows && iou(selected, x.box) <= iouThreshold
  {
    SuppressIsFilter(rows, selected, iou, iouThreshold);
  }

  /** Suppression drops rows and never duplicates one. */
  lemma SuppressSubset(rows: seq<Row>, selected: Box, iou: (Box, Box) -> real, iouThreshold: real)
    ensures multiset(Suppress(rows, selected, iou, iouThreshold)) <= multiset(rows)
  {
    SuppressIsFilter(rows, selected, iou, iouThreshold);
    FilterSubset(rows, (x: Row) => iou(selected, x.box) <= iouThreshold);
  }

  /** Suppression keeps the score order of its input. */
  lemma SuppressNonIncreasing(rows: seq<Row>, selected: Box, iou: (Box, Box) -> real, iouThreshold: real)
    requires NonIncreasing(rows)
    ensures NonIncreasing(Suppress(rows, selected, iou, iouThreshold))
  {
    SuppressIsFilter(rows, selected, iou, iouThreshold);
    FilterNonIncreasing(rows, (x: Row) => iou(selected, x.box) <= iouThreshold);
  }

  lemma SubMultisetMembers(a: seq<Row>, b: seq<Row>)
    requires multiset(a) <= multiset(b)
    ensures forall y :: y in a ==> y in b
  {
    forall y | y in a ensures y in b {
      assert y in multiset(a);
    }
  }

  /**
   * Greedy selection over rows sorted by score: take the first row, drop every
   * later row overlapping it by more than `iouThreshold`, and go on until
   * nothing is left or `maxOutput` rows are taken.
   */
  function Greedy(sorted: seq<Row>, maxOutput: nat, iou: (Box, Box) -> real, iouThreshold: real): (r: seq<Row>)
    ensures |r| <= maxOutput
    ensures sorted != [] && maxOutput > 0 ==> r != [] && r[0] == sorted[0]
    decreases |sorted|
  {
    if sorted == [] || maxOutput == 0 then []
    else
      [sorted[0]] + Greedy(Suppress(sorted[1..], sorted[0].box, iou, iouThreshold), maxOutput - 1, iou, iouThreshold)
  }

  /** The greedy selection takes some of the rows it is given, each at most as often. */
  lemma {:induction false} GreedySubset(sorted: seq<Row>, maxOutput: nat, iou: (Box, Box) -> real, iouThreshold: real)
    ensures multiset(Greedy(sorted, maxOutput, iou, iouThreshold)) <= multiset(sorted)
    decreases |sorted|
  {
    if sorted != [] && maxOutput > 0 {
      GreedySubset(Suppress(sorted[1..], sorted[0].box, iou, iouThreshold), maxOutput - 1, iou, iouThreshold);
      GreedySubsetStep(sorted, maxOutput, iou, iouThreshold);
    }
  }

  /** The inductive step of `GreedySubset`: the first row joins a selection drawn from the rows after it. */
  lemma GreedySubsetStep(sorted: seq<Row>, maxOutput: nat, iou: (Box, Box) -> real, iouThreshold: real)
    requires sorted != [] && maxOutput > 0
    requires var kept := Suppress(sorted[1..], sorted[0].box, iou, iouThreshold);
             multiset(Greedy(kept, maxOutput - 1, iou, iouThreshold)) <= multiset(kept)
    ensures multiset(Greedy(sorted, maxOutput, iou, iouThreshold)) <= multiset(sorted)
  {
    var head := sorted[0];
    var kept := Suppress(sorted[1..], head.box, iou, iouThreshold);
    SuppressSubset(sorted[1..], head.box, iou, iouThreshold);
    AddToSubMultiset(head, Greedy(kept, maxOutput - 1, iou, iouThreshold), sorted[1..], kept);
    GreedyStep(sorted, maxOutput, iou, iouThreshold);
    assert sorted == [head] + sorted[1..];
  }

  lemma AddToSubMultiset(head: Row, rest: seq<Row>, tail: seq<Row>, kept: seq<Row>)
    requires multiset(rest) <= multiset(kept) && multiset(kept) <= multiset(tail)
    ensures multiset([head] + rest) <= multiset([head] + tail)
  {
    assert multiset([head] + rest) == multiset{head} + multiset(rest);
    assert multiset([head] + tail) == multiset{head} + multiset(tail);
  }

  lemma GreedyMembers(sorted: seq<Row>, maxOutput: nat, iou: (Box, Box) -> real, iouThreshold: real)
    ensures forall y :: y in Greedy(sorted, maxOutput, iou, iouThreshold) ==> y in sorted
  {
    GreedySubset(sorted, maxOutput, iou, iouThreshold);
    SubMultisetMembers(Greedy(sorted, maxOutput, iou, iouThreshold), sorted);
  }

  /** The greedy selection takes no more rows than it is given. */
  lemma {:induction false} GreedyLength(sorted: seq<Row>, maxOutput: nat, iou: (Box, Box) -> real, iouThreshold: real)
    ensures |Greedy(sorted, maxOutput, iou, iouThreshold)| <= |sorted|
    decreases |sorted|
  {
    if sorted != [] && maxOutput > 0 {
      GreedyLength(Suppress(sorted[1..], sorted[0].box, iou, iouThreshold), maxOutput - 1, iou, iouThreshold);
    }
  }

  /** The first step of the greedy selection, unfolded. */
  lemma GreedyStep(sorted: seq<Row>, maxOutput: nat, iou: (Box, Box) -> real, iouThreshold: real)
    requires sorted != [] && maxOutput > 0
    ensures Greedy(sorted, maxOutput, iou, iouThreshold) ==
            [sorted[0]] + Greedy(Suppress(sorted[1..], sorted[0].box, iou, iouThreshold), maxOutput - 1, iou, iouThreshold)
  {
  }

  /** Every row after the first of a score-sorted sequence scores at most the first. */
  lemma TailScoresAtMostHead(sorted: seq<Row>)
    requires sorted != [] && NonIncreasing(sorted)
    ensures ScoresAtMost(sorted[1..], sorted[0].score)
  {
    forall y | y in sorted[1..] ensures y.score <= sorted[0].score {
      var k :| 0 <= k < |sorted[1..]| && sorted[1..][k] == y;
      assert sorted[k + 1] == y;
    }
  }

  /** No two rows of `r` overlap by more than `iouThreshold`. */
  predicate Separated(r: seq<Row>, iou: (Box, Box) -> real, iouThreshold: real) {
    forall i, j :: 0 <= i < j < |r| ==> iou(r[i].box, r[j].box) <= iouThreshold
  }

  /** No two selected rows overlap by more than the IoU threshold. */
  lemma {:induction false} GreedyPairwiseSeparated(sorted: seq<Row>, maxOutput: nat, iou: (Box, Box) -> real, iouThreshold: real)
    ensures Separated(Greedy(sorted, maxOutput, iou, iouThreshold), iou, iouThreshold)
    decreases |sorted|
  {
    if sorted != [] && maxOutput > 0 {
      GreedyPairwiseSeparated(Suppress(sorted[1..], sorted[0].box, iou, iouThreshold), maxOutput - 1, iou, iouThreshold);
      GreedySeparatedStep(sorted, maxOutput, iou, iouThreshold);
    }
  }

  /** The inductive step of `GreedyPairwiseSeparated`: every later selection survived suppression by the first. */
  lemma GreedySeparatedStep(sorted: seq<Row>, maxOutput: nat, iou: (Box, Box) -> real, iouThreshold: real)
    requires sorted != [] && maxOutput > 0
    requires Separated(Greedy(Suppress(sorted[1..], sorted[0].box, iou, iouThreshold), maxOutput - 1, iou, iouThreshold), iou, iouThreshold)
    ensures Separated(Greedy(sorted, maxOutput, iou, iouThreshold), iou, iouThreshold)
  {
    var head := sorted[0];
    var kept := Suppress(sorted[1..], head.box, iou, iouThreshold);
    var rest := Greedy(kept, maxOutput - 1, iou, iouThreshold);
    GreedyStep(sorted, maxOutput, iou, iouThreshold);
    assert forall y :: y in rest ==> iou(head.box, y.box) <= iouThreshold by {
      GreedyMembers(kept, maxOutput - 1, iou, iouThreshold);
      SuppressMembers(sorted[1..], head.box, iou, iouThreshold);
    }
    ConsSeparated(head, rest, iou, iouThreshold);
  }

  lemma ConsSeparated(head: Row, rest: seq<Row>, iou: (Box, Box) -> real, iouThreshold: real)
    requires Separated(rest, iou, iouThreshold)
    requires forall y :: y in rest ==> iou(head.box, y.box) <= iouThreshold
    ensures Separated([head] + rest, iou, iouThreshold)
  {
    var r := [head] + rest;
    forall i, j | 0 <= i < j < |r| ensures iou(r[i].box, r[j].box) <= iouThreshold {
      assert r[j] == rest[j - 1];
      if i > 0 {
        assert r[i] == rest[i - 1];
      }
    }
  }

  /** Selection from score-sorted rows comes out score-sorted. */
  lemma {:induction false} GreedyNonIncreasing(sorted: seq<Row>, maxOutput: nat, iou: (Box, Box) -> real, iouThreshold: real)
    requires NonIncreasing(sorted)
    ensures NonIncreasing(Greedy(sorted, maxOutput, iou, iouThreshold))
    decreases |sorted|
  {
    if sorted != [] && maxOutput > 0 {
      TailNonIncreasing(sorted);
      SuppressNonIncreasing(sorted[1..], sorted[0].box, iou, iouThreshold);
      GreedyNonIncreasing(Suppress(sorted[1..], sorted[0].box, iou, iouThreshold), maxOutput - 1, iou, iouThreshold);
      GreedyNonIncreasingStep(sorted, maxOutput, iou, iouThreshold);
    }
  }

  /** The inductive step of `GreedyNonIncreasing`: the first row outscores everything selected after it. */
  lemma GreedyNonIncreasingStep(sorted: seq<Row>, maxOutput: nat, iou: (Box, Box) -> real, iouThreshold: real)
    requires sorted != [] && maxOutput > 0 && NonIncreasing(sorted)
    requires NonIncreasing(Greedy(Suppress(sorted[1..], sorted[0].box, iou, iouThreshold), maxOutput - 1, iou, iouThreshold))
    ensures NonIncreasing(Greedy(sorted, maxOutput, iou, iouThreshold))
  {
    var head := sorted[0];
    var kept := Suppress(sorted[1..], head.box, iou, iouThreshold);
    var rest := Greedy(kept, maxOutput - 1, iou, iouThreshold);
    GreedyStep(sorted, maxOutput, iou, iouThreshold);
    TailScoresAtMostHead(sorted);
    SuppressMembers(sorted[1..], head.box, iou, iouThreshold);
    ScoresAtMostSubset(kept, sorted[1..], head.score);
    GreedyMembers(kept, maxOutput - 1, iou, iouThreshold);
    ScoresAtMostSubset(rest, kept, head.score);
    ConsNonIncreasing(head, rest);
  }

  /**
   * Row `x` is accounted for by the selection `r`: selected, suppressed by a
   * selected row scoring at least as high and overlapping it by more than
   * `iouThreshold`, or cut off because `r` already holds `maxOutput` rows
   * that all score at least as high.
   */
  predicate Accounted(x: Row, r: seq<Row>, maxOutput: nat, iou: (Box, Box) -> real, iouThreshold: real) {
    || x in r
    || (|r| == maxOutput && forall y :: y in r ==> y.score >= x.score)
    || exists y :: y in r && y.score >= x.score && iou(y.box, x.box) > iouThreshold
  }

  /** Greedy selection accounts for every row it was given. */
  lemma {:induction false} GreedyComplete(sorted: seq<Row>, maxOutput: nat, iou: (Box, Box) -> real, iouThreshold: real, x: Row)
    requires NonIncreasing(sorted) && x in sorted
    ensures Accounted(x, Greedy(sorted, maxOutput, iou, iouThreshold), maxOutput, iou, iouThreshold)
    decreases |sorted|
  {
    if maxOutput > 0 {
      var head := sorted[0];
      var kept := Suppress(sorted[1..], head.box, iou, iouThreshold);
      var rest := Greedy(kept, maxOutput - 1, iou, iouThreshold);
      var r := [head] + rest;
      GreedyStep(sorted, maxOutput, iou, iouThreshold);
      if x == head {
        assert head in r;
      } else {
        assert x in sorted[1..] by {
          var k :| 0 <= k < |sorted| && sorted[k] == x;
          assert sorted[1..][k - 1] == x;
        }
        if iou(head.box, x.box) > iouThreshold {
          TailScoresAtMostHead(sorted);
          assert head in r && head.score >= x.score;
        } else {
          SuppressMembers(sorted[1..], head.box, iou, iouThreshold);
          assert x in kept;
          TailNonIncreasing(sorted);
          SuppressNonIncreasing(sorted[1..], head.box, iou, iouThreshold);
          GreedyComplete(kept, maxOutput - 1, iou, iouThreshold, x);
          if x in rest {
            assert x in r;
          } else if |rest| == maxOutput - 1 && forall y :: y in rest ==> y.score >= x.score {
            TailScoresAtMostHead(sorted);
            assert |r| == maxOutput && forall y :: y in r ==> y.score >= x.score;
          } else {
            var y :| y in rest && y.score >= x.score && iou(y.box, x.box) > iouThreshold;
            assert y in r;
          }
        }
      }
    }
  }

  /**
   * Non-maximum suppression: drop rows scoring below `scoreThreshold`, sort by
   * descending score, then select greedily.
   */
  function NonMaxSuppression(rows: seq<Row>, maxOutput: nat, iouThreshold: real, scoreThreshold: real): (r: seq<Row>)
    ensures |r| <= maxOutput && |r| <= |rows|
    ensures multiset(r) <= multiset(rows)
    ensures forall x :: x in r ==> x.score >= scoreThreshold
    ensures NonIncreasing(r)
    ensures Separated(r, Iou, iouThreshold)
    ensures forall x :: x in rows && x.score >= scoreThreshold ==> Accounted(x, r, maxOutput, Iou, iouThreshold)
  {
    var candidates := Filter(rows, (x: Row) => x.score >= scoreThreshold);
    FilterSubset(rows, (x: Row) => x.score >= scoreThreshold);
    var sorted := SortByScore(candidates);
    var r := Greedy(sorted, maxOutput, Iou, iouThreshold);
    GreedyLength(sorted, maxOutput, Iou, iouThreshold);
    GreedySubset(sorted, maxOutput, Iou, iouThreshold);
    assert multiset(r) <= multiset(rows);
    assert forall x :: x in r ==> x.score >= scoreThreshold by {
      SubMultisetMembers(r, sorted);
      SubMultisetMembers(sorted, candidates);
    }
    assert NonIncreasing(r) by {
      GreedyNonIncreasing(sorted, maxOutput, Iou, iouThreshold);
    }
    assert Separated(r, Iou, iouThreshold) by {
      GreedyPairwiseSeparated(sorted, maxOutput, Iou, iouThreshold);
    }
    assert forall x :: x in rows && x.score >= scoreThreshold ==> Accounted(x, r, maxOutput, Iou, iouThreshold) by {
      forall x | x in rows && x.score >= scoreThreshold ensures Accounted(x, r, maxOutput, Iou, iouThreshold) {
        assert x in multiset(sorted);
        GreedyComplete(sorted, maxOutput, Iou, iouThreshold, x);
      }
    }
    r
  }
}
