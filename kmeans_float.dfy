/**
 * The Lloyd loop of Kmeans with the one floating-point value that decides
 * its control flow: NaN. np.mean of an empty cluster is a row of NaN,
 * np.argmin returns the first NaN it meets, and np.array_equal is false
 * wherever either side holds a NaN. Everything else is exact, as in KMeans.
 */
module KMeansFloat {
  import opened KMeans

  /** A double as far as the loop can tell: a number, or NaN. */
  datatype Double = Num(v: real) | NaN

  /** A centroid row as the array c holds it. */
  type Row = seq<Double>

  predicate Finite(r: Row)
  {
    forall j :: 0 <= j < |r| ==> r[j].Num?
  }

  predicate Width(C: seq<Row>, d: nat)
  {
    forall k :: 0 <= k < |C| ==> |C[k]| == d
  }

  function Lift(p: Point): (r: Row)
    ensures |r| == |p| && Finite(r)
  {
    seq(|p|, j requires 0 <= j < |p| => Num(p[j]))
  }

  function LiftRows(S: seq<Point>): (C: seq<Row>)
    ensures |C| == |S| && forall k :: 0 <= k < |S| ==> C[k] == Lift(S[k])
  {
    seq(|S|, k requires 0 <= k < |S| => Lift(S[k]))
  }

  /** The numbers of a row, with NaN read as 0 (only used on finite rows). */
  function Values(r: Row): (p: Point)
    ensures |p| == |r|
  {
    seq(|r|, j requires 0 <= j < |r| => if r[j].Num? then r[j].v else 0.0)
  }

  lemma ValuesLift(p: Point)
    ensures Values(Lift(p)) == p
  {
  }

  /** np.sum(np.square(c - x)): NaN as soon as the row c holds a NaN. */
  function FloatSqDist(c: Row, x: Point): (r: Double)
    requires |c| == |x|
    ensures r.NaN? <==> !Finite(c)
  {
    if Finite(c) then Num(SqDist(Values(c), x)) else NaN
  }

  /** The distances of line 67 from the point x to every row of C. */
  function FloatDistances(C: seq<Row>, x: Point): (ds: seq<Double>)
    requires Width(C, |x|)
    ensures |ds| == |C| && forall k :: 0 <= k < |C| ==> ds[k] == FloatSqDist(C[k], x)
  {
    seq(|C|, k requires 0 <= k < |C| => FloatSqDist(C[k], x))
  }

  /** The first index from j on that holds a NaN, or |ds| when none does. */
  function FirstNaN(ds: seq<Double>, j: nat): (r: nat)
    requires j <= |ds|
    ensures j <= r <= |ds|
    decreases |ds| - j
  {
    if j == |ds| then |ds| else if ds[j].NaN? then j else FirstNaN(ds, j + 1)
  }

  lemma {:induction false} FirstNaNSpec(ds: seq<Double>, j: nat)
    requires j <= |ds|
    ensures var r := FirstNaN(ds, j);
      (forall i :: j <= i < r ==> ds[i].Num?) && (r < |ds| ==> ds[r].NaN?)
    decreases |ds| - j
  {
    if j < |ds| && ds[j].Num? {
      FirstNaNSpec(ds, j + 1);
    }
  }

  /** np.argmin: the first NaN when there is one, otherwise the first minimal number. */
  function FloatArgmin(ds: seq<Double>): (k: nat)
    requires |ds| > 0
    ensures k < |ds|
  {
    var j := FirstNaN(ds, 0);
    if j < |ds| then j else Argmin(Values(ds))
  }

  /** Lines 66-67 against the array c holding C. */
  function FloatLabels(X: seq<Point>, C: seq<Row>, d: nat): (L: seq<nat>)
    requires Rows(X, d) && Width(C, d) && |C| > 0
    ensures |L| == |X| && forall i :: 0 <= i < |X| ==> L[i] == FloatArgmin(FloatDistances(C, X[i])) < |C|
  {
    seq(|X|, i requires 0 <= i < |X| => FloatArgmin(FloatDistances(C, X[i])))
  }

  /** np.mean(X[(a == k).ravel()], 0) of line 70: a row of NaN when the cluster is empty. */
  function FloatMean(X: seq<Point>, L: seq<nat>, k: nat, d: nat): (r: Row)
    requires |L| == |X| && Rows(X, d)
    ensures |r| == d
  {
    if |Members(X, L, k)| == 0 then seq(d, _ => NaN) else Lift(Centroid(X, L, k, d))
  }

  /** One pass of the loop, lines 66-70: the rows written into c_temp. */
  function FloatPass(X: seq<Point>, C: seq<Row>, K: nat, d: nat): (C': seq<Row>)
    requires Rows(X, d) && Width(C, d) && |C| == K >= 1
    ensures |C'| == K && Width(C', d)
  {
    var L := FloatLabels(X, C, d);
    seq(K, k requires 0 <= k < K => FloatMean(X, L, k, d))
  }

  /** np.array_equal: the same shape and equal entries, where NaN equals nothing, not even NaN. */
  predicate ArrayEqual(A: seq<Row>, B: seq<Row>)
  {
    |A| == |B| &&
    forall k :: 0 <= k < |A| ==>
      |A[k]| == |B[k]| && forall j :: 0 <= j < |A[k]| ==> A[k][j].Num? && B[k][j].Num? && A[k][j].v == B[k][j].v
  }

  /** The rows of c_temp after n passes from the seeds S (the seeds themselves for n = 0). */
  function State(X: seq<Point>, K: nat, d: nat, S: seq<Point>, n: nat): (C: seq<Row>)
    requires Rows(X, d) && Rows(S, d) && |S| == K >= 1
    ensures |C| == K && Width(C, d)
  {
    if n == 0 then LiftRows(S) else FloatPass(X, State(X, K, d, S, n - 1), K, d)
  }

  /**
   * Whether pass n >= 1 sets converged at line 71. Pass 1 compares c_temp
   * with the seed array; after line 73 c and c_temp are one array, so
   * every later pass compares that array with itself.
   */
  predicate Converges(X: seq<Point>, K: nat, d: nat, S: seq<Point>, n: nat)
    requires Rows(X, d) && Rows(S, d) && |S| == K >= 1 && n >= 1
  {
    if n == 1 then ArrayEqual(State(X, K, d, S, 1), State(X, K, d, S, 0))
    else ArrayEqual(State(X, K, d, S, n), State(X, K, d, S, n))
  }

  // ----- Agreement with the exact model while no cluster empties -----

  /** On finite rows the labels are those of the exact model. */
  lemma FloatLabelsLift(X: seq<Point>, S: seq<Point>, d: nat)
    requires Rows(X, d) && Rows(S, d) && |S| > 0
    ensures FloatLabels(X, LiftRows(S), d) == Labels(X, S, d)
  {
    var C := LiftRows(S);
    forall i | 0 <= i < |X|
      ensures FloatArgmin(FloatDistances(C, X[i])) == Nearest(S, X[i])
    {
      var ds := FloatDistances(C, X[i]);
      FirstNaNSpec(ds, 0);
      forall k | 0 <= k < |S|
        ensures ds[k] == Num(SqDist(S[k], X[i]))
      {
        ValuesLift(S[k]);
      }
      assert Values(ds) == Distances(S, X[i]);
    }
  }

  /** While no cluster is empty, a pass from finite rows is the exact means step. */
  lemma FloatPassLift(X: seq<Point>, S: seq<Point>, K: nat, d: nat)
    requires Rows(X, d) && Rows(S, d) && |S| == K >= 1 && NoEmptyCluster(X, Labels(X, S, d), K)
    ensures FloatPass(X, LiftRows(S), K, d) == LiftRows(Means(X, Labels(X, S, d), K, d))
  {
    FloatLabelsLift(X, S, d);
  }

  /** On finite rows, array_equal is equality of the numbers. */
  lemma ArrayEqualLift(A: seq<Point>, B: seq<Point>, d: nat)
    requires Rows(A, d) && Rows(B, d)
    ensures ArrayEqual(LiftRows(A), LiftRows(B)) <==> A == B
  {
    if ArrayEqual(LiftRows(A), LiftRows(B)) {
      forall k | 0 <= k < |A|
        ensures A[k] == B[k]
      {
        assert forall j :: 0 <= j < d ==> LiftRows(A)[k][j].v == A[k][j];
        assert forall j :: 0 <= j < d ==> LiftRows(B)[k][j].v == B[k][j];
      }
    }
  }

  // ----- An empty cluster never lets the loop stop -----

  /** Row j is the first row of C that holds a NaN. */
  predicate FirstBad(C: seq<Row>, j: nat)
  {
    j < |C| && !Finite(C[j]) && forall k :: 0 <= k < j ==> Finite(C[k])
  }

  /** Once a row holds a NaN, np.argmin sends every point to the first such row. */
  lemma NaNLabels(X: seq<Point>, C: seq<Row>, d: nat, j: nat)
    requires Rows(X, d) && Width(C, d) && |C| > 0 && FirstBad(C, j)
    ensures forall i :: 0 <= i < |X| ==> FloatLabels(X, C, d)[i] == j
  {
    forall i | 0 <= i < |X|
      ensures FloatArgmin(FloatDistances(C, X[i])) == j
    {
      var ds := FloatDistances(C, X[i]);
      FirstNaNSpec(ds, 0);
      var r := FirstNaN(ds, 0);
      assert ds[j].NaN?;
    }
  }

  /** Some row of C holds a NaN. */
  predicate HasNaN(C: seq<Row>)
  {
    exists k :: 0 <= k < |C| && !Finite(C[k])
  }

  lemma {:induction false} FirstBadExists(C: seq<Row>, k: nat)
    requires k < |C| && !Finite(C[k])
    ensures exists j :: FirstBad(C, j)
    decreases k
  {
    if !FirstBad(C, k) {
      var k' :| 0 <= k' < k && !Finite(C[k']);
      FirstBadExists(C, k');
    }
  }

  /** With two or more clusters and a feature, a NaN row in c leaves a NaN row after the next pass. */
  lemma NaNPersists(X: seq<Point>, C: seq<Row>, K: nat, d: nat)
    requires Rows(X, d) && Width(C, d) && |C| == K >= 2 && d >= 1 && HasNaN(C)
    ensures HasNaN(FloatPass(X, C, K, d))
  {
    var k0 :| 0 <= k0 < |C| && !Finite(C[k0]);
    FirstBadExists(C, k0);
    var j :| FirstBad(C, j);
    NaNLabels(X, C, d, j);
    var L := FloatLabels(X, C, d);
    var k := if j == 0 then 1 else 0;
    MembersOthersEmpty(X, L, j, k);
    var C': seq<Row> := FloatPass(X, C, K, d);
    assert C'[k] == seq(d, _ => NaN);
    assert C'[k][0].NaN?;
  }

  /** A pass from finite rows that meets an empty cluster writes a NaN row. */
  lemma EmptyClusterNaN(X: seq<Point>, S: seq<Point>, K: nat, d: nat)
    requires Rows(X, d) && Rows(S, d) && |S| == K >= 1 && d >= 1 && !NoEmptyCluster(X, Labels(X, S, d), K)
    ensures HasNaN(FloatPass(X, LiftRows(S), K, d))
  {
    FloatLabelsLift(X, S, d);
    var L := Labels(X, S, d);
    var k :| 0 <= k < K && |Members(X, L, k)| == 0;
    var C': seq<Row> := FloatPass(X, LiftRows(S), K, d);
    assert C'[k][0].NaN?;
  }

  /** array_equal is false when its first argument holds a NaN. */
  lemma NaNNotEqual(A: seq<Row>, B: seq<Row>)
    requires HasNaN(A)
    ensures !ArrayEqual(A, B)
  {
    var k :| 0 <= k < |A| && !Finite(A[k]);
    var j :| 0 <= j < |A[k]| && !A[k][j].Num?;
  }

  lemma {:induction false} StateHasNaN(X: seq<Point>, K: nat, d: nat, S: seq<Point>, n: nat)
    requires Rows(X, d) && Rows(S, d) && |S| == K >= 2 && d >= 1 && !NoEmptyCluster(X, Labels(X, S, d), K)
    requires n >= 1
    ensures HasNaN(State(X, K, d, S, n))
  {
    if n == 1 {
      EmptyClusterNaN(X, S, K, d);
      assert State(X, K, d, S, 1) == FloatPass(X, LiftRows(S), K, d);
    } else {
      StateHasNaN(X, K, d, S, n - 1);
      NaNPersists(X, State(X, K, d, S, n - 1), K, d);
    }
  }

  /**
   * As written, with two or more clusters, if the first pass from the
   * seeds leaves a cluster empty then no pass ever sets converged: the
   * loop does not terminate.
   */
  lemma NeverConverges(X: seq<Point>, K: nat, d: nat, S: seq<Point>, n: nat)
    requires Rows(X, d) && Rows(S, d) && |S| == K >= 2 && d >= 1 && !NoEmptyCluster(X, Labels(X, S, d), K)
    requires n >= 1
    ensures !Converges(X, K, d, S, n)
  {
    StateHasNaN(X, K, d, S, n);
    NaNNotEqual(State(X, K, d, S, n), State(X, K, d, S, if n == 1 then 0 else n));
  }

  /** Once some pass m writes a NaN row, every later pass holds one too. */
  lemma {:induction false} NaNFrom(X: seq<Point>, K: nat, d: nat, S: seq<Point>, m: nat, n: nat)
    requires Rows(X, d) && Rows(S, d) && |S| == K >= 2 && d >= 1
    requires 1 <= m <= n && HasNaN(State(X, K, d, S, m))
    ensures HasNaN(State(X, K, d, S, n))
    decreases n - m
  {
    if m < n {
      NaNPersists(X, State(X, K, d, S, m), K, d);
      NaNFrom(X, K, d, S, m + 1, n);
    }
  }

  /**
   * As written, the same holds when the first pass empties no cluster and
   * moves the centroids, but the second pass empties one: pass 2 writes a
   * NaN row into the array that is then compared with itself, so no pass
   * from the second on sets converged.
   */
  lemma SecondPassNeverConverges(X: seq<Point>, K: nat, d: nat, S: seq<Point>, n: nat)
    requires Rows(X, d) && Rows(S, d) && |S| == K >= 2 && d >= 1 && NoEmptyCluster(X, Labels(X, S, d), K)
    requires var M1 := Means(X, Labels(X, S, d), K, d); M1 != S && !NoEmptyCluster(X, Labels(X, M1, d), K)
    requires n >= 2
    ensures !Converges(X, K, d, S, n)
  {
    var M1 := Means(X, Labels(X, S, d), K, d);
    FloatPassLift(X, S, K, d);
    assert State(X, K, d, S, 1) == LiftRows(M1);
    EmptyClusterNaN(X, M1, K, d);
    assert State(X, K, d, S, 2) == FloatPass(X, LiftRows(M1), K, d);
    NaNFrom(X, K, d, S, 2, n);
    NaNNotEqual(State(X, K, d, S, n), State(X, K, d, S, n));
  }

  /**
   * The duplicate seeds [[0], [0]] that the seeder can draw from
   * X = [[0], [0], [1]] label every point 0 and leave cluster 1 empty, so
   * the loop never stops.
   */
  lemma NaNLoopExample(n: nat)
    requires n >= 1
    ensures !Converges([[0.0], [0.0], [1.0]], 2, 1, [[0.0], [0.0]], n)
  {
    var X := [[0.0], [0.0], [1.0]];
    KeepPass1();
    MembersOthersEmpty(X, [0, 0, 0], 0, 1);
    NeverConverges(X, 2, 1, [[0.0], [0.0]], n);
  }
}
