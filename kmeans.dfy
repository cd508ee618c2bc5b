/**
 * k-means clustering with k-means++ seeding over exact reals: the seeder
 * draws centroids one by one from a shrinking copy of the data, and the
 * Lloyd loop labels every point with its nearest centroid and recomputes
 * the centroids as cluster means, writing into a second buffer that the
 * loop then aliases with the first.
 */
module KMeans {

  /** A data point or centroid: one real per feature. */
  type Point = seq<real>

  datatype Result<T> = Ok(value: T) | Err

  function Square(x: real): (r: real)
    ensures r >= 0.0
  {
    SquarePositive(x);
    x * x
  }

  lemma SquarePositive(x: real)
    ensures x * x >= 0.0
  {
    if x > 0.0 {
      MulPositive(x, x);
    } else if x < 0.0 {
      var y := -x;
      MulPositive(y, y);
      assert y * y == x * x;
    }
  }

  lemma SquareZero(x: real)
    requires Square(x) == 0.0
    ensures x == 0.0
  {
    MulZero(x, x);
  }

  lemma MulZero(a: real, b: real)
    requires a * b == 0.0
    ensures a == 0.0 || b == 0.0
  {
  }

  lemma MulPositive(a: real, b: real)
    requires a > 0.0 && b > 0.0
    ensures a * b > 0.0
  {
  }

  /** The squared Euclidean distance, the row sum of np.square(p - q). */
  function SqDist(p: Point, q: Point): (r: real)
    requires |p| == |q|
    ensures r >= 0.0
  {
    if |p| == 0 then 0.0 else Square(p[0] - q[0]) + SqDist(p[1..], q[1..])
  }

  /** The distance is zero exactly between equal points. */
  lemma {:induction false} SqDistZero(p: Point, q: Point)
    requires |p| == |q|
    ensures SqDist(p, q) == 0.0 <==> p == q
  {
    if |p| > 0 {
      SqDistZero(p[1..], q[1..]);
      if SqDist(p, q) == 0.0 {
        var e := p[0] - q[0];
        assert Square(e) == 0.0;
        SquareZero(e);
        assert p == [p[0]] + p[1..] && q == [q[0]] + q[1..];
      }
    }
  }

  /** All rows have d features. */
  predicate Rows(xs: seq<Point>, d: nat)
  {
    forall i :: 0 <= i < |xs| ==> |xs[i]| == d
  }

  /** The sum of a sequence of reals, from the front. */
  function Sum(w: seq<real>): real
  {
    if |w| == 0 then 0.0 else w[0] + Sum(w[1..])
  }

  predicate NonNegative(w: seq<real>)
  {
    forall k :: 0 <= k < |w| ==> w[k] >= 0.0
  }

  lemma {:induction false} SumNonNegative(w: seq<real>)
    requires NonNegative(w)
    ensures Sum(w) >= 0.0
  {
    if |w| > 0 {
      SumNonNegative(w[1..]);
    }
  }

  /** np.delete on axis 0: the sequence without entry k. */
  function Delete<T>(s: seq<T>, k: nat): (r: seq<T>)
    requires k < |s|
    ensures |r| == |s| - 1
    ensures forall j :: 0 <= j < k ==> r[j] == s[j]
    ensures forall j :: k <= j < |r| ==> r[j] == s[j + 1]
  {
    s[..k] + s[k + 1..]
  }

  // ----- Seeding weights -----

  /** The smallest squared distance from p to any of the columns cols (np.min over the stacked columns). */
  function MinDist(p: Point, cols: seq<Point>): (r: real)
    requires |cols| > 0 && Rows(cols, |p|)
    ensures r >= 0.0
  {
    if |cols| == 1 then SqDist(p, cols[0])
    else
      var rest := MinDist(p, cols[1..]);
      if SqDist(p, cols[0]) <= rest then SqDist(p, cols[0]) else rest
  }

  /** MinDist is the minimum: no column is nearer, and some column is that near. */
  lemma {:induction false} MinDistSpec(p: Point, cols: seq<Point>)
    requires |cols| > 0 && Rows(cols, |p|)
    ensures forall j :: 0 <= j < |cols| ==> MinDist(p, cols) <= SqDist(p, cols[j])
    ensures exists j :: 0 <= j < |cols| && MinDist(p, cols) == SqDist(p, cols[j])
  {
    if |cols| == 1 {
      assert MinDist(p, cols) == SqDist(p, cols[0]);
    } else {
      var rest := cols[1..];
      MinDistSpec(p, rest);
      assert forall j :: 1 <= j < |cols| ==> cols[j] == rest[j - 1];
      var j :| 0 <= j < |rest| && MinDist(p, rest) == SqDist(p, rest[j]);
      if SqDist(p, cols[0]) <= MinDist(p, rest) {
        assert MinDist(p, cols) == SqDist(p, cols[0]);
      } else {
        assert MinDist(p, cols) == SqDist(p, cols[j + 1]);
      }
    }
  }

  /** The weight of every candidate of the pool against the columns. */
  function Weights(pool: seq<Point>, cols: seq<Point>, d: nat): (w: seq<real>)
    requires |cols| > 0 && Rows(pool, d) && Rows(cols, d)
    ensures |w| == |pool| && NonNegative(w)
  {
    seq(|pool|, k requires 0 <= k < |pool| => MinDist(pool[k], cols))
  }

  /**
   * The columns the seeder stacks at step i = |cents|: first the row c[1]
   * (line 37), which at step 1 is still the uninitialised row junk, then
   * c[1], ..., c[i - 1] (lines 38-40). The first centroid c[0] is never
   * among them.
   */
  function SeedColumns(cents: seq<Point>, junk: Point): (cols: seq<Point>)
    requires |cents| >= 1
    ensures |cols| == |cents|
    ensures cols[0] == (if |cents| >= 2 then cents[1] else junk)
    ensures forall j :: 1 <= j < |cols| ==> cols[j] == cents[j]
  {
    [if |cents| >= 2 then cents[1] else junk] + cents[1..]
  }

  /**
   * The columns a pass measures against: those of the code as written,
   * with the uninitialised row junk, or the intended ones, every centroid
   * chosen so far.
   */
  datatype Rule = AsWritten(junk: Point) | Intended

  predicate Fits(rule: Rule, d: nat)
  {
    rule.AsWritten? ==> |rule.junk| == d
  }

  function Columns(rule: Rule, cents: seq<Point>, d: nat): (cols: seq<Point>)
    requires |cents| >= 1 && Rows(cents, d) && Fits(rule, d)
    ensures |cols| == |cents| && Rows(cols, d)
  {
    match rule
    case AsWritten(junk) => SeedColumns(cents, junk)
    case Intended => cents
  }

  /** The weights, each divided by their sum (line 43). */
  function Normalise(w: seq<real>, total: real): (p: seq<real>)
    requires total != 0.0
    ensures |p| == |w|
  {
    if |w| == 0 then [] else [w[0] / total] + Normalise(w[1..], total)
  }

  /** Entry k of the normalised weights is weight k divided by the total. */
  lemma {:induction false} NormaliseSpec(w: seq<real>, total: real)
    requires total != 0.0
    ensures forall k :: 0 <= k < |w| ==> Normalise(w, total)[k] == w[k] / total
  {
    if |w| > 0 {
      NormaliseSpec(w[1..], total);
    }
  }

  /** Normalised non-negative weights are non-negative and add up to 1. */
  lemma {:induction false} NormaliseSum(w: seq<real>)
    requires NonNegative(w) && Sum(w) > 0.0
    ensures NonNegative(Normalise(w, Sum(w)))
    ensures Sum(Normalise(w, Sum(w))) == 1.0
  {
    ScaledSum(w, Sum(w));
    DivSelf(Sum(w));
  }

  lemma DivSelf(t: real)
    requires t > 0.0
    ensures t / t == 1.0
  {
  }

  lemma {:induction false} ScaledSum(w: seq<real>, total: real)
    requires NonNegative(w) && total > 0.0
    ensures NonNegative(Normalise(w, total))
    ensures Sum(Normalise(w, total)) == Sum(w) / total
  {
    if |w| > 0 {
      ScaledSum(w[1..], total);
      var p := Normalise(w, total);
      assert p[1..] == Normalise(w[1..], total);
      assert Sum(w) / total == w[0] / total + Sum(w[1..]) / total;
    }
  }

  /**
   * np.random.choice(n, p) on the uniform draw u in [0, 1): the first index
   * whose cumulative probability exceeds u.
   */
  function Choice(p: seq<real>, u: real): (k: nat)
    requires |p| > 0
    ensures k < |p|
  {
    if |p| == 1 || u < p[0] then 0 else 1 + Choice(p[1..], u - p[0])
  }

  /** A draw below the total never lands on a candidate of weight zero. */
  lemma {:induction false} ChoicePositive(p: seq<real>, u: real)
    requires |p| > 0 && NonNegative(p) && 0.0 <= u < Sum(p)
    ensures p[Choice(p, u)] > 0.0
  {
    if |p| == 1 {
      assert Sum(p) == p[0] + Sum(p[1..]) == p[0];
    } else if !(u < p[0]) {
      assert forall k :: 0 <= k < |p| - 1 ==> p[1..][k] == p[k + 1];
      ChoicePositive(p[1..], u - p[0]);
    }
  }

  // ----- The k-means++ seeder -----

  /**
   * The seeder's state after choosing |cents| centroids: the chosen
   * centroids, the shrinking copy of the data, and, as bookkeeping, the
   * position in X of every pool row (origin) and of every centroid (picked).
   */
  datatype Seeding = Seeding(cents: seq<Point>, pool: seq<Point>, origin: seq<nat>, picked: seq<nat>)

  function Indices(n: nat): (r: seq<nat>)
    ensures |r| == n && forall i :: 0 <= i < n ==> r[i] == i
  {
    seq(n, i requires 0 <= i => i)
  }

  predicate Distinct(s: seq<nat>)
  {
    forall i, j :: 0 <= i < j < |s| ==> s[i] != s[j]
  }

  /** Lines 26-32: the first centroid is X[first], and that row leaves the copy. */
  function SeedStart(X: seq<Point>, first: nat): (s: Seeding)
    requires first < |X|
    ensures |s.cents| == 1 && |s.pool| == |X| - 1
  {
    Seeding([X[first]], Delete(X, first), Delete(Indices(|X|), first), [first])
  }

  /** The shape every reachable seeder state has. */
  predicate Shaped(s: Seeding, d: nat)
  {
    |s.cents| >= 1 && |s.origin| == |s.pool| && Rows(s.cents, d) && Rows(s.pool, d)
  }

  /** The weights of lines 37-41 at the step that draws centroid |s.cents|. */
  function SeedWeights(s: Seeding, rule: Rule, d: nat): (w: seq<real>)
    requires Shaped(s, d) && Fits(rule, d)
    ensures |w| == |s.pool| && NonNegative(w)
  {
    Weights(s.pool, Columns(rule, s.cents, d), d)
  }

  /**
   * The draw of line 44 with the uniform draw u: the position in the pool
   * of the next centroid, or Err when the weights add up to zero, where
   * the division at line 43 yields NaN and the draw fails (this covers an
   * empty pool).
   */
  function SeedDraw(s: Seeding, rule: Rule, d: nat, u: real): (r: Result<nat>)
    requires Shaped(s, d) && Fits(rule, d)
    ensures r.Ok? ==> r.value < |s.pool|
  {
    var w := SeedWeights(s, rule, d);
    SumNonNegative(w);
    if Sum(w) == 0.0 then Err
    else Ok(Choice(Normalise(w, Sum(w)), u))
  }

  /** Lines 45-46: pool row k becomes the next centroid and leaves the copy. */
  function Move(s: Seeding, k: nat): (t: Seeding)
    requires k < |s.pool| && |s.origin| == |s.pool|
    ensures |t.cents| == |s.cents| + 1 && |t.pool| == |s.pool| - 1 && |t.origin| == |t.pool|
  {
    Seeding(s.cents + [s.pool[k]], Delete(s.pool, k), Delete(s.origin, k), s.picked + [s.origin[k]])
  }

  /** One pass of the loop at lines 35-46: the draw, then the move. */
  function SeedStep(s: Seeding, rule: Rule, d: nat, u: real): (r: Result<Seeding>)
    requires Shaped(s, d) && Fits(rule, d)
    ensures r.Ok? ==> Shaped(r.value, d) && |r.value.cents| == |s.cents| + 1 && |r.value.pool| == |s.pool| - 1
  {
    match SeedDraw(s, rule, d, u)
    case Err => Err
    case Ok(k) => Ok(Move(s, k))
  }

  /**
   * Passes i, ..., K - 1 of the loop from state s, pass i drawing with
   * us[i - 1]; Err as soon as one pass fails.
   */
  function SeedRun(s: Seeding, rule: Rule, d: nat, us: seq<real>, i: nat, K: nat): (r: Result<Seeding>)
    requires Shaped(s, d) && Fits(rule, d) && 1 <= i <= K && K <= |us| + 1 && |s.cents| == i
    ensures r.Ok? ==> Shaped(r.value, d) && |r.value.cents| == K && |r.value.pool| == |s.pool| - (K - i)
    decreases K - i
  {
    if i == K then Ok(s)
    else
      match SeedStep(s, rule, d, us[i - 1])
      case Err => Err
      case Ok(t) => SeedRun(t, rule, d, us, i + 1, K)
  }

  /** The K centroids kmeanspp draws, the draws being X[first] and then us[0], ..., us[K - 2]. */
  function Seeds(X: seq<Point>, d: nat, first: nat, rule: Rule, us: seq<real>, K: nat): (r: Result<Seeding>)
    requires Rows(X, d) && first < |X| && Fits(rule, d) && 1 <= K <= |us| + 1
    ensures r.Ok? ==> Shaped(r.value, d) && |r.value.cents| == K && |r.value.pool| == |X| - K
  {
    var s := SeedStart(X, first);
    assert forall k :: 0 <= k < |s.pool| ==> s.pool[k] in X;
    SeedRun(s, rule, d, us, 1, K)
  }

  /**
   * Every centroid and every pool row is the row of X its bookkeeping
   * index names, and no position of X is both chosen and in the pool, or
   * chosen twice: together the two index lists are a permutation of the
   * positions of X.
   */
  predicate WellFormed(X: seq<Point>, s: Seeding)
  {
    && |s.picked| == |s.cents| && |s.origin| == |s.pool|
    && |s.picked| + |s.origin| == |X|
    && (forall j :: 0 <= j < |s.cents| ==> s.picked[j] < |X| && s.cents[j] == X[s.picked[j]])
    && (forall k :: 0 <= k < |s.pool| ==> s.origin[k] < |X| && s.pool[k] == X[s.origin[k]])
    && Distinct(s.picked) && Distinct(s.origin)
    && (forall x :: x in s.picked ==> x !in s.origin)
  }

  lemma DeleteMembers<T>(s: seq<T>, k: nat)
    requires k < |s|
    ensures forall x :: x in Delete(s, k) ==> x in s
  {
    forall x | x in Delete(s, k)
      ensures x in s
    {
      var j :| 0 <= j < |Delete(s, k)| && Delete(s, k)[j] == x;
      if j < k { assert s[j] == x; } else { assert s[j + 1] == x; }
    }
  }

  lemma DeleteDistinct(s: seq<nat>, k: nat)
    requires k < |s| && Distinct(s)
    ensures Distinct(Delete(s, k)) && s[k] !in Delete(s, k)
  {
    var r := Delete(s, k);
    forall i, j | 0 <= i < j < |r|
      ensures r[i] != r[j]
    {
      var i' := if i < k then i else i + 1;
      var j' := if j < k then j else j + 1;
      assert r[i] == s[i'] && r[j] == s[j'];
    }
  }

  lemma SeedStartWellFormed(X: seq<Point>, first: nat)
    requires first < |X|
    ensures WellFormed(X, SeedStart(X, first))
  {
    var s := SeedStart(X, first);
    DeleteDistinct(Indices(|X|), first);
    forall k | 0 <= k < |s.pool|
      ensures s.origin[k] < |X| && s.pool[k] == X[s.origin[k]]
    {
      if k < first { assert s.origin[k] == k; } else { assert s.origin[k] == k + 1; }
    }
  }

  /** A pass of the loop moves one row, with its index, from the pool to the centroids. */
  lemma MoveWellFormed(X: seq<Point>, s: Seeding, k: nat)
    requires WellFormed(X, s) && k < |s.pool|
    ensures WellFormed(X, Move(s, k))
  {
    var t := Move(s, k);
    DeleteDistinct(s.origin, k);
    DeleteMembers(s.origin, k);
    assert s.origin[k] !in s.picked;
    forall j | 0 <= j < |t.cents|
      ensures t.picked[j] < |X| && t.cents[j] == X[t.picked[j]]
    {
      if j == |s.cents| {
        assert t.cents[j] == s.pool[k];
      } else {
        assert t.cents[j] == s.cents[j] && t.picked[j] == s.picked[j];
      }
    }
    forall x | x in t.picked
      ensures x !in t.origin
    {
      if x != s.origin[k] {
        assert x in s.picked;
      }
    }
  }

  lemma SeedStepWellFormed(X: seq<Point>, s: Seeding, rule: Rule, d: nat, u: real, t: Seeding)
    requires Shaped(s, d) && Fits(rule, d) && WellFormed(X, s)
    requires SeedStep(s, rule, d, u) == Ok(t)
    ensures WellFormed(X, t)
  {
    MoveWellFormed(X, s, SeedDraw(s, rule, d, u).value);
  }

  /**
   * The seeder draws K centroids, each a row of X, from K different
   * positions of X; the pool keeps the N - K rows at the other positions.
   */
  lemma SeedsWellFormed(X: seq<Point>, d: nat, first: nat, rule: Rule, us: seq<real>, K: nat)
    requires Rows(X, d) && first < |X| && Fits(rule, d) && 1 <= K <= |us| + 1
    requires Seeds(X, d, first, rule, us, K).Ok?
    ensures WellFormed(X, Seeds(X, d, first, rule, us, K).value)
    ensures forall j :: 0 <= j < K ==> Seeds(X, d, first, rule, us, K).value.cents[j] in X
  {
    SeedStartWellFormed(X, first);
    RunWellFormed(X, SeedStart(X, first), rule, d, us, 1, K);
    var r := Seeds(X, d, first, rule, us, K).value;
    forall j | 0 <= j < K
      ensures r.cents[j] in X
    {
      assert r.cents[j] == X[r.picked[j]];
    }
  }

  /** Passes from a well-formed seeding keep it well-formed. */
  lemma {:induction false} RunWellFormed(X: seq<Point>, s: Seeding, rule: Rule, d: nat, us: seq<real>, i: nat, K: nat)
    requires Shaped(s, d) && Fits(rule, d) && 1 <= i <= K && K <= |us| + 1 && |s.cents| == i && WellFormed(X, s)
    requires SeedRun(s, rule, d, us, i, K).Ok?
    ensures WellFormed(X, SeedRun(s, rule, d, us, i, K).value)
    decreases K - i
  {
    if i < K {
      SeedRunNext(s, rule, d, us, i, K);
      var t := SeedStep(s, rule, d, us[i - 1]).value;
      SeedStepWellFormed(X, s, rule, d, us[i - 1], t);
      RunWellFormed(X, t, rule, d, us, i + 1, K);
    }
  }

  /**
   * A draw in [0, 1) never picks a candidate of weight zero, so the new
   * centroid differs from every column. As written these are c[1], ...,
   * c[i - 1] (at i = 1 the uninitialised row), so it may still equal c[0].
   */
  lemma SeedStepPositive(s: Seeding, rule: Rule, d: nat, u: real)
    requires Shaped(s, d) && Fits(rule, d) && 0.0 <= u < 1.0
    requires SeedStep(s, rule, d, u).Ok?
    ensures var t := SeedStep(s, rule, d, u).value;
      var cols := Columns(rule, s.cents, d);
      MinDist(t.cents[|s.cents|], cols) > 0.0 &&
      forall j :: 0 <= j < |cols| ==> t.cents[|s.cents|] != cols[j]
  {
    var w := SeedWeights(s, rule, d);
    SumNonNegative(w);
    ChosenPositive(w, u);
    var k := SeedDraw(s, rule, d, u).value;
    assert SeedStep(s, rule, d, u).value.cents[|s.cents|] == s.pool[k];
    PositiveDiffers(s.pool[k], Columns(rule, s.cents, d));
  }

  /** The draw np.random.choice(n, p=w / sum(w)) lands on a positive weight. */
  lemma ChosenPositive(w: seq<real>, u: real)
    requires NonNegative(w) && Sum(w) > 0.0 && 0.0 <= u < 1.0
    ensures |w| > 0 && w[Choice(Normalise(w, Sum(w)), u)] > 0.0
  {
    NormaliseSum(w);
    NormaliseSpec(w, Sum(w));
    var p := Normalise(w, Sum(w));
    ChoicePositive(p, u);
  }

  /** A point at positive distance from every column equals none of them. */
  lemma PositiveDiffers(x: Point, cols: seq<Point>)
    requires |cols| > 0 && Rows(cols, |x|) && MinDist(x, cols) > 0.0
    ensures forall j :: 0 <= j < |cols| ==> x != cols[j]
  {
    MinDistSpec(x, cols);
    forall j | 0 <= j < |cols|
      ensures x != cols[j]
    {
      if x == cols[j] {
        SqDistZero(x, cols[j]);
        assert false;
      }
    }
  }

  /**
   * The weights, and hence the pass, do not depend on the first centroid
   * c[0] at all: replacing it by any other row changes nothing.
   */
  lemma SeedIgnoresFirst(s: Seeding, y: Point, junk: Point, d: nat, u: real)
    requires Shaped(s, d) && |junk| == d && |y| == d
    ensures var s' := s.(cents := [y] + s.cents[1..]);
      Shaped(s', d) && SeedWeights(s', AsWritten(junk), d) == SeedWeights(s, AsWritten(junk), d)
  {
    var s' := s.(cents := [y] + s.cents[1..]);
    assert s'.cents[1..] == s.cents[1..];
  }

  /** Lines 37-40: the rows whose distances are stacked, c[1] and then c[1], ..., c[i - 1]. */
  method StackColumns(c: array<Point>, i: nat) returns (cols: seq<Point>)
    requires 1 <= i && 2 <= c.Length && i <= c.Length
    ensures cols == [c[1]] + c[1..i]
  {
    cols := [c[1]];
    var j := 1;
    while j < i
      invariant 1 <= j <= i
      invariant cols == [c[1]] + c[1..j]
    {
      cols := cols + [c[j]];
      j := j + 1;
    }
  }

  /**
   * One pass of the loop at lines 36-46, drawing centroid i into c[i] with
   * the uniform draw u; drawn is false where the source fails.
   */
  method DrawCentroid(c: array<Point>, i: nat, pool: seq<Point>, junk: Point, d: nat, u: real, ghost st: Seeding)
    returns (pool': seq<Point>, drawn: bool)
    requires Shaped(st, d) && |junk| == d && |st.cents| == i < c.Length
    requires c[..i] == st.cents && pool == st.pool && c[i] == junk
    modifies c
    ensures drawn <==> SeedStep(st, AsWritten(junk), d, u).Ok?
    ensures drawn ==> c[..i + 1] == SeedStep(st, AsWritten(junk), d, u).value.cents && pool' == SeedStep(st, AsWritten(junk), d, u).value.pool
    ensures forall j :: 0 <= j < c.Length && j != i ==> c[j] == old(c[j])
  {
    var cols := StackColumns(c, i);
    assert c[1..i] == st.cents[1..];
    assert cols == Columns(AsWritten(junk), st.cents, d);
    var w := Weights(pool, cols, d);
    var total := Sum(w);
    if total == 0.0 {
      return pool, false;
    }
    var k := Choice(Normalise(w, total), u);
    c[i] := pool[k];
    pool' := Delete(pool, k);
    drawn := true;
    assert c[..i + 1] == old(c[..i]) + [c[i]];
  }

  /**
   * kmeanspp (lines 23-49): c starts as K copies of the uninitialised row
   * junk; the first centroid is X[first] (the randint draw) and pass i
   * draws with us[i - 1] (the uniform draw behind np.random.choice).
   * ok is false where the source fails on a zero weight sum.
   */
  method Kmeanspp(X: seq<Point>, K: nat, d: nat, first: nat, junk: Point, us: seq<real>) returns (c: array<Point>, ok: bool)
    requires Rows(X, d) && first < |X| && |junk| == d
    requires 1 <= K <= |us| + 1
    ensures c.Length == K
    ensures ok <==> Seeds(X, d, first, AsWritten(junk), us, K).Ok?
    ensures ok ==> c[..] == Seeds(X, d, first, AsWritten(junk), us, K).value.cents
  {
    c := new Point[K](_ => junk);
    c[0] := X[first];
    var pool := Delete(X, first);
    ghost var st := SeedStart(X, first);
    ghost var goal := Seeds(X, d, first, AsWritten(junk), us, K);
    var i := 1;
    while i < K
      invariant 1 <= i <= K
      invariant Shaped(st, d) && |st.cents| == i
      invariant SeedRun(st, AsWritten(junk), d, us, i, K) == goal
      invariant c[..i] == st.cents && pool == st.pool
      invariant forall j :: i <= j < K ==> c[j] == junk
    {
      var drawn;
      pool, drawn := DrawCentroid(c, i, pool, junk, d, us[i - 1], st);
      if !drawn {
        ok := false;
        return;
      }
      st := SeedStep(st, AsWritten(junk), d, us[i - 1]).value;
      i := i + 1;
    }
    ok := true;
    assert c[..] == c[..i];
  }

  // ----- Lloyd iterations -----

  /** The distances np.sum(np.square(c - x), 1) of line 67, one per centroid. */
  function Distances(cents: seq<Point>, x: Point): (ds: seq<real>)
    requires Rows(cents, |x|)
    ensures |ds| == |cents| && forall k :: 0 <= k < |cents| ==> ds[k] == SqDist(cents[k], x)
  {
    seq(|cents|, k requires 0 <= k < |cents| => SqDist(cents[k], x))
  }

  /** np.argmin scanning from index j with incumbent best: a later entry wins only when strictly smaller. */
  function ArgminFrom(ds: seq<real>, j: nat, best: nat): (k: nat)
    requires best < j <= |ds|
    ensures k < |ds|
    decreases |ds| - j
  {
    if j == |ds| then best
    else ArgminFrom(ds, j + 1, if ds[j] < ds[best] then j else best)
  }

  function Argmin(ds: seq<real>): (k: nat)
    requires |ds| > 0
    ensures k < |ds|
  {
    ArgminFrom(ds, 1, 0)
  }

  lemma {:induction false} ArgminFromSpec(ds: seq<real>, j: nat, best: nat)
    requires best < j <= |ds|
    requires forall i :: 0 <= i < j ==> ds[best] <= ds[i]
    requires forall i :: 0 <= i < best ==> ds[best] < ds[i]
    ensures var k := ArgminFrom(ds, j, best);
      (forall i :: 0 <= i < |ds| ==> ds[k] <= ds[i]) && (forall i :: 0 <= i < k ==> ds[k] < ds[i])
    decreases |ds| - j
  {
    if j < |ds| {
      ArgminFromSpec(ds, j + 1, if ds[j] < ds[best] then j else best);
    }
  }

  /** np.argmin returns the first index of a minimal entry. */
  lemma ArgminSpec(ds: seq<real>)
    requires |ds| > 0
    ensures Argmin(ds) < |ds|
    ensures forall i :: 0 <= i < |ds| ==> ds[Argmin(ds)] <= ds[i]
    ensures forall i :: 0 <= i < Argmin(ds) ==> ds[Argmin(ds)] < ds[i]
  {
    ArgminFromSpec(ds, 1, 0);
  }

  /** The label of x: the first centroid nearest to it. */
  function Nearest(cents: seq<Point>, x: Point): (k: nat)
    requires |cents| > 0 && Rows(cents, |x|)
    ensures k < |cents|
  {
    Argmin(Distances(cents, x))
  }

  /** A label lies in [0, K) and is the lowest index of a nearest centroid. */
  lemma NearestSpec(cents: seq<Point>, x: Point)
    requires |cents| > 0 && Rows(cents, |x|)
    ensures Nearest(cents, x) < |cents|
    ensures forall k :: 0 <= k < |cents| ==> SqDist(cents[Nearest(cents, x)], x) <= SqDist(cents[k], x)
    ensures forall k :: 0 <= k < Nearest(cents, x) ==> SqDist(cents[Nearest(cents, x)], x) < SqDist(cents[k], x)
  {
    ArgminSpec(Distances(cents, x));
  }

  /** The labels lines 66-67 give every point against the centroids cents. */
  function Labels(X: seq<Point>, cents: seq<Point>, d: nat): (L: seq<nat>)
    requires Rows(X, d) && Rows(cents, d) && |cents| > 0
    ensures |L| == |X| && forall i :: 0 <= i < |X| ==> L[i] == Nearest(cents, X[i]) < |cents|
  {
    seq(|X|, i requires 0 <= i < |X| => Nearest(cents, X[i]))
  }

  /** X[(a == k).ravel()]: the points labelled k, in order. */
  function Members(X: seq<Point>, L: seq<nat>, k: nat): (m: seq<Point>)
    requires |L| == |X|
    ensures |m| <= |X|
  {
    if |X| == 0 then []
    else (if L[0] == k then [X[0]] else []) + Members(X[1..], L[1..], k)
  }

  /** The members of cluster k are exactly the points labelled k. */
  lemma {:induction false} MembersSpec(X: seq<Point>, L: seq<nat>, k: nat)
    requires |L| == |X|
    ensures forall i :: 0 <= i < |X| && L[i] == k ==> X[i] in Members(X, L, k)
    ensures forall x :: x in Members(X, L, k) ==> exists i :: 0 <= i < |X| && L[i] == k && X[i] == x
  {
    if |X| > 0 {
      MembersSpec(X[1..], L[1..], k);
      forall i | 0 <= i < |X| && L[i] == k
        ensures X[i] in Members(X, L, k)
      {
        if i > 0 {
          assert X[1..][i - 1] == X[i] && L[1..][i - 1] == L[i];
        }
      }
      forall x | x in Members(X, L, k)
        ensures exists i :: 0 <= i < |X| && L[i] == k && X[i] == x
      {
        if L[0] == k && x == X[0] {
        } else {
          assert x in Members(X[1..], L[1..], k);
          var i :| 0 <= i < |X| - 1 && L[1..][i] == k && X[1..][i] == x;
          assert L[i + 1] == k && X[i + 1] == x;
        }
      }
    }
  }

  lemma {:induction false} MembersRows(X: seq<Point>, L: seq<nat>, k: nat, d: nat)
    requires |L| == |X| && Rows(X, d)
    ensures Rows(Members(X, L, k), d)
  {
    if |X| > 0 {
      MembersRows(X[1..], L[1..], k, d);
    }
  }

  /** The sum of feature f over the points P. */
  function FeatureSum(P: seq<Point>, f: nat): real
    requires forall i :: 0 <= i < |P| ==> f < |P[i]|
  {
    if |P| == 0 then 0.0 else P[0][f] + FeatureSum(P[1..], f)
  }

  /** The number of labels L[i], i >= j, equal to k. */
  function Count(L: seq<nat>, k: nat, j: nat): nat
    requires j <= |L|
    decreases |L| - j
  {
    if j == |L| then 0 else (if L[j] == k then 1 else 0) + Count(L, k, j + 1)
  }

  /** The sum of feature f over the points X[i], i >= j, labelled k. */
  function LabelledSum(X: seq<Point>, L: seq<nat>, k: nat, f: nat, d: nat, j: nat): real
    requires |L| == |X| && Rows(X, d) && f < d && j <= |X|
    decreases |X| - j
  {
    if j == |X| then 0.0 else (if L[j] == k then X[j][f] else 0.0) + LabelledSum(X, L, k, f, d, j + 1)
  }

  /**
   * Selecting cluster k from the points j onwards keeps one point per label
   * k and no other: its size is their count and its feature sums are their
   * feature sums.
   */
  lemma {:induction false} MembersCount(X: seq<Point>, L: seq<nat>, k: nat, d: nat, j: nat)
    requires |L| == |X| && Rows(X, d) && j <= |X|
    ensures Rows(Members(X[j..], L[j..], k), d)
    ensures |Members(X[j..], L[j..], k)| == Count(L, k, j)
    ensures forall f :: 0 <= f < d ==> FeatureSum(Members(X[j..], L[j..], k), f) == LabelledSum(X, L, k, f, d, j)
    decreases |X| - j
  {
    MembersRows(X[j..], L[j..], k, d);
    if j < |X| {
      MembersCount(X, L, k, d, j + 1);
      assert X[j..][1..] == X[j + 1..] && L[j..][1..] == L[j + 1..];
      var head := if L[j] == k then [X[j]] else [];
      var rest := Members(X[j + 1..], L[j + 1..], k);
      assert Members(X[j..], L[j..], k) == head + rest;
      forall f | 0 <= f < d
        ensures FeatureSum(head + rest, f) == LabelledSum(X, L, k, f, d, j)
      {
        if L[j] == k {
          assert (head + rest)[1..] == rest;
        } else {
          assert head + rest == rest;
        }
      }
    }
  }

  /** Every cluster 0, ..., K - 1 has at least one point; np.mean of an empty cluster is NaN. */
  predicate NoEmptyCluster(X: seq<Point>, L: seq<nat>, K: nat)
    requires |L| == |X|
  {
    forall k :: 0 <= k < K ==> |Members(X, L, k)| > 0
  }

  /** np.mean(X[(a == k).ravel()], 0) of line 70: the per-feature mean of cluster k. */
  function Centroid(X: seq<Point>, L: seq<nat>, k: nat, d: nat): (m: Point)
    requires |L| == |X| && Rows(X, d) && |Members(X, L, k)| > 0
    ensures |m| == d
  {
    var P := Members(X, L, k);
    MembersRows(X, L, k, d);
    seq(d, f requires 0 <= f < d => FeatureSum(P, f) / (|P| as real))
  }

  /**
   * The centroid is the mean of its cluster: the cluster has Count(L, k, 0)
   * points, and feature by feature the centroid times that count is the sum
   * of the feature over the points labelled k.
   */
  lemma CentroidSpec(X: seq<Point>, L: seq<nat>, k: nat, d: nat)
    requires |L| == |X| && Rows(X, d) && Count(L, k, 0) > 0
    ensures |Members(X, L, k)| == Count(L, k, 0)
    ensures forall f :: 0 <= f < d ==>
      Centroid(X, L, k, d)[f] * (Count(L, k, 0) as real) == LabelledSum(X, L, k, f, d, 0)
  {
    MembersCount(X, L, k, d, 0);
    assert X[0..] == X && L[0..] == L;
    var P := Members(X, L, k);
    var n := |P| as real;
    forall f | 0 <= f < d
      ensures Centroid(X, L, k, d)[f] * n == LabelledSum(X, L, k, f, d, 0)
    {
      assert Centroid(X, L, k, d)[f] == FeatureSum(P, f) / n;
      MulDiv(FeatureSum(P, f), n);
    }
  }

  lemma MulDiv(a: real, n: real)
    requires n > 0.0
    ensures n * (a / n) == a
  {
  }

  /** The centroids line 70 writes into c_temp, one per cluster. */
  function Means(X: seq<Point>, L: seq<nat>, K: nat, d: nat): (M: seq<Point>)
    requires |L| == |X| && Rows(X, d) && NoEmptyCluster(X, L, K)
    ensures |M| == K && Rows(M, d)
    ensures forall k :: 0 <= k < K ==> M[k] == Centroid(X, L, k, d)
  {
    seq(K, k requires 0 <= k < K => Centroid(X, L, k, d))
  }

  /**
   * Centroid k of Means is the mean of cluster k: times the number of
   * points labelled k, its feature f is their sum of feature f.
   */
  lemma MeansSpec(X: seq<Point>, L: seq<nat>, K: nat, d: nat, k: nat)
    requires |L| == |X| && Rows(X, d) && NoEmptyCluster(X, L, K) && k < K
    ensures forall f :: 0 <= f < d ==>
      Means(X, L, K, d)[k][f] * (Count(L, k, 0) as real) == LabelledSum(X, L, k, f, d, 0)
  {
    CountMembers(X, L, k, d);
    CentroidSpec(X, L, k, d);
  }

  /** The number of points labelled k is the size of cluster k. */
  lemma CountMembers(X: seq<Point>, L: seq<nat>, k: nat, d: nat)
    requires |L| == |X| && Rows(X, d)
    ensures Count(L, k, 0) == |Members(X, L, k)|
  {
    MembersCount(X, L, k, d, 0);
    assert X[0..] == X && L[0..] == L;
  }

  /**
   * The seeds S let the loop run without meeting an empty cluster: the
   * first pass's clusters are all non-empty, and so are the second
   * pass's whenever the first pass moves the centroids.
   */
  predicate LloydReady(X: seq<Point>, K: nat, d: nat, S: seq<Point>)
    requires Rows(X, d) && Rows(S, d) && |S| == K >= 1
  {
    var L1 := Labels(X, S, d);
    NoEmptyCluster(X, L1, K) &&
    var M1 := Means(X, L1, K, d);
    M1 != S ==> NoEmptyCluster(X, Labels(X, M1, d), K)
  }

  /**
   * What Kmeans (lines 51-75) returns from the seeds S. After line 73 c
   * and c_temp are one array, so the second pass compares that array
   * with itself at line 71 and always stops: the loop makes one pass
   * when the first pass leaves the centroids where they were, and two
   * otherwise.
   */
  function LloydResult(X: seq<Point>, K: nat, d: nat, S: seq<Point>): (r: (seq<nat>, seq<Point>))
    requires Rows(X, d) && Rows(S, d) && |S| == K >= 1 && LloydReady(X, K, d, S)
    ensures |r.0| == |X| && |r.1| == K
  {
    var L1 := Labels(X, S, d);
    var M1 := Means(X, L1, K, d);
    if M1 == S then (L1, M1)
    else
      var L2 := Labels(X, M1, d);
      (L2, Means(X, L2, K, d))
  }

  /**
   * Whatever the seeds, the returned centroids are the means of the
   * returned clusters, and every returned label lies in [0, K).
   */
  lemma LloydResultMeans(X: seq<Point>, K: nat, d: nat, S: seq<Point>)
    requires Rows(X, d) && Rows(S, d) && |S| == K >= 1 && LloydReady(X, K, d, S)
    ensures var (L, M) := LloydResult(X, K, d, S);
      (forall i :: 0 <= i < |X| ==> L[i] < K) && NoEmptyCluster(X, L, K) && M == Means(X, L, K, d)
  {
  }

  /** Lines 66-67: a[i] becomes the label of X[i] against c. */
  method AssignLabels(X: seq<Point>, d: nat, c: array<Point>, a: array<nat>)
    requires Rows(X, d) && Rows(c[..], d) && c.Length > 0 && a.Length == |X|
    modifies a
    ensures a[..] == Labels(X, c[..], d)
  {
    var i := 0;
    while i < |X|
      invariant 0 <= i <= |X|
      invariant forall j :: 0 <= j < i ==> a[j] == Nearest(c[..], X[j])
    {
      a[i] := Nearest(c[..], X[i]);
      i := i + 1;
    }
  }

  /** Lines 69-70: c_temp[k] becomes the mean of cluster k. */
  method UpdateMeans(X: seq<Point>, d: nat, a: array<nat>, K: nat, cTemp: array<Point>)
    requires Rows(X, d) && a.Length == |X| && cTemp.Length == K && NoEmptyCluster(X, a[..], K)
    modifies cTemp
    ensures cTemp[..] == Means(X, a[..], K, d)
  {
    var k := 0;
    while k < K
      invariant 0 <= k <= K
      invariant forall j :: 0 <= j < k ==> cTemp[j] == Centroid(X, a[..], j, d)
    {
      cTemp[k] := Centroid(X, a[..], k, d);
      k := k + 1;
    }
  }

  /**
   * The loop at lines 59-75 from the seed array c0: c_temp is allocated
   * once, and line 73 makes c name the same array as c_temp.
   */
  method Lloyd(X: seq<Point>, K: nat, d: nat, c0: array<Point>) returns (a: array<nat>, c: array<Point>)
    requires Rows(X, d) && Rows(c0[..], d) && c0.Length == K >= 1 && LloydReady(X, K, d, c0[..])
    ensures a.Length == |X| && c.Length == K
    ensures (a[..], c[..]) == LloydResult(X, K, d, c0[..])
    ensures Means(X, Labels(X, c0[..], d), K, d) == c0[..] ==> a[..] == Labels(X, c0[..], d) && c[..] == c0[..]
  {
    ghost var S := c0[..];
    var cTemp := new Point[K](_ => []);
    a := new nat[|X|](_ => 0);
    c := c0;
    var converged := false;
    ghost var passes := 0;
    while !converged
      invariant 0 <= passes <= 2 && (passes == 2 ==> converged)
      invariant a.Length == |X| && cTemp.Length == K && c.Length == K && Rows(c[..], d)
      invariant c0[..] == S && cTemp != c0
      invariant passes == 0 ==> c == c0 && !converged
      invariant passes >= 1 ==> c == cTemp
      invariant passes == 1 && !converged ==>
        a[..] == Labels(X, S, d) && c[..] == Means(X, a[..], K, d) && c[..] != S
      invariant converged ==> (a[..], c[..]) == LloydResult(X, K, d, S)
      decreases 2 - passes
    {
      AssignLabels(X, d, c, a);
      UpdateMeans(X, d, a, K, cTemp);
      if cTemp[..] == c[..] {
        converged := true;
      }
      c := cTemp;
      passes := passes + 1;
    }
  }

  /**
   * Kmeans (lines 51-75): k-means++ seeds, then the Lloyd loop. ok is
   * false where the seeder fails.
   */
  method Kmeans(X: seq<Point>, K: nat, d: nat, first: nat, junk: Point, us: seq<real>)
    returns (ok: bool, a: array<nat>, c: array<Point>)
    requires Rows(X, d) && first < |X| && |junk| == d && 1 <= K <= |us| + 1
    requires Seeds(X, d, first, AsWritten(junk), us, K).Ok? ==> LloydReady(X, K, d, Seeds(X, d, first, AsWritten(junk), us, K).value.cents)
    ensures ok <==> Seeds(X, d, first, AsWritten(junk), us, K).Ok?
    ensures ok ==> (a[..], c[..]) == LloydResult(X, K, d, Seeds(X, d, first, AsWritten(junk), us, K).value.cents)
  {
    var seeds;
    seeds, ok := Kmeanspp(X, K, d, first, junk, us);
    if !ok {
      a := new nat[0];
      c := seeds;
      return;
    }
    a, c := Lloyd(X, K, d, seeds);
  }

  // ----- Findings -----

  /** With K = 2 the seeder makes exactly one pass. */
  lemma SeedsTwo(X: seq<Point>, d: nat, first: nat, rule: Rule, us: seq<real>)
    requires Rows(X, d) && first < |X| && Fits(rule, d) && 1 <= |us|
    ensures Seeds(X, d, first, rule, us, 2) == SeedStep(SeedStart(X, first), rule, d, us[0])
  {
    var s := SeedStart(X, first);
    assert forall k :: 0 <= k < |s.pool| ==> s.pool[k] in X;
    match SeedStep(s, rule, d, us[0])
    case Err =>
    case Ok(t) => assert SeedRun(t, rule, d, us, 2, 2) == Ok(t);
  }

  /** The first seeder state of the examples below: X = [[0], [0], [1]] and first = 0. */
  lemma ExampleStart()
    ensures SeedStart([[0.0], [0.0], [1.0]], 0) == Seeding([[0.0]], [[0.0], [1.0]], [1, 2], [0])
  {
    assert Indices(3) == [0, 1, 2];
  }

  /**
   * As written, a duplicate centroid: X = [[0], [0], [1]], the first draw
   * X[0] and the uninitialised row [5]. The weights are the distances to
   * [5], 25 and 16, and the draw 0 picks the second [0].
   */
  lemma SeedDuplicateExample()
    ensures var X := [[0.0], [0.0], [1.0]];
      Seeds(X, 1, 0, AsWritten([5.0]), [0.0], 2) == Ok(Seeding([[0.0], [0.0]], [[1.0]], [2], [0, 1]))
  {
    var X := [[0.0], [0.0], [1.0]];
    SeedsTwo(X, 1, 0, AsWritten([5.0]), [0.0]);
    ExampleStart();
    var s := Seeding([[0.0]], [[0.0], [1.0]], [1, 2], [0]);
    DuplicateWeights(s);
    DuplicateDraw();
    assert Delete(s.pool, 0) == [[1.0]] && Delete(s.origin, 0) == [2];
    assert s.cents + [s.pool[0]] == [[0.0], [0.0]] && s.picked + [s.origin[0]] == [0, 1];
  }

  lemma DuplicateWeights(s: Seeding)
    requires s == Seeding([[0.0]], [[0.0], [1.0]], [1, 2], [0])
    ensures SeedWeights(s, AsWritten([5.0]), 1) == [25.0, 16.0]
  {
    assert SeedColumns(s.cents, [5.0]) == [[5.0]];
    assert SqDist([0.0], [5.0]) == 25.0 && SqDist([1.0], [5.0]) == 16.0;
  }

  lemma DuplicateDraw()
    ensures Sum([25.0, 16.0]) == 41.0 && Choice(Normalise([25.0, 16.0], 41.0), 0.0) == 0
  {
  }

  /** With the intended rule, the same draws pick [1], the row at positive distance. */
  lemma IntendedSeedExample()
    ensures var X := [[0.0], [0.0], [1.0]];
      Seeds(X, 1, 0, Intended, [0.0], 2) == Ok(Seeding([[0.0], [1.0]], [[0.0]], [1], [0, 2]))
  {
    var X := [[0.0], [0.0], [1.0]];
    SeedsTwo(X, 1, 0, Intended, [0.0]);
    ExampleStart();
    var s := Seeding([[0.0]], [[0.0], [1.0]], [1, 2], [0]);
    IntendedWeights(s);
    IntendedDraw();
    assert Delete(s.pool, 1) == [[0.0]] && Delete(s.origin, 1) == [1];
    assert s.cents + [s.pool[1]] == [[0.0], [1.0]] && s.picked + [s.origin[1]] == [0, 2];
  }

  lemma IntendedWeights(s: Seeding)
    requires s == Seeding([[0.0]], [[0.0], [1.0]], [1, 2], [0])
    ensures SeedWeights(s, Intended, 1) == [0.0, 1.0]
  {
    assert SqDist([0.0], [0.0]) == 0.0 && SqDist([1.0], [0.0]) == 1.0;
  }

  lemma IntendedDraw()
    ensures Sum([0.0, 1.0]) == 1.0 && Choice(Normalise([0.0, 1.0], 1.0), 0.0) == 1
  {
    assert Normalise([0.0, 1.0], 1.0) == [0.0, 1.0];
  }

  predicate DistinctPoints(P: seq<Point>)
  {
    forall i, j :: 0 <= i < j < |P| ==> P[i] != P[j]
  }

  lemma AppendDistinct(P: seq<Point>, x: Point)
    requires DistinctPoints(P) && forall j :: 0 <= j < |P| ==> x != P[j]
    ensures DistinctPoints(P + [x])
  {
  }

  /** An intended pass adds a centroid different from all earlier ones. */
  lemma IntendedStepDistinct(s: Seeding, d: nat, u: real, t: Seeding)
    requires Shaped(s, d) && 0.0 <= u < 1.0 && DistinctPoints(s.cents)
    requires SeedStep(s, Intended, d, u) == Ok(t)
    ensures DistinctPoints(t.cents)
  {
    SeedStepPositive(s, Intended, d, u);
    assert t.cents == s.cents + [t.cents[|s.cents|]];
    AppendDistinct(s.cents, t.cents[|s.cents|]);
  }

  /**
   * With the intended weights, the distances to every centroid chosen so
   * far, k-means++ never draws the same point twice: the K centroids
   * are pairwise different.
   */
  lemma IntendedSeedsDistinct(X: seq<Point>, d: nat, first: nat, us: seq<real>, K: nat)
    requires Rows(X, d) && first < |X| && 1 <= K <= |us| + 1
    requires forall j :: 0 <= j < |us| ==> 0.0 <= us[j] < 1.0
    requires Seeds(X, d, first, Intended, us, K).Ok?
    ensures DistinctPoints(Seeds(X, d, first, Intended, us, K).value.cents)
  {
    RunDistinct(SeedStart(X, first), d, us, 1, K);
  }

  /** Intended passes from pairwise different centroids keep them pairwise different. */
  lemma {:induction false} RunDistinct(s: Seeding, d: nat, us: seq<real>, i: nat, K: nat)
    requires Shaped(s, d) && 1 <= i <= K && K <= |us| + 1 && |s.cents| == i && DistinctPoints(s.cents)
    requires forall j :: 0 <= j < |us| ==> 0.0 <= us[j] < 1.0
    requires SeedRun(s, Intended, d, us, i, K).Ok?
    ensures DistinctPoints(SeedRun(s, Intended, d, us, i, K).value.cents)
    decreases K - i
  {
    if i < K {
      SeedRunNext(s, Intended, d, us, i, K);
      var t := SeedStep(s, Intended, d, us[i - 1]).value;
      IntendedStepDistinct(s, d, us[i - 1], t);
      RunDistinct(t, d, us, i + 1, K);
    }
  }

  /** A seeding run that succeeds from pass i makes pass i and goes on from its result. */
  lemma SeedRunNext(s: Seeding, rule: Rule, d: nat, us: seq<real>, i: nat, K: nat)
    requires Shaped(s, d) && Fits(rule, d) && 1 <= i < K && K <= |us| + 1 && |s.cents| == i
    requires SeedRun(s, rule, d, us, i, K).Ok?
    ensures SeedStep(s, rule, d, us[i - 1]).Ok?
    ensures SeedRun(SeedStep(s, rule, d, us[i - 1]).value, rule, d, us, i + 1, K) == SeedRun(s, rule, d, us, i, K)
  {
  }

  /** With two centroids the label is 1 exactly when the second is strictly nearer. */
  lemma Nearest2(p: Point, q: Point, x: Point)
    requires |p| == |x| && |q| == |x|
    ensures Nearest([p, q], x) == if SqDist(q, x) < SqDist(p, x) then 1 else 0
  {
    var ds := Distances([p, q], x);
    var b := if ds[1] < ds[0] then 1 else 0;
    assert ArgminFrom(ds, 2, b) == b;
    assert Argmin(ds) == ArgminFrom(ds, 2, b);
  }

  /** The label of a point of one feature against two centroids of one feature. */
  lemma Label1(a: real, b: real, x: real)
    ensures Nearest([[a], [b]], [x]) == if (b - x) * (b - x) < (a - x) * (a - x) then 1 else 0
  {
    Nearest2([a], [b], [x]);
    assert SqDist([a], [x]) == Square(a - x) + SqDist([a][1..], [x][1..]);
    assert SqDist([b], [x]) == Square(b - x) + SqDist([b][1..], [x][1..]);
  }

  /** The labels of four points of one feature against two centroids. */
  lemma ExampleLabels(X: seq<Point>, a: real, b: real, L: seq<nat>)
    requires |X| == 4 && |L| == 4 && Rows(X, 1)
    requires forall i :: 0 <= i < 4 ==> L[i] == Nearest([[a], [b]], X[i])
    ensures Labels(X, [[a], [b]], 1) == L
  {
  }

  /**
   * As written, the loop stops too early: from X = [[0], [1], [3], [10]]
   * and the seeds [[0], [1]], the first pass moves the centroids to
   * [[0], [14/3]], and the second pass, comparing the aliased array with
   * itself, returns the labels [0, 0, 1, 1] with the centroids
   * [[0.5], [6.5]], although point 3 is nearer to 0.5 than to 6.5.
   */
  lemma LloydEarlyStopExample()
    ensures var X := [[0.0], [1.0], [3.0], [10.0]];
      var S := [[0.0], [1.0]];
      LloydReady(X, 2, 1, S) &&
      LloydResult(X, 2, 1, S) == ([0, 0, 1, 1], [[0.5], [6.5]]) &&
      Labels(X, [[0.5], [6.5]], 1)[2] == 0
  {
    ExamplePass1();
    ExamplePass2();
    Nearest2([0.5], [6.5], [3.0]);
  }

  lemma ExamplePass1()
    ensures var X := [[0.0], [1.0], [3.0], [10.0]];
      Labels(X, [[0.0], [1.0]], 1) == [0, 1, 1, 1] && NoEmptyCluster(X, [0, 1, 1, 1], 2) &&
      Means(X, [0, 1, 1, 1], 2, 1) == [[0.0], [14.0 / 3.0]]
  {
    var X := [[0.0], [1.0], [3.0], [10.0]];
    var L := [0, 1, 1, 1];
    ExampleLabels1();
    ExampleClusters1();
    ExampleMeans(X, L, [[0.0]], 0.0, [[1.0], [3.0], [10.0]], 14.0 / 3.0);
  }

  lemma ExampleLabels1()
    ensures Labels([[0.0], [1.0], [3.0], [10.0]], [[0.0], [1.0]], 1) == [0, 1, 1, 1]
  {
    Label1(0.0, 1.0, 0.0);
    Label1(0.0, 1.0, 1.0);
    Label1(0.0, 1.0, 3.0);
    Label1(0.0, 1.0, 10.0);
    ExampleLabels([[0.0], [1.0], [3.0], [10.0]], 0.0, 1.0, [0, 1, 1, 1]);
  }

  lemma ExamplePass2()
    ensures var X := [[0.0], [1.0], [3.0], [10.0]];
      Labels(X, [[0.0], [14.0 / 3.0]], 1) == [0, 0, 1, 1] && NoEmptyCluster(X, [0, 0, 1, 1], 2) &&
      Means(X, [0, 0, 1, 1], 2, 1) == [[0.5], [6.5]]
  {
    var X := [[0.0], [1.0], [3.0], [10.0]];
    var L := [0, 0, 1, 1];
    ExampleLabels2();
    ExampleClusters2();
    ExampleMeans(X, L, [[0.0], [1.0]], 0.5, [[3.0], [10.0]], 6.5);
  }

  lemma ExampleLabels2()
    ensures Labels([[0.0], [1.0], [3.0], [10.0]], [[0.0], [14.0 / 3.0]], 1) == [0, 0, 1, 1]
  {
    Label1(0.0, 14.0 / 3.0, 0.0);
    Label1(0.0, 14.0 / 3.0, 1.0);
    Label1(0.0, 14.0 / 3.0, 3.0);
    Label1(0.0, 14.0 / 3.0, 10.0);
    ExampleLabels([[0.0], [1.0], [3.0], [10.0]], 0.0, 14.0 / 3.0, [0, 0, 1, 1]);
  }

  lemma ExampleClusters1()
    ensures var X := [[0.0], [1.0], [3.0], [10.0]];
      Members(X, [0, 1, 1, 1], 0) == [[0.0]] && Members(X, [0, 1, 1, 1], 1) == [[1.0], [3.0], [10.0]]
    ensures FeatureSum([[0.0]], 0) / (|[[0.0]]| as real) == 0.0
    ensures FeatureSum([[1.0], [3.0], [10.0]], 0) / (|[[1.0], [3.0], [10.0]]| as real) == 14.0 / 3.0
  {
    MeanOf([[0.0]], 0.0, 1, 0.0);
    MeanOf([[1.0], [3.0], [10.0]], 14.0, 3, 14.0 / 3.0);
    Members4([[0.0], [1.0], [3.0], [10.0]], [0, 1, 1, 1], 0, [[0.0]]);
    Members4([[0.0], [1.0], [3.0], [10.0]], [0, 1, 1, 1], 1, [[1.0], [3.0], [10.0]]);
  }

  lemma ExampleClusters2()
    ensures var X := [[0.0], [1.0], [3.0], [10.0]];
      Members(X, [0, 0, 1, 1], 0) == [[0.0], [1.0]] && Members(X, [0, 0, 1, 1], 1) == [[3.0], [10.0]]
    ensures FeatureSum([[0.0], [1.0]], 0) / (|[[0.0], [1.0]]| as real) == 0.5
    ensures FeatureSum([[3.0], [10.0]], 0) / (|[[3.0], [10.0]]| as real) == 6.5
  {
    MeanOf([[0.0], [1.0]], 1.0, 2, 0.5);
    MeanOf([[3.0], [10.0]], 13.0, 2, 6.5);
    Members4([[0.0], [1.0], [3.0], [10.0]], [0, 0, 1, 1], 0, [[0.0], [1.0]]);
    Members4([[0.0], [1.0], [3.0], [10.0]], [0, 0, 1, 1], 1, [[3.0], [10.0]]);
  }

  lemma MeanOf(P: seq<Point>, sum: real, n: nat, mean: real)
    requires Rows(P, 1) && FeatureSum(P, 0) == sum && |P| == n > 0 && sum / (n as real) == mean
    ensures FeatureSum(P, 0) / (|P| as real) == mean
  {
  }

  /** Two clusters of points of one feature whose members and means are given. */
  lemma ExampleMeans(X: seq<Point>, L: seq<nat>, P0: seq<Point>, m0: real, P1: seq<Point>, m1: real)
    requires |L| == |X| && Rows(X, 1)
    requires Members(X, L, 0) == P0 && 0 < |P0| && Rows(P0, 1) && FeatureSum(P0, 0) / (|P0| as real) == m0
    requires Members(X, L, 1) == P1 && 0 < |P1| && Rows(P1, 1) && FeatureSum(P1, 0) / (|P1| as real) == m1
    ensures NoEmptyCluster(X, L, 2) && Means(X, L, 2, 1) == [[m0], [m1]]
  {
    assert NoEmptyCluster(X, L, 2) by {
      forall k | 0 <= k < 2
        ensures |Members(X, L, k)| > 0
      {
        assert k == 0 || k == 1;
      }
    }
    ExampleCluster(X, L, 0, P0, m0);
    ExampleCluster(X, L, 1, P1, m1);
    var M := Means(X, L, 2, 1);
    assert |M| == 2 && M[0] == [m0] && M[1] == [m1];
    assert M == [M[0], M[1]];
  }

  /** A cluster of points of one feature whose members and mean are given. */
  lemma ExampleCluster(X: seq<Point>, L: seq<nat>, k: nat, P: seq<Point>, mean: real)
    requires |L| == |X| && Rows(X, 1)
    requires Members(X, L, k) == P && 0 < |P| && Rows(P, 1) && FeatureSum(P, 0) / (|P| as real) == mean
    ensures Centroid(X, L, k, 1) == [mean]
  {
    var c := Centroid(X, L, k, 1);
    assert |c| == 1 && c[0] == mean;
    assert c == [mean];
  }

  /** The members of a cluster of four labelled points, written out. */
  lemma Members4(X: seq<Point>, L: seq<nat>, k: nat, P: seq<Point>)
    requires |X| == 4 && |L| == 4
    requires P == (if L[0] == k then [X[0]] else []) + (if L[1] == k then [X[1]] else [])
      + (if L[2] == k then [X[2]] else []) + (if L[3] == k then [X[3]] else [])
    ensures Members(X, L, k) == P
  {
    var m3 := if L[3] == k then [X[3]] else [];
    var m2 := (if L[2] == k then [X[2]] else []) + m3;
    var m1 := (if L[1] == k then [X[1]] else []) + m2;
    MembersLast(X[3..], L[3..], k);
    MembersCons(X[2..], L[2..], k, m3);
    MembersCons(X[1..], L[1..], k, m2);
    MembersCons(X, L, k, m1);
  }

  lemma MembersLast(X: seq<Point>, L: seq<nat>, k: nat)
    requires |X| == 1 && |L| == 1
    ensures Members(X, L, k) == if L[0] == k then [X[0]] else []
  {
    assert Members(X[1..], L[1..], k) == [];
  }

  lemma MembersCons(X: seq<Point>, L: seq<nat>, k: nat, rest: seq<Point>)
    requires |X| == |L| > 0 && Members(X[1..], L[1..], k) == rest
    ensures Members(X, L, k) == (if L[0] == k then [X[0]] else []) + rest
  {
  }

  /**
   * The intended means step: the mean of each non-empty cluster, and the
   * previous centroid S[k] for a cluster that is empty.
   */
  function KeepMeans(X: seq<Point>, L: seq<nat>, S: seq<Point>, K: nat, d: nat): (M: seq<Point>)
    requires |L| == |X| && Rows(X, d) && Rows(S, d) && |S| == K
    ensures |M| == K && Rows(M, d)
  {
    seq(K, k requires 0 <= k < K => if |Members(X, L, k)| > 0 then Centroid(X, L, k, d) else S[k])
  }

  /**
   * KeepMeans moves a centroid exactly to its cluster's mean when the
   * cluster has points, leaves it alone when it has none, and is Means
   * when no cluster is empty.
   */
  lemma KeepMeansSpec(X: seq<Point>, L: seq<nat>, S: seq<Point>, K: nat, d: nat)
    requires |L| == |X| && Rows(X, d) && Rows(S, d) && |S| == K
    ensures forall k :: 0 <= k < K && Count(L, k, 0) == 0 ==> KeepMeans(X, L, S, K, d)[k] == S[k]
    ensures forall k :: 0 <= k < K && Count(L, k, 0) > 0 ==>
      |Members(X, L, k)| > 0 && KeepMeans(X, L, S, K, d)[k] == Centroid(X, L, k, d)
    ensures NoEmptyCluster(X, L, K) ==> KeepMeans(X, L, S, K, d) == Means(X, L, K, d)
  {
    forall k | 0 <= k < K
      ensures Count(L, k, 0) == |Members(X, L, k)|
    {
      CountMembers(X, L, k, d);
    }
  }

  /**
   * The intended loop: repeat until the means step reproduces the
   * centroids, within fuel passes; Err when the fuel runs out.
   */
  function IntendedLloyd(X: seq<Point>, K: nat, d: nat, S: seq<Point>, fuel: nat): (r: Result<(seq<nat>, seq<Point>)>)
    requires Rows(X, d) && Rows(S, d) && |S| == K >= 1
    ensures r.Ok? ==> |r.value.0| == |X| && |r.value.1| == K && Rows(r.value.1, d)
    decreases fuel
  {
    var L := Labels(X, S, d);
    var M := KeepMeans(X, L, S, K, d);
    if M == S then Ok((L, S))
    else if fuel == 0 then Err
    else IntendedLloyd(X, K, d, M, fuel - 1)
  }

  /**
   * What the intended loop returns is a fixed point of both steps: every
   * label is the nearest centroid, every centroid of a non-empty cluster is
   * its mean and the means step leaves the centroids as they are.
   */
  lemma {:induction false} IntendedLloydFixedPoint(X: seq<Point>, K: nat, d: nat, S: seq<Point>, fuel: nat)
    requires Rows(X, d) && Rows(S, d) && |S| == K >= 1
    requires IntendedLloyd(X, K, d, S, fuel).Ok?
    ensures var (L, M) := IntendedLloyd(X, K, d, S, fuel).value;
      && Rows(M, d) && |M| == K && L == Labels(X, M, d) && M == KeepMeans(X, L, M, K, d)
      && (forall k :: 0 <= k < K && |Members(X, L, k)| > 0 ==> M[k] == Centroid(X, L, k, d))
      && (NoEmptyCluster(X, L, K) ==> M == Means(X, L, K, d))
    decreases fuel
  {
    var L := Labels(X, S, d);
    var M := KeepMeans(X, L, S, K, d);
    if M != S {
      IntendedLloydFixedPoint(X, K, d, M, fuel - 1);
    } else {
      KeepMeansSpec(X, L, S, K, d);
    }
  }

  /**
   * From the duplicate seeds [[0], [0]] of X = [[0], [0], [1]], an empty
   * cluster keeps its centroid and the intended loop settles after three
   * passes on the labels [1, 1, 0] and the centroids [[1], [0]].
   */
  lemma IntendedLloydEmptyClusterExample()
    ensures IntendedLloyd([[0.0], [0.0], [1.0]], 2, 1, [[0.0], [0.0]], 2) == Ok(([1, 1, 0], [[1.0], [0.0]]))
  {
    var X := [[0.0], [0.0], [1.0]];
    KeepPass1();
    KeepPass2();
    KeepPass3();
  }

  lemma KeepPass1()
    ensures var X := [[0.0], [0.0], [1.0]];
      Labels(X, [[0.0], [0.0]], 1) == [0, 0, 0] && KeepMeans(X, [0, 0, 0], [[0.0], [0.0]], 2, 1) == [[1.0 / 3.0], [0.0]]
  {
    var X := [[0.0], [0.0], [1.0]];
    Label1(0.0, 0.0, 0.0);
    Label1(0.0, 0.0, 1.0);
    ExampleLabels3(X, 0.0, 0.0, [0, 0, 0]);
    KeepJoin(X, [[0.0], [0.0]]);
  }

  /** When every label is j, every other cluster is empty. */
  lemma {:induction false} MembersOthersEmpty(X: seq<Point>, L: seq<nat>, j: nat, k: nat)
    requires |L| == |X| && k != j && forall i :: 0 <= i < |L| ==> L[i] == j
    ensures Members(X, L, k) == []
  {
    if |X| > 0 {
      MembersOthersEmpty(X[1..], L[1..], j, k);
    }
  }

  /** When every label is j, cluster j is all of X. */
  lemma {:induction false} MembersAll(X: seq<Point>, L: seq<nat>, j: nat)
    requires |L| == |X| && forall i :: 0 <= i < |L| ==> L[i] == j
    ensures Members(X, L, j) == X
  {
    if |X| > 0 {
      MembersAll(X[1..], L[1..], j);
    }
  }

  /** The means step on X = [[0], [0], [1]] all labelled 0: cluster 1 is empty and keeps S[1]. */
  lemma KeepJoin(X: seq<Point>, S: seq<Point>)
    requires X == [[0.0], [0.0], [1.0]] && S == [[0.0], [0.0]]
    ensures KeepMeans(X, [0, 0, 0], S, 2, 1) == [[1.0 / 3.0], [0.0]]
  {
    MembersAll(X, [0, 0, 0], 0);
    MembersOthersEmpty(X, [0, 0, 0], 0, 1);
    SumOfThree();
    KeepOneEmpty(X, [0, 0, 0], S, X, 1.0 / 3.0);
  }

  lemma SumOfThree()
    ensures FeatureSum([[0.0], [0.0], [1.0]], 0) / 3.0 == 1.0 / 3.0
  {
    var X: seq<Point> := [[0.0], [0.0], [1.0]];
    assert X[1..] == [[0.0], [1.0]];
    assert X[1..][1..] == [[1.0]];
  }

  /** Two clusters of points of one feature, the first with the given members and mean, the second empty. */
  lemma KeepOneEmpty(X: seq<Point>, L: seq<nat>, S: seq<Point>, P: seq<Point>, mean: real)
    requires |L| == |X| && Rows(X, 1) && Rows(S, 1) && |S| == 2
    requires Members(X, L, 0) == P && 0 < |P| && Rows(P, 1) && FeatureSum(P, 0) / (|P| as real) == mean
    requires Members(X, L, 1) == []
    ensures KeepMeans(X, L, S, 2, 1) == [[mean], S[1]]
  {
    KeepCluster(X, L, S, 0, P, mean);
    var M := KeepMeans(X, L, S, 2, 1);
    assert M == [M[0], M[1]];
  }

  lemma KeepPass2()
    ensures var X := [[0.0], [0.0], [1.0]];
      Labels(X, [[1.0 / 3.0], [0.0]], 1) == [1, 1, 0] && KeepMeans(X, [1, 1, 0], [[1.0 / 3.0], [0.0]], 2, 1) == [[1.0], [0.0]]
  {
    var X := [[0.0], [0.0], [1.0]];
    var S := [[1.0 / 3.0], [0.0]];
    Label1(1.0 / 3.0, 0.0, 0.0);
    Label1(1.0 / 3.0, 0.0, 1.0);
    ExampleLabels3(X, 1.0 / 3.0, 0.0, [1, 1, 0]);
    KeepSplit(X, S);
  }

  lemma KeepPass3()
    ensures var X := [[0.0], [0.0], [1.0]];
      Labels(X, [[1.0], [0.0]], 1) == [1, 1, 0] && KeepMeans(X, [1, 1, 0], [[1.0], [0.0]], 2, 1) == [[1.0], [0.0]]
  {
    var X := [[0.0], [0.0], [1.0]];
    Label1(1.0, 0.0, 0.0);
    Label1(1.0, 0.0, 1.0);
    ExampleLabels3(X, 1.0, 0.0, [1, 1, 0]);
    KeepSplit(X, [[1.0], [0.0]]);
  }

  /** The means step on X = [[0], [0], [1]] labelled [1, 1, 0]. */
  lemma KeepSplit(X: seq<Point>, S: seq<Point>)
    requires X == [[0.0], [0.0], [1.0]] && Rows(S, 1) && |S| == 2
    ensures KeepMeans(X, [1, 1, 0], S, 2, 1) == [[1.0], [0.0]]
  {
    var L := [1, 1, 0];
    Members3(X, L, 0, [[1.0]]);
    Members3(X, L, 1, [[0.0], [0.0]]);
    MeanOf([[1.0]], 1.0, 1, 1.0);
    MeanOf([[0.0], [0.0]], 0.0, 2, 0.0);
    KeepCluster(X, L, S, 0, [[1.0]], 1.0);
    KeepCluster(X, L, S, 1, [[0.0], [0.0]], 0.0);
    var M := KeepMeans(X, L, S, 2, 1);
    assert M == [M[0], M[1]];
  }

  /** A non-empty cluster of points of one feature whose members and mean are given. */
  lemma KeepCluster(X: seq<Point>, L: seq<nat>, S: seq<Point>, k: nat, P: seq<Point>, mean: real)
    requires |L| == |X| && Rows(X, 1) && Rows(S, 1) && k < |S|
    requires Members(X, L, k) == P && 0 < |P| && Rows(P, 1) && FeatureSum(P, 0) / (|P| as real) == mean
    ensures KeepMeans(X, L, S, |S|, 1)[k] == [mean]
  {
    ExampleCluster(X, L, k, P, mean);
  }

  /** The labels of three points of one feature against two centroids. */
  lemma ExampleLabels3(X: seq<Point>, a: real, b: real, L: seq<nat>)
    requires |X| == 3 && |L| == 3 && Rows(X, 1)
    requires forall i :: 0 <= i < 3 ==> L[i] == Nearest([[a], [b]], X[i])
    ensures Labels(X, [[a], [b]], 1) == L
  {
  }

  /** The members of a cluster of three labelled points, written out. */
  lemma Members3(X: seq<Point>, L: seq<nat>, k: nat, P: seq<Point>)
    requires |X| == 3 && |L| == 3
    requires P == (if L[0] == k then [X[0]] else []) + (if L[1] == k then [X[1]] else []) + (if L[2] == k then [X[2]] else [])
    ensures Members(X, L, k) == P
  {
    var m2 := if L[2] == k then [X[2]] else [];
    var m1 := (if L[1] == k then [X[1]] else []) + m2;
    MembersLast(X[2..], L[2..], k);
    MembersCons(X[1..], L[1..], k, m2);
    MembersCons(X, L, k, m1);
  }
}
