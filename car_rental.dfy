/**
 * Policy iteration for Jack's car rental (Sutton and Barto, "Reinforcement
 * Learning: An Introduction", 2nd ed., Example 4.2).
 *
 * Each of the two locations holds 0..20 cars at the end of a day; overnight
 * up to 5 cars are moved (action a > 0 moves a cars from location 1 to 2,
 * a < 0 the other way), so a morning holds 0..25 cars. The tables of the
 * model (transition probabilities, expected rewards, the state values and
 * the policy) are global arrays that the procedures update in place; here
 * they are the fields of one object. Values and probabilities are exact reals;
 * the Poisson weights are supplied by the caller.
 */
module CarRental {

  /** End-of-day states per location: 0..20 cars. */
  const NCarStates: int := 21
  /** Largest number of cars moved overnight. */
  const MaxMoves: int := 5
  /** Morning states per location: 0..25 cars. */
  const MaxMorning: int := NCarStates + MaxMoves
  const Discount: real := 0.9
  /** Cut-off below which a Poisson weight is dropped. */
  const Theta: real := 0.0000001
  /** Margin by which an action must beat the incumbent in the greedy step. */
  const Tie: real := 0.000000001

  function Min(x: int, y: int): int { if x <= y then x else y }
  function Max(x: int, y: int): int { if x >= y then x else y }
  function Abs(x: int): int { if x >= 0 then x else -x }

  /** n! as a double, 1 for every n <= 0. */
  function Factorial(n: int): (r: real)
    ensures r >= 1.0
    ensures n > 0 ==> r >= n as real
  {
    if n > 0 then (n as real) * Factorial(n - 1) else 1.0
  }

  /** Each factorial is at least the one before it. */
  lemma {:induction false} FactorialMonotone(n: int, m: int)
    requires n <= m
    ensures Factorial(n) <= Factorial(m)
    decreases m - n
  {
    if n < m {
      FactorialMonotone(n, m - 1);
      FactorialStep(m);
    }
  }

  lemma FactorialStep(m: int)
    ensures Factorial(m - 1) <= Factorial(m)
  {
    if m > 0 {
      ScaleAtLeast(m as real, Factorial(m - 1));
    }
  }

  lemma ScaleAtLeast(x: real, f: real)
    requires x >= 1.0 && f >= 0.0
    ensures x * f >= f
  {
    assert x * f == f + (x - 1.0) * f;
  }

  // ---------------------------------------------------------------------------
  // Actions

  /** Smallest action available when location 2 holds n2 cars. */
  function MinAction(n2: int): int { Max(-MaxMoves, -n2) }
  /** Largest action available when location 1 holds n1 cars. */
  function MaxAction(n1: int): int { Min(MaxMoves, n1) }

  /** The range of actions is never empty: moving nothing is always allowed. */
  lemma ActionRangeHoldsZero(n1: int, n2: int)
    requires 0 <= n1 && 0 <= n2
    ensures MinAction(n2) <= 0 <= MaxAction(n1)
  {
  }

  /** The clamping sequence that opens the backup of one state and action. */
  function Clamp(n1: int, n2: int, a: int): (b: int)
    requires 0 <= n1 && 0 <= n2
    ensures MinAction(n2) <= b <= MaxAction(n1)
    ensures MinAction(n2) <= a <= MaxAction(n1) ==> b == a
  {
    var a1 := Min(a, n1);
    var a2 := Max(a1, -n2);
    var a3 := Min(MaxMoves, a2);
    Max(-MaxMoves, a3)
  }

  /** The clamped action keeps both mornings inside the 26-row tables. */
  lemma MorningInRange(n1: int, n2: int, a: int)
    requires 0 <= n1 < NCarStates && 0 <= n2 < NCarStates
    ensures 0 <= n1 - Clamp(n1, n2, a) < MaxMorning
    ensures 0 <= n2 + Clamp(n1, n2, a) < MaxMorning
  {
  }

  // ---------------------------------------------------------------------------
  // Transition tables of one location

  /** Requests that can be served: at most the cars available. */
  function Satisfied(req: int, m: int): (s: int)
    requires 0 <= req && 0 <= m
    ensures 0 <= s <= m && s <= req
    ensures s == req || s == m
  {
    Min(req, m)
  }

  /** End-of-day cars after a morning with m cars, req requests and drp drop-offs, capped at 20. */
  function Dest(m: int, req: int, drp: int): (j: int)
    requires 0 <= m && 0 <= req && 0 <= drp
    ensures 0 <= j < NCarStates
    ensures m + drp - Satisfied(req, m) <= 20 ==> j == m + drp - Satisfied(req, m)
    ensures m + drp - Satisfied(req, m) > 20 ==> j == 20
  {
    var n := m + drp - Min(req, m);
    var n0 := Max(n, 0);
    Min(20, n0)
  }

  /** Expected reward for the first r request counts with m cars: sum of 10 * p(req) * min(req, m). */
  function RewardGain(reqP: seq<real>, r: nat, m: int): real
    requires r <= |reqP| && 0 <= m
  {
    if r == 0 then 0.0
    else RewardGain(reqP, r - 1, m) + 10.0 * reqP[r - 1] * (Satisfied(r - 1, m) as real)
  }

  /** Mass that request count req with the first d drop-off counts puts on the move m -> j. */
  function CellGain(reqP: seq<real>, drpP: seq<real>, req: nat, d: nat, m: int, j: int): real
    requires req < |reqP| && d <= |drpP| && 0 <= m
  {
    if d == 0 then 0.0
    else CellGain(reqP, drpP, req, d - 1, m, j) + (if Dest(m, req, d - 1) == j then reqP[req] * drpP[d - 1] else 0.0)
  }

  /** Mass that the first r request counts, with all drop-off counts, put on the move m -> j. */
  function ProbGain(reqP: seq<real>, drpP: seq<real>, r: nat, m: int, j: int): real
    requires r <= |reqP| && 0 <= m
  {
    if r == 0 then 0.0
    else ProbGain(reqP, drpP, r - 1, m, j) + CellGain(reqP, drpP, r - 1, |drpP|, m, j)
  }

  /** Joint mass of request count req with the first d drop-off counts. */
  function PairMass(reqP: seq<real>, drpP: seq<real>, req: nat, d: nat): real
    requires req < |reqP| && d <= |drpP|
  {
    if d == 0 then 0.0 else PairMass(reqP, drpP, req, d - 1) + reqP[req] * drpP[d - 1]
  }

  /** Joint mass of the first r request counts with all drop-off counts. */
  function TotalMass(reqP: seq<real>, drpP: seq<real>, r: nat): real
    requires r <= |reqP|
  {
    if r == 0 then 0.0 else TotalMass(reqP, drpP, r - 1) + PairMass(reqP, drpP, r - 1, |drpP|)
  }

  /** Sum over the first c end states of CellGain. */
  function CellRow(reqP: seq<real>, drpP: seq<real>, req: nat, d: nat, m: int, c: nat): real
    requires req < |reqP| && d <= |drpP| && 0 <= m
  {
    if c == 0 then 0.0 else CellRow(reqP, drpP, req, d, m, c - 1) + CellGain(reqP, drpP, req, d, m, c - 1)
  }

  /** Sum over the first c end states of ProbGain: what one row of the table gains. */
  function ProbRow(reqP: seq<real>, drpP: seq<real>, r: nat, m: int, c: nat): real
    requires r <= |reqP| && 0 <= m
  {
    if c == 0 then 0.0 else ProbRow(reqP, drpP, r, m, c - 1) + ProbGain(reqP, drpP, r, m, c - 1)
  }

  /** Adding one drop-off count adds its mass to the single cell Dest picks, if that cell is summed. */
  lemma {:induction false} CellRowStep(reqP: seq<real>, drpP: seq<real>, req: nat, d: nat, m: int, c: nat)
    requires req < |reqP| && d < |drpP| && 0 <= m
    ensures CellRow(reqP, drpP, req, d + 1, m, c)
         == CellRow(reqP, drpP, req, d, m, c) + (if Dest(m, req, d) < c then reqP[req] * drpP[d] else 0.0)
  {
    if c > 0 {
      CellRowStep(reqP, drpP, req, d, m, c - 1);
    }
  }

  /** One request count puts the same mass, its joint mass, on every row. */
  lemma {:induction false} CellRowMass(reqP: seq<real>, drpP: seq<real>, req: nat, d: nat, m: int)
    requires req < |reqP| && d <= |drpP| && 0 <= m
    ensures CellRow(reqP, drpP, req, d, m, NCarStates) == PairMass(reqP, drpP, req, d)
  {
    if d == 0 {
      ZeroRow(reqP, drpP, req, m, NCarStates);
    } else {
      CellRowMass(reqP, drpP, req, d - 1, m);
      CellRowStep(reqP, drpP, req, d - 1, m, NCarStates);
    }
  }

  lemma {:induction false} ZeroRow(reqP: seq<real>, drpP: seq<real>, req: nat, m: int, c: nat)
    requires req < |reqP| && 0 <= m
    ensures CellRow(reqP, drpP, req, 0, m, c) == 0.0
  {
    if c > 0 {
      ZeroRow(reqP, drpP, req, m, c - 1);
    }
  }

  lemma {:induction false} ProbRowStep(reqP: seq<real>, drpP: seq<real>, r: nat, m: int, c: nat)
    requires r < |reqP| && 0 <= m
    ensures ProbRow(reqP, drpP, r + 1, m, c) == ProbRow(reqP, drpP, r, m, c) + CellRow(reqP, drpP, r, |drpP|, m, c)
  {
    if c > 0 {
      ProbRowStep(reqP, drpP, r, m, c - 1);
    }
  }

  /**
   * Every (request, drop-off) pair lands in exactly one cell of each row, so every
   * row of the table gains the same total mass, whatever its morning state.
   */
  lemma {:induction false} RowMass(reqP: seq<real>, drpP: seq<real>, r: nat, m: int)
    requires r <= |reqP| && 0 <= m
    ensures ProbRow(reqP, drpP, r, m, NCarStates) == TotalMass(reqP, drpP, r)
  {
    if r == 0 {
      ZeroProbRow(reqP, drpP, m, NCarStates);
    } else {
      RowMass(reqP, drpP, r - 1, m);
      ProbRowStep(reqP, drpP, r - 1, m, NCarStates);
      CellRowMass(reqP, drpP, r - 1, |drpP|, m);
    }
  }

  lemma {:induction false} ZeroProbRow(reqP: seq<real>, drpP: seq<real>, m: int, c: nat)
    requires 0 <= m
    ensures ProbRow(reqP, drpP, 0, m, c) == 0.0
  {
    if c > 0 {
      ZeroProbRow(reqP, drpP, m, c - 1);
    }
  }

  /** With nonnegative weights, more cars in the morning never lower the expected reward. */
  lemma {:induction false} RewardMonotone(reqP: seq<real>, r: nat, m: int, m': int)
    requires r <= |reqP| && 0 <= m <= m'
    requires forall i :: 0 <= i < |reqP| ==> reqP[i] >= 0.0
    ensures RewardGain(reqP, r, m) <= RewardGain(reqP, r, m')
  {
    if r > 0 {
      RewardMonotone(reqP, r - 1, m, m');
      var p := reqP[r - 1];
      assert (Satisfied(r - 1, m) as real) <= (Satisfied(r - 1, m') as real);
      assert 10.0 * p * (Satisfied(r - 1, m) as real) <= 10.0 * p * (Satisfied(r - 1, m') as real);
    }
  }

  /** The rewards pass for one request count: every morning state gains 10 * p * min(req, n). */
  method AddRewards(rewards: array<real>, reqP: seq<real>, req: nat)
    requires rewards.Length == MaxMorning && req < |reqP|
    modifies rewards
    ensures forall n :: 0 <= n < MaxMorning ==>
      rewards[n] == old(rewards[n]) + 10.0 * reqP[req] * (Satisfied(req, n) as real)
  {
    var reqProb := reqP[req];
    var n := 0;
    while n < MaxMorning
      invariant 0 <= n <= MaxMorning
      invariant forall n' :: 0 <= n' < n ==> rewards[n'] == old(rewards[n']) + 10.0 * reqProb * (Satisfied(req, n') as real)
      invariant forall n' :: n <= n' < MaxMorning ==> rewards[n'] == old(rewards[n'])
    {
      var satisfiedReq := Min(req, n);
      rewards[n] := rewards[n] + 10.0 * reqProb * (satisfiedReq as real);
      n := n + 1;
    }
  }

  /** The pass over morning states for one (request, drop-off) pair: each row gains the pair's mass in one cell. */
  method AddPair(probs: array2<real>, reqP: seq<real>, drpP: seq<real>, req: nat, drp: nat)
    requires probs.Length0 == MaxMorning && probs.Length1 == NCarStates && req < |reqP| && drp < |drpP|
    modifies probs
    ensures forall m, j :: 0 <= m < MaxMorning && 0 <= j < NCarStates ==>
      probs[m, j] == old(probs[m, j]) + (if Dest(m, req, drp) == j then reqP[req] * drpP[drp] else 0.0)
  {
    var reqProb, drpProb := reqP[req], drpP[drp];
    var m := 0;
    while m < MaxMorning
      invariant 0 <= m <= MaxMorning
      invariant forall m', j :: 0 <= m' < m && 0 <= j < NCarStates ==>
        probs[m', j] == old(probs[m', j]) + (if Dest(m', req, drp) == j then reqProb * drpProb else 0.0)
      invariant forall m', j :: m <= m' < MaxMorning && 0 <= j < NCarStates ==> probs[m', j] == old(probs[m', j])
    {
      var satisfiedReq := Min(req, m);
      var newN := m + drp - satisfiedReq;
      newN := Max(newN, 0);
      newN := Min(20, newN);
      assert newN == Dest(m, req, drp);
      label before:
      probs[m, newN] := probs[m, newN] + reqProb * drpProb;
      assert forall m', j :: 0 <= m' < MaxMorning && 0 <= j < NCarStates && (m', j) != (m, newN) ==>
        probs[m', j] == old@before(probs[m', j]);
      m := m + 1;
    }
  }

  /** The drop-off loop for one request count. */
  method AddRequest(probs: array2<real>, reqP: seq<real>, drpP: seq<real>, req: nat)
    requires probs.Length0 == MaxMorning && probs.Length1 == NCarStates && req < |reqP|
    modifies probs
    ensures forall m, j :: 0 <= m < MaxMorning && 0 <= j < NCarStates ==>
      probs[m, j] == old(probs[m, j]) + CellGain(reqP, drpP, req, |drpP|, m, j)
  {
    var drp := 0;
    while drp < |drpP|
      invariant 0 <= drp <= |drpP|
      invariant forall m, j :: 0 <= m < MaxMorning && 0 <= j < NCarStates ==>
        probs[m, j] == old(probs[m, j]) + CellGain(reqP, drpP, req, drp, m, j)
    {
      AddPair(probs, reqP, drpP, req, drp);
      drp := drp + 1;
    }
  }

  /**
   * Adds to `rewards` the expected reward of every morning state and to `probs`
   * the probability of every morning-to-evening move, for the given Poisson
   * weights of requests and drop-offs (each one above the cut-off).
   */
  method LoadProbsRewards(probs: array2<real>, rewards: array<real>, reqP: seq<real>, drpP: seq<real>)
    requires probs.Length0 == MaxMorning && probs.Length1 == NCarStates && rewards.Length == MaxMorning
    requires forall i :: 0 <= i < |reqP| ==> reqP[i] > Theta
    requires forall i :: 0 <= i < |drpP| ==> drpP[i] > Theta
    modifies probs, rewards
    ensures forall n :: 0 <= n < MaxMorning ==> rewards[n] == old(rewards[n]) + RewardGain(reqP, |reqP|, n)
    ensures forall m, j :: 0 <= m < MaxMorning && 0 <= j < NCarStates ==>
      probs[m, j] == old(probs[m, j]) + ProbGain(reqP, drpP, |reqP|, m, j)
  {
    var req := 0;
    while req < |reqP|
      invariant 0 <= req <= |reqP|
      invariant forall n :: 0 <= n < MaxMorning ==> rewards[n] == old(rewards[n]) + RewardGain(reqP, req, n)
      invariant forall m, j :: 0 <= m < MaxMorning && 0 <= j < NCarStates ==>
        probs[m, j] == old(probs[m, j]) + ProbGain(reqP, drpP, req, m, j)
    {
      AddRewards(rewards, reqP, req);
      assert forall n :: 0 <= n < MaxMorning ==>
        RewardGain(reqP, req + 1, n) == RewardGain(reqP, req, n) + 10.0 * reqP[req] * (Satisfied(req, n) as real);
      AddRequest(probs, reqP, drpP, req);
      assert forall m, j :: 0 <= m < MaxMorning && 0 <= j < NCarStates ==>
        ProbGain(reqP, drpP, req + 1, m, j) == ProbGain(reqP, drpP, req, m, j) + CellGain(reqP, drpP, req, |drpP|, m, j);
      req := req + 1;
    }
  }

  /** The zero-initialised tables of one location, loaded by load_probs_rewards. */
  method LoadLocation(reqP: seq<real>, drpP: seq<real>) returns (prob: seq<seq<real>>, rew: seq<real>)
    requires forall i :: 0 <= i < |reqP| ==> reqP[i] > Theta
    requires forall i :: 0 <= i < |drpP| ==> drpP[i] > Theta
    ensures |prob| == MaxMorning && (forall m :: 0 <= m < MaxMorning ==> |prob[m]| == NCarStates) && |rew| == MaxMorning
    ensures forall n :: 0 <= n < MaxMorning ==> rew[n] == RewardGain(reqP, |reqP|, n)
    ensures forall m, j :: 0 <= m < MaxMorning && 0 <= j < NCarStates ==> prob[m][j] == ProbGain(reqP, drpP, |reqP|, m, j)
  {
    var p := new real[MaxMorning, NCarStates]((_, _) => 0.0);
    var r := new real[MaxMorning](_ => 0.0);
    LoadProbsRewards(p, r, reqP, drpP);
    prob, rew := Table(p), r[..];
  }

  function RealAbs(x: real): real { if x >= 0.0 then x else -x }

  predicate InStates(n1: int, n2: int) { 0 <= n1 < NCarStates && 0 <= n2 < NCarStates }

  /** A table of state values, one row per location-1 state. */
  predicate IsGrid(vals: seq<seq<real>>)
  {
    |vals| == NCarStates && forall i :: 0 <= i < NCarStates ==> |vals[i]| == NCarStates
  }

  /**
   * The scan of greedy_policy over a row of action values from index k on: a
   * value replaces the incumbent (best, bestVal) only when it is larger by
   * more than Tie.
   */
  function Scan(vs: seq<real>, k: nat, best: nat, bestVal: real): nat
    decreases |vs| - k
  {
    if k >= |vs| then best
    else if vs[k] > bestVal + Tie then Scan(vs, k + 1, k, vs[k])
    else Scan(vs, k + 1, best, bestVal)
  }

  /** The index greedy_policy settles on, scanning from the first value. */
  function Best(vs: seq<real>): nat
    requires |vs| > 0
  {
    Scan(vs, 1, 0, vs[0])
  }

  lemma {:induction false} ScanSpec(vs: seq<real>, k: nat, best: nat, bestVal: real)
    requires best < k <= |vs| && bestVal == vs[best]
    requires forall i :: 0 <= i < k ==> vs[i] <= bestVal + Tie
    requires forall i :: 0 <= i < best ==> vs[i] < bestVal
    ensures var r := Scan(vs, k, best, bestVal);
      && r < |vs|
      && (forall i :: 0 <= i < |vs| ==> vs[i] <= vs[r] + Tie)
      && (forall i :: 0 <= i < r ==> vs[i] < vs[r])
    decreases |vs| - k
  {
    if k < |vs| {
      if vs[k] > bestVal + Tie {
        ScanSpec(vs, k + 1, k, vs[k]);
      } else {
        ScanSpec(vs, k + 1, best, bestVal);
      }
    }
  }

  /**
   * The chosen index is a value within Tie of every value, and every earlier
   * value is strictly smaller.
   */
  lemma BestSpec(vs: seq<real>)
    requires |vs| > 0
    ensures Best(vs) < |vs|
    ensures forall i :: 0 <= i < |vs| ==> vs[i] <= vs[Best(vs)] + Tie
    ensures forall i :: 0 <= i < Best(vs) ==> vs[i] < vs[Best(vs)]
  {
    ScanSpec(vs, 1, 0, vs[0]);
  }

  /** The contents of a two-dimensional array, row by row. */
  function Table<T>(a: array2<T>): (t: seq<seq<T>>)
    reads a
    ensures |t| == a.Length0 && forall i :: 0 <= i < a.Length0 ==> |t[i]| == a.Length1
    ensures forall i, j :: 0 <= i < a.Length0 && 0 <= j < a.Length1 ==> t[i][j] == a[i, j]
  {
    seq(a.Length0, i requires 0 <= i < a.Length0 reads a => seq(a.Length1, j requires 0 <= j < a.Length1 reads a => a[i, j]))
  }

  /** A table that differs from before only in cell (n1, n2), which holds v. */
  lemma GridUpdate(before: seq<seq<real>>, now: seq<seq<real>>, n1: int, n2: int, v: real)
    requires IsGrid(before) && IsGrid(now) && InStates(n1, n2)
    requires forall i, j :: InStates(i, j) ==> now[i][j] == if i == n1 && j == n2 then v else before[i][j]
    ensures now == before[n1 := before[n1][n2 := v]]
  {
    var after := before[n1 := before[n1][n2 := v]];
    forall i | 0 <= i < NCarStates
      ensures now[i] == after[i]
    {
      assert forall j :: 0 <= j < NCarStates ==> now[i][j] == after[i][j];
    }
  }

  /**
   * The largest absolute change between two tables over the cells before
   * (n1, n2) in row-major order; 0 when there are none.
   */
  function MaxChange(before: seq<seq<real>>, after: seq<seq<real>>, n1: int, n2: int): real
    requires IsGrid(before) && IsGrid(after) && (InStates(n1, n2) || (n1 == NCarStates && n2 == 0) || (0 <= n1 < NCarStates && n2 == NCarStates))
    decreases n1, n2
  {
    if n2 > 0 then
      var d := MaxChange(before, after, n1, n2 - 1);
      var e := RealAbs(after[n1][n2 - 1] - before[n1][n2 - 1]);
      if d >= e then d else e
    else if n1 > 0 then MaxChange(before, after, n1 - 1, NCarStates)
    else 0.0
  }

  /** MaxChange depends only on the cells before (n1, n2). */
  lemma {:induction false} MaxChangeFrame(before: seq<seq<real>>, a1: seq<seq<real>>, a2: seq<seq<real>>, n1: int, n2: int)
    requires IsGrid(before) && IsGrid(a1) && IsGrid(a2) && (InStates(n1, n2) || (n1 == NCarStates && n2 == 0) || (0 <= n1 < NCarStates && n2 == NCarStates))
    requires forall r, c :: InStates(r, c) && (r < n1 || (r == n1 && c < n2)) ==> a1[r][c] == a2[r][c]
    ensures MaxChange(before, a1, n1, n2) == MaxChange(before, a2, n1, n2)
    decreases n1, n2
  {
    if n2 > 0 {
      MaxChangeFrame(before, a1, a2, n1, n2 - 1);
    } else if n1 > 0 {
      MaxChangeFrame(before, a1, a2, n1 - 1, NCarStates);
    }
  }

  /**
   * MaxChange is non-negative, bounds the change of every cell before (n1, n2),
   * and when positive is the change of one of them.
   */
  lemma {:induction false} MaxChangeBound(before: seq<seq<real>>, after: seq<seq<real>>, n1: int, n2: int)
    requires IsGrid(before) && IsGrid(after) && (InStates(n1, n2) || (n1 == NCarStates && n2 == 0) || (0 <= n1 < NCarStates && n2 == NCarStates))
    ensures MaxChange(before, after, n1, n2) >= 0.0
    ensures forall r, c :: InStates(r, c) && (r < n1 || (r == n1 && c < n2)) ==>
      RealAbs(after[r][c] - before[r][c]) <= MaxChange(before, after, n1, n2)
    ensures MaxChange(before, after, n1, n2) > 0.0 ==>
      exists r, c :: InStates(r, c) && (r < n1 || (r == n1 && c < n2)) && RealAbs(after[r][c] - before[r][c]) == MaxChange(before, after, n1, n2)
    decreases n1, n2
  {
    if n2 > 0 {
      MaxChangeBound(before, after, n1, n2 - 1);
    } else if n1 > 0 {
      MaxChangeBound(before, after, n1 - 1, NCarStates);
    }
  }

  predicate IsPolicy(pol: seq<seq<int>>)
  {
    |pol| == NCarStates && forall i :: 0 <= i < NCarStates ==> |pol[i]| == NCarStates
  }

  /**
   * The program's global tables. The transition probabilities and expected
   * rewards of both locations are written once, by the loads, and only read
   * afterwards, so they are kept as the values the loads produced; the
   * state values V and the policy are arrays updated in place.
   */
  class Rental {
    const prob1: seq<seq<real>>
    const prob2: seq<seq<real>>
    const rew1: seq<real>
    const rew2: seq<real>
    const V: array2<real>
    const policy: array2<int>

    /** Table shapes: 26 x 21 probabilities, 26 rewards, 21 x 21 values and policy. */
    ghost predicate Valid()
    {
      && |prob1| == MaxMorning && (forall m :: 0 <= m < MaxMorning ==> |prob1[m]| == NCarStates)
      && |prob2| == MaxMorning && (forall m :: 0 <= m < MaxMorning ==> |prob2[m]| == NCarStates)
      && |rew1| == MaxMorning && |rew2| == MaxMorning
      && V.Length0 == NCarStates && V.Length1 == NCarStates
      && policy.Length0 == NCarStates && policy.Length1 == NCarStates
    }

    /**
     * The zero-initialised globals, then the two loads of the tables for the
     * given Poisson weights of requests and drop-offs at each location.
     */
    constructor (req1: seq<real>, drp1: seq<real>, req2: seq<real>, drp2: seq<real>)
      requires forall i :: 0 <= i < |req1| ==> req1[i] > Theta
      requires forall i :: 0 <= i < |drp1| ==> drp1[i] > Theta
      requires forall i :: 0 <= i < |req2| ==> req2[i] > Theta
      requires forall i :: 0 <= i < |drp2| ==> drp2[i] > Theta
      ensures Valid() && fresh(V) && fresh(policy)
      ensures forall n :: 0 <= n < MaxMorning ==> rew1[n] == RewardGain(req1, |req1|, n) && rew2[n] == RewardGain(req2, |req2|, n)
      ensures forall m, j :: 0 <= m < MaxMorning && 0 <= j < NCarStates ==>
        prob1[m][j] == ProbGain(req1, drp1, |req1|, m, j) && prob2[m][j] == ProbGain(req2, drp2, |req2|, m, j)
      ensures forall n1, n2 :: InStates(n1, n2) ==> V[n1, n2] == 0.0 && policy[n1, n2] == 0
    {
      var p1, r1 := LoadLocation(req1, drp1);
      var p2, r2 := LoadLocation(req2, drp2);
      prob1, rew1, prob2, rew2 := p1, r1, p2, r2;
      V := new real[NCarStates, NCarStates]((_, _) => 0.0);
      policy := new int[NCarStates, NCarStates]((_, _) => 0);
    }

    /** The current state values as a table. */
    function Values(): (vals: seq<seq<real>>)
      requires Valid()
      reads V
      ensures IsGrid(vals)
      ensures forall i, j :: InStates(i, j) ==> vals[i][j] == V[i, j]
    {
      Table(V)
    }

    /** The current policy as a table. */
    function Policy(): (pol: seq<seq<int>>)
      requires Valid()
      reads policy
      ensures IsPolicy(pol)
      ensures forall i, j :: InStates(i, j) ==> pol[i][j] == policy[i, j]
    {
      Table(policy)
    }

    /** One term of the backup: moving from mornings (m1, m2) to evening (i, j). */
    function Term(m1: int, m2: int, vals: seq<seq<real>>, i: int, j: int): real
      requires Valid() && IsGrid(vals) && 0 <= m1 < MaxMorning && 0 <= m2 < MaxMorning && InStates(i, j)
    {
      prob1[m1][i] * prob2[m2][j] * (rew1[m1] + rew2[m2] + Discount * vals[i][j])
    }

    /** Terms of evening row i, for the first c evening states of location 2. */
    function RowSum(m1: int, m2: int, vals: seq<seq<real>>, i: int, c: nat): real
      requires Valid() && IsGrid(vals) && 0 <= m1 < MaxMorning && 0 <= m2 < MaxMorning && 0 <= i < NCarStates && c <= NCarStates
    {
      if c == 0 then 0.0 else RowSum(m1, m2, vals, i, c - 1) + Term(m1, m2, vals, i, c - 1)
    }

    /** Terms of the first c evening rows. */
    function GridSum(m1: int, m2: int, vals: seq<seq<real>>, c: nat): real
      requires Valid() && IsGrid(vals) && 0 <= m1 < MaxMorning && 0 <= m2 < MaxMorning && c <= NCarStates
    {
      if c == 0 then 0.0 else GridSum(m1, m2, vals, c - 1) + RowSum(m1, m2, vals, c - 1, |vals[c - 1]|)
    }

    /**
     * The one-step look-ahead value of moving b cars from location 1 to 2 in
     * state (n1, n2) against the value table vals: the moving cost -2|b| plus
     * the expected reward and discounted value of the next evening.
     */
    function MoveValue(n1: int, n2: int, b: int, vals: seq<seq<real>>): real
      requires Valid() && IsGrid(vals) && InStates(n1, n2) && MinAction(n2) <= b <= MaxAction(n1)
    {
      -2.0 * (Abs(b) as real) + GridSum(n1 - b, n2 + b, vals, |vals|)
    }

    /** The look-ahead value of action a, first clamped into the available range. */
    function BackupValue(n1: int, n2: int, a: int, vals: seq<seq<real>>): real
      requires Valid() && IsGrid(vals) && InStates(n1, n2)
    {
      MoveValue(n1, n2, Clamp(n1, n2, a), vals)
    }

    /** An action already in range is backed up unclamped. */
    lemma BackupInRange(n1: int, n2: int, a: int, vals: seq<seq<real>>)
      requires Valid() && IsGrid(vals) && InStates(n1, n2) && MinAction(n2) <= a <= MaxAction(n1)
      ensures BackupValue(n1, n2, a, vals) == MoveValue(n1, n2, a, vals)
    {
      assert Clamp(n1, n2, a) == a;
    }

    /** backup_action: the nested loop that accumulates the look-ahead value against V. */
    method BackupAction(n1: int, n2: int, a: int) returns (val: real)
      requires Valid() && InStates(n1, n2)
      ensures val == BackupValue(n1, n2, a, Values())
    {
      var act := Min(a, n1);
      act := Max(act, -n2);
      act := Min(MaxMoves, act);
      act := Max(-MaxMoves, act);
      assert act == Clamp(n1, n2, a);
      val := -2.0 * (Abs(act) as real);
      var morning1 := n1 - act;
      var morning2 := n2 + act;
      ghost var vals := Values();
      ghost var base := val;
      var i := 0;
      while i < NCarStates
        invariant 0 <= i <= NCarStates
        invariant val == base + GridSum(morning1, morning2, vals, i)
      {
        var j := 0;
        while j < NCarStates
          invariant 0 <= j <= NCarStates
          invariant val == base + GridSum(morning1, morning2, vals, i) + RowSum(morning1, morning2, vals, i, j)
        {
          val := val + prob1[morning1][i] * prob2[morning2][j] * (rew1[morning1] + rew2[morning2] + Discount * V[i, j]);
          j := j + 1;
        }
        i := i + 1;
      }
    }

    /** The values of the actions a, a + 1, ..., MaxAction(n1) in state (n1, n2). */
    function ActionValues(n1: int, n2: int, a: int, vals: seq<seq<real>>): (vs: seq<real>)
      requires Valid() && IsGrid(vals) && InStates(n1, n2) && MinAction(n2) <= a
      ensures |vs| == if a <= MaxAction(n1) then MaxAction(n1) - a + 1 else 0
      decreases MaxAction(n1) - a + 1
    {
      if a > MaxAction(n1) then [] else [MoveValue(n1, n2, a, vals)] + ActionValues(n1, n2, a + 1, vals)
    }

    /** Entry i of the row of action values from a is the value of action a + i. */
    lemma {:induction false} ActionValuesAt(n1: int, n2: int, a: int, i: int, vals: seq<seq<real>>)
      requires Valid() && IsGrid(vals) && InStates(n1, n2) && MinAction(n2) <= a && 0 <= i <= MaxAction(n1) - a
      ensures ActionValues(n1, n2, a, vals)[i] == MoveValue(n1, n2, a + i, vals)
      decreases i
    {
      if i > 0 {
        ActionValuesAt(n1, n2, a + 1, i - 1, vals);
      }
    }

    /** The action greedy_policy picks in state (n1, n2) against the value table vals. */
    function GreedyAction(n1: int, n2: int, vals: seq<seq<real>>): int
      requires Valid() && IsGrid(vals) && InStates(n1, n2)
    {
      ActionRangeHoldsZero(n1, n2);
      MinAction(n2) + Best(ActionValues(n1, n2, MinAction(n2), vals))
    }

    /**
     * The greedy action is available in the state, no available action beats it
     * by more than Tie, and every smaller action is strictly worse: near-ties
     * go to the smallest action.
     */
    lemma GreedyActionSpec(n1: int, n2: int, vals: seq<seq<real>>)
      requires Valid() && IsGrid(vals) && InStates(n1, n2)
      ensures var g := GreedyAction(n1, n2, vals);
        && MinAction(n2) <= g <= MaxAction(n1)
        && (forall b :: MinAction(n2) <= b <= MaxAction(n1) ==> BackupValue(n1, n2, b, vals) <= BackupValue(n1, n2, g, vals) + Tie)
        && (forall b :: MinAction(n2) <= b < g ==> BackupValue(n1, n2, b, vals) < BackupValue(n1, n2, g, vals))
    {
      ActionRangeHoldsZero(n1, n2);
      var aMin := MinAction(n2);
      var vs := ActionValues(n1, n2, aMin, vals);
      BestSpec(vs);
      var k := Best(vs);
      BackupIsActionValue(n1, n2, aMin + k, vals);
      forall b | aMin <= b <= MaxAction(n1)
        ensures BackupValue(n1, n2, b, vals) <= BackupValue(n1, n2, aMin + k, vals) + Tie
        ensures b < aMin + k ==> BackupValue(n1, n2, b, vals) < BackupValue(n1, n2, aMin + k, vals)
      {
        BackupIsActionValue(n1, n2, b, vals);
      }
    }

    /** The backup of an available action is its entry in the row of action values. */
    lemma BackupIsActionValue(n1: int, n2: int, b: int, vals: seq<seq<real>>)
      requires Valid() && IsGrid(vals) && InStates(n1, n2) && MinAction(n2) <= b <= MaxAction(n1)
      ensures BackupValue(n1, n2, b, vals) == ActionValues(n1, n2, MinAction(n2), vals)[b - MinAction(n2)]
    {
      ActionValuesAt(n1, n2, MinAction(n2), b - MinAction(n2), vals);
      BackupInRange(n1, n2, b, vals);
    }

    /**
     * One pass of greedy_policy's loop: action a replaces the incumbent only
     * when its value is larger by more than Tie.
     */
    method GreedyStep(n1: int, n2: int, a: int, best: int, bestVal: real, ghost vs: seq<real>) returns (best': int, bestVal': real)
      requires Valid() && InStates(n1, n2) && MinAction(n2) <= a <= MaxAction(n1)
      requires vs == ActionValues(n1, n2, MinAction(n2), Values())
      ensures if vs[a - MinAction(n2)] > bestVal + Tie then best' == a && bestVal' == vs[a - MinAction(n2)]
              else best' == best && bestVal' == bestVal
    {
      best', bestVal' := best, bestVal;
      var val := BackupAction(n1, n2, a);
      BackupInRange(n1, n2, a, Values());
      ActionValuesAt(n1, n2, MinAction(n2), a - MinAction(n2), Values());
      if val > bestVal + Tie {
        bestVal' := val;
        best' := a;
      }
    }

    /** greedy_policy: scans the available actions keeping the best value seen. */
    method GreedyPolicy(n1: int, n2: int) returns (bestAction: int)
      requires Valid() && InStates(n1, n2)
      ensures bestAction == GreedyAction(n1, n2, Values())
    {
      var aMin := Max(-MaxMoves, -n2);
      var aMax := Min(MaxMoves, n1);
      ghost var vals := Values();
      ghost var vs := ActionValues(n1, n2, aMin, vals);
      ActionRangeHoldsZero(n1, n2);
      var a := aMin;
      bestAction := aMin;
      var bestVal := BackupAction(n1, n2, a);
      BackupInRange(n1, n2, a, vals);
      ActionValuesAt(n1, n2, aMin, 0, vals);
      a := aMin + 1;
      while a <= aMax
        invariant aMin + 1 <= a <= aMax + 1
        invariant aMin <= bestAction < a && bestVal == vs[bestAction - aMin]
        invariant Scan(vs, a - aMin, bestAction - aMin, bestVal) == Best(vs)
        decreases aMax - a
      {
        bestAction, bestVal := GreedyStep(n1, n2, a, bestAction, bestVal, vs);
        a := a + 1;
      }
    }

    /**
     * update_policy_t: replaces every entry of the policy by the greedy action
     * against the current values; reports whether any entry changed.
     */
    method UpdatePolicy() returns (hasChanged: bool)
      requires Valid()
      modifies policy
      ensures forall n1, n2 :: InStates(n1, n2) ==> policy[n1, n2] == GreedyAction(n1, n2, Values())
      ensures hasChanged <==> exists n1, n2 :: InStates(n1, n2) && old(policy[n1, n2]) != GreedyAction(n1, n2, Values())
    {
      ghost var vals := Values();
      hasChanged := false;
      var n1 := 0;
      while n1 < NCarStates
        invariant 0 <= n1 <= NCarStates && Values() == vals
        invariant forall r, c :: InStates(r, c) && r < n1 ==> policy[r, c] == GreedyAction(r, c, vals)
        invariant forall r, c :: InStates(r, c) && r >= n1 ==> policy[r, c] == old(policy[r, c])
        invariant hasChanged <==> exists r, c :: InStates(r, c) && r < n1 && old(policy[r, c]) != GreedyAction(r, c, vals)
      {
        var rowChanged := UpdateRow(n1, vals);
        if rowChanged {
          hasChanged := true;
        }
        n1 := n1 + 1;
      }
    }

    /** The inner loop of update_policy_t: row n1 of the policy becomes greedy. */
    method UpdateRow(n1: int, ghost vals: seq<seq<real>>) returns (rowChanged: bool)
      requires Valid() && 0 <= n1 < NCarStates && vals == Values()
      modifies policy
      ensures Values() == vals
      ensures forall c :: 0 <= c < NCarStates ==> policy[n1, c] == GreedyAction(n1, c, vals)
      ensures forall r, c :: InStates(r, c) && r != n1 ==> policy[r, c] == old(policy[r, c])
      ensures rowChanged <==> exists c :: 0 <= c < NCarStates && old(policy[n1, c]) != GreedyAction(n1, c, vals)
    {
      rowChanged := false;
      var n2 := 0;
      while n2 < NCarStates
        invariant 0 <= n2 <= NCarStates && Values() == vals
        invariant forall c :: 0 <= c < n2 ==> policy[n1, c] == GreedyAction(n1, c, vals)
        invariant forall r, c :: InStates(r, c) && (r != n1 || c >= n2) ==> policy[r, c] == old(policy[r, c])
        invariant rowChanged <==> exists c :: 0 <= c < n2 && old(policy[n1, c]) != GreedyAction(n1, c, vals)
      {
        var b := policy[n1, n2];
        var g := GreedyPolicy(n1, n2);
        policy[n1, n2] := g;
        if b != policy[n1, n2] {
          rowChanged := true;
        }
        n2 := n2 + 1;
      }
    }

    /**
     * The values after an in-place sweep over the cells before (n1, n2) in
     * row-major order, starting from vals: each cell is backed up, with its
     * action in pol, against the table as the sweep has left it so far.
     */
    function SweepValues(vals: seq<seq<real>>, pol: seq<seq<int>>, n1: int, n2: int): (r: seq<seq<real>>)
      requires Valid() && IsGrid(vals) && IsPolicy(pol) && (InStates(n1, n2) || (n1 == NCarStates && n2 == 0) || (0 <= n1 < NCarStates && n2 == NCarStates))
      ensures IsGrid(r)
      decreases n1, n2
    {
      if n2 > 0 then
        var w := SweepValues(vals, pol, n1, n2 - 1);
        w[n1 := w[n1][n2 - 1 := BackupValue(n1, n2 - 1, pol[n1][n2 - 1], w)]]
      else if n1 > 0 then SweepValues(vals, pol, n1 - 1, NCarStates)
      else vals
    }

    /** The sweep has not yet touched cell (r, c) when it stands at (n1, n2) with (r, c) still ahead. */
    lemma {:induction false} SweepAhead(vals: seq<seq<real>>, pol: seq<seq<int>>, n1: int, n2: int, r: int, c: int)
      requires Valid() && IsGrid(vals) && IsPolicy(pol) && (InStates(n1, n2) || (n1 == NCarStates && n2 == 0) || (0 <= n1 < NCarStates && n2 == NCarStates))
      requires InStates(r, c) && (r > n1 || (r == n1 && c >= n2))
      ensures SweepValues(vals, pol, n1, n2)[r][c] == vals[r][c]
      decreases n1, n2
    {
      if n2 > 0 {
        SweepAhead(vals, pol, n1, n2 - 1, r, c);
      } else if n1 > 0 {
        SweepAhead(vals, pol, n1 - 1, NCarStates, r, c);
      }
    }

    /**
     * One pass of policy_eval's inner loop: backs up cell (n1, n2) in place with
     * its policy action and widens diff to the cell's change.
     */
    method SweepCell(n1: int, n2: int, diff: real, ghost start: seq<seq<real>>, ghost pol: seq<seq<int>>) returns (diff': real)
      requires Valid() && InStates(n1, n2) && IsGrid(start) && pol == Policy()
      requires Values() == SweepValues(start, pol, n1, n2)
      requires diff == MaxChange(start, Values(), n1, n2)
      modifies V
      ensures Values() == SweepValues(start, pol, n1, n2 + 1)
      ensures diff' == MaxChange(start, Values(), n1, n2 + 1)
    {
      ghost var before := Values();
      SweepAhead(start, pol, n1, n2, n1, n2);
      var valTmp := V[n1, n2];
      var a := policy[n1, n2];
      var v := BackupAction(n1, n2, a);
      V[n1, n2] := v;
      GridUpdate(before, Values(), n1, n2, v);
      MaxChangeFrame(start, before, Values(), n1, n2);
      diff' := if diff >= RealAbs(V[n1, n2] - valTmp) then diff else RealAbs(V[n1, n2] - valTmp);
    }

    /**
     * One sweep of policy_eval: backs up every cell in place, in row-major
     * order, with its policy action, and returns the largest absolute change
     * of any cell (MaxChangeBound).
     */
    method EvalSweep() returns (diff: real)
      requires Valid()
      modifies V
      ensures Values() == SweepValues(old(Values()), Policy(), NCarStates, 0)
      ensures diff == MaxChange(old(Values()), Values(), NCarStates, 0)
    {
      ghost var start := Values();
      ghost var pol := Policy();
      diff := 0.0;
      var n1 := 0;
      while n1 < NCarStates
        invariant 0 <= n1 <= NCarStates
        invariant Values() == SweepValues(start, pol, n1, 0)
        invariant diff == MaxChange(start, Values(), n1, 0)
      {
        var n2 := 0;
        while n2 < NCarStates
          invariant 0 <= n2 <= NCarStates
          invariant Values() == SweepValues(start, pol, n1, n2)
          invariant diff == MaxChange(start, Values(), n1, n2)
        {
          diff := SweepCell(n1, n2, diff, start, pol);
          n2 := n2 + 1;
        }
        n1 := n1 + 1;
      }
    }
  }
}
