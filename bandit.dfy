/**
 * The simple bandit algorithm with epsilon-greedy action selection
 * (Sutton and Barto, "Reinforcement Learning: An Introduction", 2nd ed., section 2.4).
 *
 * The module-level arrays `Q_a` (estimates) and `N_a` (counts) become the
 * fields of a class; the random draws of one run (explore or not, the
 * uniformly drawn action, the reward) are supplied by the caller, one per step.
 */
module Bandit {

  /** Number of actions (arms) of the testbed. */
  const Arms: nat := 10

  /** Sum of a sequence, accumulated from the front as a running total would be. */
  function Sum(s: seq<real>): real
  {
    if |s| == 0 then 0.0 else Sum(s[..|s| - 1]) + s[|s| - 1]
  }

  function Mean(s: seq<real>): real
    requires |s| > 0
  {
    Sum(s) / (|s| as real)
  }

  /** What an estimate holds after the rewards `rs`: its initial value until a reward arrives, then their mean. */
  function Estimate(initial: real, rs: seq<real>): real
  {
    if |rs| == 0 then initial else Mean(rs)
  }

  /** The incremental update `Q += (1/N) * (R - Q)`, where `n` is the count after incrementing. */
  function IncrementalUpdate(q: real, n: nat, reward: real): real
    requires n > 0
  {
    q + (1.0 / (n as real)) * (reward - q)
  }

  /** Index of the first maximal entry, the rule `np.argmax` follows. */
  function Argmax(q: seq<real>): (k: nat)
    requires |q| > 0
    ensures k < |q|
    decreases |q|
  {
    if |q| == 1 then 0
    else
      var k := Argmax(q[..|q| - 1]);
      if q[|q| - 1] > q[k] then |q| - 1 else k
  }

  /** Argmax finds a largest entry, and no largest entry comes before it. */
  lemma {:induction false} ArgmaxSpec(q: seq<real>)
    requires |q| > 0
    ensures forall j :: 0 <= j < |q| ==> q[j] <= q[Argmax(q)]
    ensures forall j :: 0 <= j < Argmax(q) ==> q[j] < q[Argmax(q)]
    decreases |q|
  {
    if |q| > 1 {
      var p := q[..|q| - 1];
      ArgmaxSpec(p);
      assert forall j :: 0 <= j < |p| ==> p[j] == q[j];
    }
  }

  /** The estimate at the greedy action: the largest estimate. */
  function GreedyValue(q: seq<real>): real
    requires |q| > 0
  {
    q[Argmax(q)]
  }

  /** The action of one step: the drawn one when exploring, otherwise the greedy one. */
  function Choose(q: seq<real>, explore: bool, randomAction: nat): (a: nat)
    requires |q| > 0 && randomAction < |q|
    ensures a < |q|
  {
    if explore then randomAction else Argmax(q)
  }

  /**
   * When exploring the action is the drawn one; otherwise it has the largest
   * estimate, and no action before it has as large an estimate.
   */
  lemma ChooseSpec(q: seq<real>, explore: bool, randomAction: nat)
    requires |q| > 0 && randomAction < |q|
    ensures explore ==> Choose(q, explore, randomAction) == randomAction
    ensures !explore ==> var a := Choose(q, explore, randomAction);
      (forall j :: 0 <= j < |q| ==> q[j] <= q[a]) && (forall j :: 0 <= j < a ==> q[j] < q[a])
  {
    ArgmaxSpec(q);
  }

  /** Total of all counts. */
  function Total(n: seq<nat>): nat
  {
    if |n| == 0 then 0 else Total(n[..|n| - 1]) + n[|n| - 1]
  }

  /** The rewards received for action `k`, in order, when the actions `acts` earned the rewards `rs`. */
  function Observed(k: nat, acts: seq<nat>, rs: seq<real>): (o: seq<real>)
    requires |acts| == |rs|
    ensures |o| <= |acts|
  {
    if |acts| == 0 then []
    else Observed(k, acts[..|acts| - 1], rs[..|rs| - 1]) + (if acts[|acts| - 1] == k then [rs[|rs| - 1]] else [])
  }

  /** One more step adds its reward to the rewards observed for its action, and to no other. */
  lemma ObservedSnoc(k: nat, acts: seq<nat>, rs: seq<real>, a: nat, r: real)
    requires |acts| == |rs|
    ensures Observed(k, acts + [a], rs + [r]) == Observed(k, acts, rs) + (if a == k then [r] else [])
  {
    assert (acts + [a])[..|acts|] == acts;
    assert (rs + [r])[..|rs|] == rs;
  }
  /** The estimates `Q_a` and the counts `N_a` between two steps. */
  datatype Estimates = Estimates(q: seq<real>, n: seq<nat>)

  predicate Shaped(s: Estimates)
  {
    |s.q| == Arms && |s.n| == Arms
  }

  /** The estimates of a fresh testbed: all at `init`, with every count zero. */
  function Fresh(init: real): (s: Estimates)
    ensures Shaped(s)
  {
    Estimates(seq(Arms, _ => init), seq(Arms, _ => 0))
  }

  /** The draws of the first `i` steps are there, and every drawn action names an arm. */
  predicate Draws(explore: seq<bool>, randomAction: seq<nat>, rewards: seq<real>, i: nat)
  {
    i <= |explore| && i <= |randomAction| && i <= |rewards| && forall j :: 0 <= j < i ==> randomAction[j] < Arms
  }

  /** One pass of the loop body of run_bandit: choose, count, and move the chosen estimate. */
  function Step(s: Estimates, explore: bool, randomAction: nat, reward: real): (t: Estimates)
    requires Shaped(s) && randomAction < Arms
    ensures Shaped(t)
  {
    var a := Choose(s.q, explore, randomAction);
    var c := s.n[a] + 1;
    Estimates(s.q[a := IncrementalUpdate(s.q[a], c, reward)], s.n[a := c])
  }

  /**
   * A step counts its action once more and touches no other estimate or
   * count; the first reward of an action becomes its estimate outright.
   */
  lemma StepSpec(s: Estimates, explore: bool, randomAction: nat, reward: real)
    requires Shaped(s) && randomAction < Arms
    ensures var a := Choose(s.q, explore, randomAction);
      var t := Step(s, explore, randomAction, reward);
      && t.n[a] == s.n[a] + 1 && Total(t.n) == Total(s.n) + 1
      && (forall k :: 0 <= k < Arms && k != a ==> t.n[k] == s.n[k] && t.q[k] == s.q[k])
      && (s.n[a] == 0 ==> t.q[a] == reward)
  {
    TotalIncrement(s.n, Choose(s.q, explore, randomAction));
  }

  /** The estimates and counts after the first `i` steps from `s0`. */
  function After(s0: Estimates, explore: seq<bool>, randomAction: seq<nat>, rewards: seq<real>, i: nat): (s: Estimates)
    requires Shaped(s0) && Draws(explore, randomAction, rewards, i)
    ensures Shaped(s)
  {
    if i == 0 then s0
    else Step(After(s0, explore, randomAction, rewards, i - 1), explore[i - 1], randomAction[i - 1], rewards[i - 1])
  }

  /** After `i` steps the counts total their starting total plus `i`: each step counts one action. */
  lemma {:induction false} AfterTotal(s0: Estimates, explore: seq<bool>, randomAction: seq<nat>, rewards: seq<real>, i: nat)
    requires Shaped(s0) && Draws(explore, randomAction, rewards, i)
    ensures Total(After(s0, explore, randomAction, rewards, i).n) == Total(s0.n) + i
  {
    if i > 0 {
      assert Draws(explore, randomAction, rewards, i - 1);
      AfterTotal(s0, explore, randomAction, rewards, i - 1);
      StepSpec(After(s0, explore, randomAction, rewards, i - 1), explore[i - 1], randomAction[i - 1], rewards[i - 1]);
    }
  }

  /** Counts that are all zero total zero. */
  lemma {:induction false} TotalZeros(m: nat)
    ensures Total(seq(m, _ => 0)) == 0
  {
    if m > 0 {
      assert seq(m, _ => 0)[..m - 1] == seq(m - 1, _ => 0);
      TotalZeros(m - 1);
    }
  }

  /** The actions taken in the first `i` steps from `s0`: step j chooses from the estimates before it. */
  function Actions(s0: Estimates, explore: seq<bool>, randomAction: seq<nat>, rewards: seq<real>, i: nat): (acts: seq<nat>)
    requires Shaped(s0) && Draws(explore, randomAction, rewards, i)
    ensures |acts| == i && forall j :: 0 <= j < i ==> acts[j] < Arms
  {
    seq(i, j requires 0 <= j < i => Choose(After(s0, explore, randomAction, rewards, j).q, explore[j], randomAction[j]))
  }

  /** `Average_reward` after the first `i` steps from `s0`: the greedy estimate once each step is done. */
  function Logged(s0: Estimates, explore: seq<bool>, randomAction: seq<nat>, rewards: seq<real>, i: nat): (log: seq<real>)
    requires Shaped(s0) && Draws(explore, randomAction, rewards, i)
    ensures |log| == i
  {
    seq(i, j requires 0 <= j < i => GreedyValue(After(s0, explore, randomAction, rewards, j + 1).q))
  }

  /**
   * Every logged value is an estimate of some arm and no estimate after
   * its step exceeds it.
   */
  lemma LoggedSpec(s0: Estimates, explore: seq<bool>, randomAction: seq<nat>, rewards: seq<real>, i: nat, j: nat)
    requires Shaped(s0) && Draws(explore, randomAction, rewards, i) && j < i
    ensures var q := After(s0, explore, randomAction, rewards, j + 1).q;
      var v := Logged(s0, explore, randomAction, rewards, i)[j];
      (forall k :: 0 <= k < Arms ==> q[k] <= v) && (exists k :: 0 <= k < Arms && q[k] == v)
  {
    var q := After(s0, explore, randomAction, rewards, j + 1).q;
    assert Logged(s0, explore, randomAction, rewards, i)[j] == q[Argmax(q)];
    ArgmaxSpec(q);
  }

  /** Step i extends the run: the state after it is the step applied to the state before it. */
  lemma NextStep(s0: Estimates, explore: seq<bool>, randomAction: seq<nat>, rewards: seq<real>, i: nat)
    requires Shaped(s0) && Draws(explore, randomAction, rewards, i + 1) && i < |explore| && i < |randomAction| && i < |rewards|
    ensures var s := After(s0, explore, randomAction, rewards, i);
      && After(s0, explore, randomAction, rewards, i + 1) == Step(s, explore[i], randomAction[i], rewards[i])
      && Actions(s0, explore, randomAction, rewards, i + 1) == Actions(s0, explore, randomAction, rewards, i) + [Choose(s.q, explore[i], randomAction[i])]
      && Logged(s0, explore, randomAction, rewards, i + 1) ==
         Logged(s0, explore, randomAction, rewards, i) + [GreedyValue(After(s0, explore, randomAction, rewards, i + 1).q)]
  {
    ActionsSnoc(s0, explore, randomAction, rewards, i);
    LoggedSnoc(s0, explore, randomAction, rewards, i);
  }

  lemma ActionsSnoc(s0: Estimates, explore: seq<bool>, randomAction: seq<nat>, rewards: seq<real>, i: nat)
    requires Shaped(s0) && Draws(explore, randomAction, rewards, i + 1)
    ensures var q := After(s0, explore, randomAction, rewards, i).q;
      Actions(s0, explore, randomAction, rewards, i + 1) == Actions(s0, explore, randomAction, rewards, i) + [Choose(q, explore[i], randomAction[i])]
  {
    var acts, acts' := Actions(s0, explore, randomAction, rewards, i), Actions(s0, explore, randomAction, rewards, i + 1);
    forall j | 0 <= j < i
      ensures acts'[j] == acts[j]
    {
    }
  }

  lemma LoggedSnoc(s0: Estimates, explore: seq<bool>, randomAction: seq<nat>, rewards: seq<real>, i: nat)
    requires Shaped(s0) && Draws(explore, randomAction, rewards, i + 1)
    ensures Logged(s0, explore, randomAction, rewards, i + 1) ==
      Logged(s0, explore, randomAction, rewards, i) + [GreedyValue(After(s0, explore, randomAction, rewards, i + 1).q)]
  {
    var log, log' := Logged(s0, explore, randomAction, rewards, i), Logged(s0, explore, randomAction, rewards, i + 1);
    forall j | 0 <= j < i
      ensures log'[j] == log[j]
    {
    }
  }

  /**
   * The estimates stay the means of what each arm received: if every count
   * is the length of its arm's history and every estimate that history's
   * estimate, then after i more steps the same holds of the histories
   * grown by the rewards the steps' actions earned.
   */
  lemma {:induction false} AfterMeans(s0: Estimates, initial: seq<real>, hist: seq<seq<real>>,
                                      explore: seq<bool>, randomAction: seq<nat>, rewards: seq<real>, i: nat)
    requires Shaped(s0) && Draws(explore, randomAction, rewards, i) && |initial| == Arms && |hist| == Arms
    requires forall k :: 0 <= k < Arms ==> s0.n[k] == |hist[k]| && s0.q[k] == Estimate(initial[k], hist[k])
    ensures forall k :: 0 <= k < Arms ==>
      var h := hist[k] + Observed(k, Actions(s0, explore, randomAction, rewards, i), rewards[..i]);
      After(s0, explore, randomAction, rewards, i).n[k] == |h| &&
      After(s0, explore, randomAction, rewards, i).q[k] == Estimate(initial[k], h)
  {
    if i > 0 {
      AfterMeans(s0, initial, hist, explore, randomAction, rewards, i - 1);
      assert rewards[..i] == rewards[..i - 1] + [rewards[i - 1]];
      assert Draws(explore, randomAction, rewards, i);
      NextStep(s0, explore, randomAction, rewards, i - 1);
      MeansStep(After(s0, explore, randomAction, rewards, i - 1), initial, hist,
                Actions(s0, explore, randomAction, rewards, i - 1), rewards[..i - 1],
                explore[i - 1], randomAction[i - 1], rewards[i - 1]);
    } else {
      forall k | 0 <= k < Arms
        ensures hist[k] + Observed(k, Actions(s0, explore, randomAction, rewards, i), rewards[..i]) == hist[k]
      {
        assert hist[k] + [] == hist[k];
      }
    }
  }

  /** One step keeps every arm's count and estimate in step with its history. */
  lemma MeansStep(s: Estimates, initial: seq<real>, hist: seq<seq<real>>, acts: seq<nat>, rs: seq<real>,
                  explore: bool, randomAction: nat, r: real)
    requires Shaped(s) && randomAction < Arms && |initial| == Arms && |hist| == Arms && |acts| == |rs|
    requires forall k :: 0 <= k < Arms ==>
      s.n[k] == |hist[k] + Observed(k, acts, rs)| && s.q[k] == Estimate(initial[k], hist[k] + Observed(k, acts, rs))
    ensures var a := Choose(s.q, explore, randomAction);
      var t := Step(s, explore, randomAction, r);
      forall k :: 0 <= k < Arms ==>
        t.n[k] == |hist[k] + Observed(k, acts + [a], rs + [r])| &&
        t.q[k] == Estimate(initial[k], hist[k] + Observed(k, acts + [a], rs + [r]))
  {
    var a := Choose(s.q, explore, randomAction);
    forall k | 0 <= k < Arms
      ensures var t := Step(s, explore, randomAction, r);
        t.n[k] == |hist[k] + Observed(k, acts + [a], rs + [r])| &&
        t.q[k] == Estimate(initial[k], hist[k] + Observed(k, acts + [a], rs + [r]))
    {
      var h0 := hist[k] + Observed(k, acts, rs);
      ObservedSnoc(k, acts, rs, a, r);
      assert hist[k] + Observed(k, acts + [a], rs + [r]) == h0 + (if a == k then [r] else []);
      HistoryStep(s, explore, randomAction, r, initial[k], h0, k);
    }
  }

  /** One step keeps the count and estimate of arm k in step with its history h0. */
  lemma HistoryStep(s: Estimates, explore: bool, randomAction: nat, r: real, initial: real, h0: seq<real>, k: nat)
    requires Shaped(s) && randomAction < Arms && k < Arms
    requires s.n[k] == |h0| && s.q[k] == Estimate(initial, h0)
    ensures var a := Choose(s.q, explore, randomAction);
      var t := Step(s, explore, randomAction, r);
      var h := h0 + (if a == k then [r] else []);
      t.n[k] == |h| && t.q[k] == Estimate(initial, h)
  {
    var a := Choose(s.q, explore, randomAction);
    if a == k {
      IncrementalMean(s.q[a], h0, r);
    } else {
      assert h0 + [] == h0;
    }
  }

  /** Step `i` adds its reward to the history of its own action and leaves the other histories alone. */
  lemma ReceivedStep(start: seq<seq<real>>, before: seq<seq<real>>, acts: seq<nat>, rs: seq<real>, i: nat, a: nat)
    requires |start| == Arms && |before| == Arms && |acts| == i < |rs| && a < Arms
    requires forall k :: 0 <= k < Arms ==> before[k] == start[k] + Observed(k, acts, rs[..i])
    ensures forall k :: 0 <= k < Arms ==>
      before[a := before[a] + [rs[i]]][k] == start[k] + Observed(k, acts + [a], rs[..i + 1])
  {
    assert rs[..i + 1] == rs[..i] + [rs[i]];
    forall k | 0 <= k < Arms
      ensures before[a := before[a] + [rs[i]]][k] == start[k] + Observed(k, acts + [a], rs[..i + 1])
    {
      ObservedSnoc(k, acts, rs[..i], a, rs[i]);
    }
  }

  /** Incrementing one count raises the total by exactly one. */
  lemma {:induction false} TotalIncrement(n: seq<nat>, k: nat)
    requires k < |n|
    ensures Total(n[k := n[k] + 1]) == Total(n) + 1
    decreases |n|
  {
    var m := n[k := n[k] + 1];
    assert m[..|m| - 1] == if k < |n| - 1 then n[..|n| - 1][k := n[k] + 1] else n[..|n| - 1];
    if k < |n| - 1 {
      TotalIncrement(n[..|n| - 1], k);
    }
  }

  /** The incremental update of a mean: after a new reward, the estimate is the mean of all rewards so far. */
  lemma IncrementalMean(q: real, s: seq<real>, r: real)
    requires |s| > 0 ==> q == Mean(s)
    ensures IncrementalUpdate(q, |s| + 1, r) == Mean(s + [r])
  {
    var t := s + [r];
    assert t[..|t| - 1] == s;
    assert Sum(t) == Sum(s) + r;
    var n := |s| as real;
    if |s| > 0 {
      calc {
        IncrementalUpdate(q, |s| + 1, r);
        q + (r - q) / (n + 1.0);
        (q * (n + 1.0) + r - q) / (n + 1.0);
        (q * n + r) / (n + 1.0);
        { assert q * n == Sum(s); }
        (Sum(s) + r) / (n + 1.0);
      }
    }
  }

  /** The estimates and counts of one bandit run, updated in place step after step. */
  class Testbed {
    var qa: array<real>
    var na: array<nat>
    /** The initial estimates (all 0 for plain epsilon-greedy, all 5 for optimistic initial values). */
    ghost var initial: seq<real>
    /** Rewards received so far, per action. */
    ghost var received: seq<seq<real>>

    /** Counts match the rewards received, and each estimate is the running mean of its rewards. */
    ghost predicate Valid()
      reads this, qa, na
    {
      && qa.Length == Arms && na.Length == Arms
      && |initial| == Arms && |received| == Arms
      && forall k :: 0 <= k < Arms ==> na[k] == |received[k]| && qa[k] == Estimate(initial[k], received[k])
    }

    /** All estimates start at `init` and all counts at zero. */
    constructor (init: real)
      ensures Valid() && fresh(qa) && fresh(na)
      ensures qa[..] == seq(Arms, _ => init) && na[..] == seq(Arms, _ => 0)
      ensures initial == seq(Arms, _ => init) && received == seq(Arms, _ => [])
    {
      qa := new real[Arms](_ => init);
      na := new nat[Arms](_ => 0);
      initial := seq(Arms, _ => init);
      received := seq(Arms, _ => []);
    }

    /**
     * One step of the loop: choose the action, count it, move its estimate by the
     * incremental-mean update, and report the largest estimate afterwards.
     */
    method Pull(explore: bool, randomAction: nat, reward: real) returns (action: nat, greedy: real)
      requires Valid() && randomAction < Arms
      modifies qa, na, this`received
      ensures Valid()
      ensures action == Choose(old(qa[..]), explore, randomAction)
      ensures na[..] == old(na[..])[action := old(na[action]) + 1]
      ensures qa[..] == old(qa[..])[action := IncrementalUpdate(old(qa[action]), na[action], reward)]
      ensures received == old(received)[action := old(received[action]) + [reward]]
      ensures Total(na[..]) == old(Total(na[..])) + 1
      ensures greedy == GreedyValue(qa[..])
      ensures Estimates(qa[..], na[..]) == Step(Estimates(old(qa[..]), old(na[..])), explore, randomAction, reward)
    {
      action := Choose(qa[..], explore, randomAction);
      TotalIncrement(na[..], action);
      IncrementalMean(qa[action], received[action], reward);
      ghost var mean := Mean(received[action] + [reward]);
      na[action] := na[action] + 1;
      qa[action] := IncrementalUpdate(qa[action], na[action], reward);
      assert qa[action] == mean;
      received := received[action := received[action] + [reward]];
      assert Estimate(initial[action], received[action]) == mean;
      var best := Argmax(qa[..]);
      greedy := qa[best];
    }


    /**
     * Where a run stands after i of its steps from the estimates and counts
     * s0: the arrays hold what the steps leave, the actions and the logged
     * values are those of the steps, and every arm's history has grown by
     * the rewards it received.
     */
    ghost predicate Progress(explore: seq<bool>, randomAction: seq<nat>, rewards: seq<real>, start: seq<seq<real>>, s0: Estimates,
                             actions: seq<nat>, averageReward: seq<real>, i: nat)
      reads this, qa, na
    {
      && Shaped(s0) && Draws(explore, randomAction, rewards, i) && |start| == Arms && |received| == Arms
      && qa[..] == After(s0, explore, randomAction, rewards, i).q
      && na[..] == After(s0, explore, randomAction, rewards, i).n
      && actions == Actions(s0, explore, randomAction, rewards, i)
      && averageReward == Logged(s0, explore, randomAction, rewards, i)
      && (forall k :: 0 <= k < Arms ==> received[k] == start[k] + Observed(k, actions, rewards[..i]))
    }

    /** Step i of the loop of run_bandit, with the ghost history that goes with it. */
    method Advance(explore: seq<bool>, randomAction: seq<nat>, rewards: seq<real>, ghost start: seq<seq<real>>, ghost s0: Estimates,
                   averageReward: seq<real>, ghost actions: seq<nat>, i: nat)
      returns (averageReward': seq<real>, ghost actions': seq<nat>)
      requires Valid() && Progress(explore, randomAction, rewards, start, s0, actions, averageReward, i)
      requires i < |explore| && i < |randomAction| && i < |rewards| && randomAction[i] < Arms
      modifies qa, na, this`received
      ensures Valid() && Progress(explore, randomAction, rewards, start, s0, actions', averageReward', i + 1)
      ensures actions' == actions + [Choose(old(qa[..]), explore[i], randomAction[i])]
      ensures averageReward' == averageReward + [GreedyValue(qa[..])]
    {
      ghost var received0 := received;
      ghost var s := After(s0, explore, randomAction, rewards, i);
      var action, greedy := Pull(explore[i], randomAction[i], rewards[i]);
      averageReward' := averageReward + [greedy];
      ReceivedStep(start, received0, actions, rewards, i, action);
      actions' := actions + [action];
      assert Draws(explore, randomAction, rewards, i + 1);
      NextStep(s0, explore, randomAction, rewards, i);
    }

    /**
     * `step` steps of the bandit. At step i the caller supplies whether to explore,
     * the uniformly drawn action used when exploring, and the reward received.
     * Returns the list of step indices and the greedy estimate after each step,
     * both as the steps from the current estimates and counts determine them;
     * the ghost result is the actions taken.
     */
    method RunBandit(step: nat, explore: seq<bool>, randomAction: seq<nat>, rewards: seq<real>)
      returns (steps: seq<nat>, averageReward: seq<real>, ghost actions: seq<nat>)
      requires Valid()
      requires |explore| == step && |randomAction| == step && |rewards| == step
      requires Draws(explore, randomAction, rewards, step)
      modifies qa, na, this`received
      ensures Valid()
      ensures steps == seq(step, i => i)
      ensures averageReward == Logged(Estimates(old(qa[..]), old(na[..])), explore, randomAction, rewards, step)
      ensures qa[..] == After(Estimates(old(qa[..]), old(na[..])), explore, randomAction, rewards, step).q
      ensures na[..] == After(Estimates(old(qa[..]), old(na[..])), explore, randomAction, rewards, step).n
      ensures actions == Actions(Estimates(old(qa[..]), old(na[..])), explore, randomAction, rewards, step)
      ensures forall k :: 0 <= k < Arms ==> received[k] == old(received[k]) + Observed(k, actions, rewards)
      ensures Total(na[..]) == old(Total(na[..])) + step
    {
      ghost var start, s0 := received, Estimates(qa[..], na[..]);
      steps := seq(step, i => i);
      averageReward := [];
      actions := [];
      var i := 0;
      forall k | 0 <= k < Arms
        ensures received[k] == start[k] + Observed(k, actions, rewards[..i])
      {
        assert start[k] + [] == start[k];
      }
      while i < step
        invariant 0 <= i <= step
        invariant Valid() && Progress(explore, randomAction, rewards, start, s0, actions, averageReward, i)
      {
        averageReward, actions := Advance(explore, randomAction, rewards, start, s0, averageReward, actions, i);
        i := i + 1;
      }
      assert rewards[..step] == rewards;
      AfterTotal(s0, explore, randomAction, rewards, step);
    }
  }

  /**
   * A run from fresh estimates, as the script does for each experiment: all
   * estimates at `init`, all counts zero, then `step` steps. The log is the
   * greedy estimate after each step, and afterwards every count is the
   * number of times its action was taken and every estimate the mean of the
   * rewards its action received, or still `init` if none.
   */
  method Experiment(init: real, step: nat, explore: seq<bool>, randomAction: seq<nat>, rewards: seq<real>)
    returns (t: Testbed, steps: seq<nat>, averageReward: seq<real>)
    requires |explore| == step && |randomAction| == step && |rewards| == step
    requires Draws(explore, randomAction, rewards, step)
    ensures t.Valid() && steps == seq(step, i => i)
    ensures averageReward == Logged(Fresh(init), explore, randomAction, rewards, step)
    ensures t.qa[..] == After(Fresh(init), explore, randomAction, rewards, step).q
    ensures t.na[..] == After(Fresh(init), explore, randomAction, rewards, step).n
    ensures forall k :: 0 <= k < Arms ==>
      var h := Observed(k, Actions(Fresh(init), explore, randomAction, rewards, step), rewards);
      t.na[k] == |h| && t.qa[k] == Estimate(init, h)
    ensures Total(t.na[..]) == step
  {
    t := new Testbed(init);
    ghost var actions;
    steps, averageReward, actions := t.RunBandit(step, explore, randomAction, rewards);
    forall k | 0 <= k < Arms
      ensures t.received[k] == Observed(k, actions, rewards) && t.initial[k] == init
    {
      assert [] + Observed(k, actions, rewards) == Observed(k, actions, rewards);
    }
    TotalZeros(Arms);
    AfterTotal(Fresh(init), explore, randomAction, rewards, step);
  }
}
