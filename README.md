# Three machine-learning kernels of ml-data, modelled in Dafny

The project models three small algorithm kernels of the repository over exact
real arithmetic, with every random draw supplied by the caller:

- **k-means with k-means++ seeding** (`kmeans.dfy`, module `KMeans`).
  - `kmeanspp` chooses the first centroid from the data. Each further centroid
    is drawn from a shrinking copy of the data, weighted by its minimum squared
    distance to the stacked columns.
  - `Kmeans` runs the Lloyd loop. The loop labels every point with its
    nearest centroid, writes the cluster means into a second buffer, and stops
    on exact equality.
  - Three quirks of the code are reproduced exactly:
    - the columns start from `c[1]`, not `c[0]`;
    - at the first pass `c[1]` is still the uninitialised `np.empty` row, which
      is an input (`junk`);
    - line 73 rebinds `c` to the `c_temp` array. The Lloyd method models this
      with two `array` references that become equal.
- **Jack's car rental policy iteration** (`car_rental.dfy`, module `CarRental`).
  This is Example 4.2 of Sutton and Barto, "Reinforcement Learning: An
  Introduction", 2nd ed.
  - The global tables are the fields of class `Rental`. `V` and `policy` are
    `array2`s updated in place. The transition tables are the values the two
    loads leave in them.
  - `load_probs_rewards`, `backup_action`, `greedy_policy`, `update_policy_t`
    and one sweep of `policy_eval` are methods whose loops mirror the code.
    Each is proved against a function of the tables.
- **The simple epsilon-greedy bandit** (`bandit.dfy`, module `Bandit`). This is
  section 2.4 of the same book.
  - The module-level arrays `Q_a` and `N_a` are the array fields of class
    `Testbed`.
  - A ghost history of the rewards each action received carries the invariant:
    each estimate is the mean of its action's rewards.

What the k-means code sets out to do, and where it falls short of it:

- The module docstring (simple_kmeans.py:6) and the docstring of `kmeanspp`
  (line 24) say the centroids are initialised with k-means++. Its draws use
  the "minimum distance based distribution" of line 34, the distance from a
  point to its nearest chosen centroid. A chosen point then has weight zero,
  so k-means++ draws K different rows. The code never puts `c[0]` among the
  columns, so it can return the same point twice (first finding below).
- `while not converged` (line 63), with the test of line 71, is a loop that
  runs until the centroids stop moving. It has no cap on the number of
  passes. Because of the aliasing of line 73, the code stops after at most
  two passes when no cluster empties (second finding below). When the first
  pass empties a cluster, or the first pass moves the centroids and the
  second empties one, its NaN mean keeps the test false for ever and the
  loop never stops (third finding below). The NaN behaviour is modelled in
  `kmeans_float.dfy`, module `KMeansFloat`.

## Model

| member | source | states |
|---|---|---|
| KMeans.SqDistZero | clustering/kmeans/student_academic_performance/simple_kmeans.py:37-39 | the squared distance of lines 37 and 39 is zero exactly when the two rows are equal |
| KMeans.Delete | clustering/kmeans/student_academic_performance/simple_kmeans.py:32 | `np.delete` removes exactly entry k: one entry shorter, entries before k kept, entries after k shifted down by one |
| KMeans.MinDistSpec | clustering/kmeans/student_academic_performance/simple_kmeans.py:41 | `np.min` over the stacked columns is at most every column's distance and equal to one of them |
| KMeans.Weights | clustering/kmeans/student_academic_performance/simple_kmeans.py:37-41 | one weight per pool row, none of them negative |
| KMeans.SeedColumns | clustering/kmeans/student_academic_performance/simple_kmeans.py:37-40 | as written, pass i stacks exactly i columns: first c[1], which at i = 1 is the uninitialised row `junk`, then c[1], ..., c[i - 1]; c[0] is never among them |
| KMeans.SeedIgnoresFirst | clustering/kmeans/student_academic_performance/simple_kmeans.py:37-41 | as written, the weights do not depend on the first centroid c[0] at all |
| KMeans.NormaliseSpec | clustering/kmeans/student_academic_performance/simple_kmeans.py:43 | entry k of the distribution is weight k divided by the total |
| KMeans.NormaliseSum | clustering/kmeans/student_academic_performance/simple_kmeans.py:43 | when the weight total is positive, the distribution is non-negative and adds up to 1 |
| KMeans.Choice | clustering/kmeans/student_academic_performance/simple_kmeans.py:44 | the inverse-CDF draw returns an index of the distribution |
| KMeans.ChoicePositive | clustering/kmeans/student_academic_performance/simple_kmeans.py:44 | a draw below the total never lands on an entry of probability zero |
| KMeans.SeedStart | clustering/kmeans/student_academic_performance/simple_kmeans.py:26-32 | after the first draw there is one centroid and the copy has N - 1 rows |
| KMeans.SeedDraw | clustering/kmeans/student_academic_performance/simple_kmeans.py:41-44 | a successful draw picks a position of the current pool |
| KMeans.SeedStep | clustering/kmeans/student_academic_performance/simple_kmeans.py:35-46 | a pass adds one centroid and removes one pool row |
| KMeans.Seeds | clustering/kmeans/student_academic_performance/simple_kmeans.py:26-46 | a successful seeding has K centroids of d features and leaves N - K rows in the copy |
| KMeans.SeedStartWellFormed | clustering/kmeans/student_academic_performance/simple_kmeans.py:30-32 | the first centroid and the copy account for every position of X exactly once |
| KMeans.MoveWellFormed | clustering/kmeans/student_academic_performance/simple_kmeans.py:45-46 | moving pool row k to the centroids keeps every row tied to its position in X, with no position used twice |
| KMeans.SeedsWellFormed | clustering/kmeans/student_academic_performance/simple_kmeans.py:26-46 | every centroid is a row of X, drawn without replacement: no position of X is chosen twice |
| KMeans.SeedStepPositive | clustering/kmeans/student_academic_performance/simple_kmeans.py:41-46 | the new centroid has positive distance to, and so differs from, every column of its pass |
| KMeans.StackColumns | clustering/kmeans/student_academic_performance/simple_kmeans.py:37-40 | the stacking loop yields c[1] followed by c[1], ..., c[i - 1] |
| KMeans.DrawCentroid | clustering/kmeans/student_academic_performance/simple_kmeans.py:36-46 | one pass over the array c does what SeedStep says; it fails exactly when SeedStep fails, and no other row of c changes |
| KMeans.Kmeanspp | clustering/kmeans/student_academic_performance/simple_kmeans.py:23-49 | returns a K-row array that is exactly Seeds' centroids, and fails exactly when Seeds does |
| KMeans.ArgminSpec | clustering/kmeans/student_academic_performance/simple_kmeans.py:67 | `np.argmin` gives a minimal entry with no minimal entry before it |
| KMeans.NearestSpec | clustering/kmeans/student_academic_performance/simple_kmeans.py:66-67 | a label lies in [0, K) and is the lowest index of a nearest centroid |
| KMeans.Labels | clustering/kmeans/student_academic_performance/simple_kmeans.py:66-67 | one label per point, each the nearest centroid and below K |
| KMeans.MembersSpec | clustering/kmeans/student_academic_performance/simple_kmeans.py:70 | every point labelled k is in the selection `X[(a == k).ravel()]`, and every selected point is a point labelled k |
| KMeans.CentroidSpec | clustering/kmeans/student_academic_performance/simple_kmeans.py:70 | cluster k has as many points as there are labels equal to k, and for every feature the centroid times that count is the feature's sum over the points labelled k: the centroid is the cluster mean |
| KMeans.MembersCount | clustering/kmeans/student_academic_performance/simple_kmeans.py:70 | from position j on, the selection keeps exactly the points labelled k: its size is their count and its sum of every feature is their sum of that feature |
| KMeans.Means | clustering/kmeans/student_academic_performance/simple_kmeans.py:69-70 | K centroids of d features, centroid k that of cluster k |
| KMeans.MeansSpec | clustering/kmeans/student_academic_performance/simple_kmeans.py:69-70 | centroid k of the means step, times the number of points labelled k, gives their sum of each feature |
| KMeans.LloydResultMeans | clustering/kmeans/student_academic_performance/simple_kmeans.py:63-75 | whatever the seeds, the returned labels lie in [0, K), no cluster is empty, and the returned centroids are the means of the returned clusters |
| KMeans.AssignLabels | clustering/kmeans/student_academic_performance/simple_kmeans.py:66-67 | the labelling loop fills a with the labels against c |
| KMeans.UpdateMeans | clustering/kmeans/student_academic_performance/simple_kmeans.py:69-70 | the update loop fills c_temp with the cluster means |
| KMeans.Lloyd | clustering/kmeans/student_academic_performance/simple_kmeans.py:59-75 | the loop over the two aliased arrays ends and returns LloydResult; if the first pass reproduces the seeds, it returns the seeds' labels and the seeds |
| KMeans.Kmeans | clustering/kmeans/student_academic_performance/simple_kmeans.py:51-75 | seeding and then the loop: succeeds exactly when seeding does, and then returns LloydResult of the seeds |
| KMeans.SeedDuplicateExample | clustering/kmeans/student_academic_performance/simple_kmeans.py:37-46 | as written, X = [[0], [0], [1]] with first draw X[0], uninitialised row [5] and draw 0 yields the centroids [[0], [0]] |
| KMeans.IntendedSeedExample | clustering/kmeans/student_academic_performance/simple_kmeans.py:37-46 | with the intended columns, the same draws yield [[0], [1]] |
| KMeans.IntendedStepDistinct | clustering/kmeans/student_academic_performance/simple_kmeans.py:38-46 | an intended pass adds a centroid different from every earlier one |
| KMeans.IntendedSeedsDistinct | clustering/kmeans/student_academic_performance/simple_kmeans.py:35-46 | with the distances to all chosen centroids, the K seeds are pairwise different |
| KMeans.Nearest2 | clustering/kmeans/student_academic_performance/simple_kmeans.py:67 | with two centroids the label is 1 exactly when the second is strictly nearer |
| KMeans.LloydEarlyStopExample | clustering/kmeans/student_academic_performance/simple_kmeans.py:63-75 | as written, X = [[0], [1], [3], [10]] with seeds [[0], [1]] returns labels [0, 0, 1, 1] and centroids [[0.5], [6.5]], under which point 3 is labelled 0 |
| KMeans.ExamplePass1 | clustering/kmeans/student_academic_performance/simple_kmeans.py:66-70 | the first pass of that example: labels [0, 1, 1, 1], means [[0], [14/3]] |
| KMeans.ExamplePass2 | clustering/kmeans/student_academic_performance/simple_kmeans.py:66-70 | the second pass: labels [0, 0, 1, 1], means [[0.5], [6.5]] |
| KMeans.KeepMeansSpec | clustering/kmeans/student_academic_performance/simple_kmeans.py:69-70 | the intended means step moves a centroid to its cluster's mean when the cluster has points, leaves it where it was when the cluster has none, and is the plain means step when no cluster is empty |
| KMeans.IntendedLloyd | clustering/kmeans/student_academic_performance/simple_kmeans.py:63-73 | the intended loop, run until the means step reproduces the centroids within a bound on passes, returns one label per point and K centroids of d features |
| KMeans.IntendedLloydFixedPoint | clustering/kmeans/student_academic_performance/simple_kmeans.py:63-73 | what the intended loop returns is a fixed point: every label is the nearest centroid, every centroid of a non-empty cluster is its mean, the means step leaves the centroids unchanged, and with no empty cluster they are exactly the means |
| KMeans.IntendedLloydEmptyClusterExample | clustering/kmeans/student_academic_performance/simple_kmeans.py:63-73 | from X = [[0], [0], [1]] and the seeds [[0], [0]], the intended loop keeps the empty cluster's centroid and settles on the labels [1, 1, 0] and the centroids [[1], [0]] |
| KMeansFloat.FloatSqDist | clustering/kmeans/student_academic_performance/simple_kmeans.py:67 | the squared distance to a centroid row is NaN exactly when that row holds a NaN |
| KMeansFloat.FirstNaNSpec | clustering/kmeans/student_academic_performance/simple_kmeans.py:67 | the scan stops at a NaN, or at the end, and passes only numbers before it |
| KMeansFloat.FloatLabelsLift | clustering/kmeans/student_academic_performance/simple_kmeans.py:66-67 | against centroids with no NaN, the labels are those of the exact model |
| KMeansFloat.FloatPassLift | clustering/kmeans/student_academic_performance/simple_kmeans.py:66-70 | from centroids with no NaN and with no empty cluster, a pass computes the exact means step |
| KMeansFloat.ArrayEqualLift | clustering/kmeans/student_academic_performance/simple_kmeans.py:71 | on rows with no NaN, `np.array_equal` holds exactly when the numbers are equal |
| KMeansFloat.NaNLabels | clustering/kmeans/student_academic_performance/simple_kmeans.py:66-67 | once a centroid row holds a NaN, `np.argmin` labels every point with the first such row |
| KMeansFloat.EmptyClusterNaN | clustering/kmeans/student_academic_performance/simple_kmeans.py:69-70 | a pass that meets an empty cluster writes a NaN row |
| KMeansFloat.NaNPersists | clustering/kmeans/student_academic_performance/simple_kmeans.py:66-70 | with K >= 2 and at least one feature, a NaN row in c leaves a NaN row in c_temp after the next pass |
| KMeansFloat.NaNNotEqual | clustering/kmeans/student_academic_performance/simple_kmeans.py:71 | `np.array_equal` is false when its first argument holds a NaN |
| KMeansFloat.StateHasNaN | clustering/kmeans/student_academic_performance/simple_kmeans.py:63-73 | if the first pass meets an empty cluster, the centroids hold a NaN after every pass |
| KMeansFloat.NeverConverges | clustering/kmeans/student_academic_performance/simple_kmeans.py:63-73 | as written, with K >= 2, if the first pass from the seeds leaves a cluster empty then no pass sets converged: the loop never stops |
| KMeansFloat.NaNFrom | clustering/kmeans/student_academic_performance/simple_kmeans.py:63-73 | with K >= 2, once a pass leaves a NaN row in the centroids, every later pass does too |
| KMeansFloat.SecondPassNeverConverges | clustering/kmeans/student_academic_performance/simple_kmeans.py:63-73 | as written, with K >= 2, if the first pass empties no cluster and moves the centroids but the second pass empties one, then no pass from the second on sets converged |
| KMeansFloat.NaNLoopExample | clustering/kmeans/student_academic_performance/simple_kmeans.py:63-73 | as written, X = [[0], [0], [1]] with the seeds [[0], [0]] never stops |
| CarRental.Factorial | reinforcement_learning/car_rental/policy_iteration_c++.cpp:42-46 | n! is at least 1, and at least n for n > 0 |
| CarRental.FactorialMonotone | reinforcement_learning/car_rental/policy_iteration_c++.cpp:42-46 | the factorial never decreases |
| CarRental.ActionRangeHoldsZero | reinforcement_learning/car_rental/policy_iteration_c++.cpp:176-177 | moving no cars is always available, so a_min <= 0 <= a_max |
| CarRental.Clamp | reinforcement_learning/car_rental/policy_iteration_c++.cpp:129-132 | the clamped action lies in [max(-5, -n2), min(5, n1)] and is the identity on that range |
| CarRental.MorningInRange | reinforcement_learning/car_rental/policy_iteration_c++.cpp:134-135 | both morning states n1 - a and n2 + a lie in [0, 25], inside the 26-row tables |
| CarRental.Satisfied | reinforcement_learning/car_rental/policy_iteration_c++.cpp:75-89 | served requests are at most the cars available and at most the requests |
| CarRental.Dest | reinforcement_learning/car_rental/policy_iteration_c++.cpp:90-92 | the end-of-day state lies in [0, 20]; it is the uncapped count when that is at most 20, else 20 |
| CarRental.RowMass | reinforcement_learning/car_rental/policy_iteration_c++.cpp:78-94 | every row of the probability table gains the same total mass, the joint mass of all request and drop-off pairs |
| CarRental.CellRowMass | reinforcement_learning/car_rental/policy_iteration_c++.cpp:88-94 | one request count puts its whole joint mass on every row, one cell per drop-off count |
| CarRental.RewardMonotone | reinforcement_learning/car_rental/policy_iteration_c++.cpp:67-77 | with non-negative weights the expected reward never decreases in the morning state |
| CarRental.AddRewards | reinforcement_learning/car_rental/policy_iteration_c++.cpp:68-77 | every morning state gains 10 p min(req, n) |
| CarRental.AddPair | reinforcement_learning/car_rental/policy_iteration_c++.cpp:88-94 | each row gains the pair's joint mass in exactly the cell Dest picks and nowhere else |
| CarRental.AddRequest | reinforcement_learning/car_rental/policy_iteration_c++.cpp:78-95 | the drop-off loop adds CellGain to every cell |
| CarRental.LoadProbsRewards | reinforcement_learning/car_rental/policy_iteration_c++.cpp:55-97 | the tables gain exactly RewardGain and ProbGain over all given weights |
| CarRental.LoadLocation | reinforcement_learning/car_rental/policy_iteration_c++.cpp:55-97 | zero-initialised tables loaded once hold exactly RewardGain and ProbGain |
| CarRental.BestSpec | reinforcement_learning/car_rental/policy_iteration_c++.cpp:182-191 | the scan settles on a value within 1e-9 of every value, with every earlier value strictly smaller |
| CarRental.MaxChangeBound | reinforcement_learning/car_rental/policy_iteration_c++.cpp:108-116 | diff is non-negative, bounds every cell's change, and when positive is one cell's change |
| CarRental.Rental.constructor | reinforcement_learning/car_rental/policy_iteration_c++.cpp:215-216 | after the two loads the tables hold RewardGain and ProbGain, and V and the policy are all zero, as the zero-initialised globals are |
| CarRental.Rental.BackupInRange | reinforcement_learning/car_rental/policy_iteration_c++.cpp:129-135 | an action already in range is backed up unclamped |
| CarRental.Rental.BackupAction | reinforcement_learning/car_rental/policy_iteration_c++.cpp:121-143 | the nested loop returns the look-ahead value of the clamped action against V |
| CarRental.Rental.ActionValuesAt | reinforcement_learning/car_rental/policy_iteration_c++.cpp:185-186 | entry i of the row of action values is the value of action a_min + i |
| CarRental.Rental.GreedyActionSpec | reinforcement_learning/car_rental/policy_iteration_c++.cpp:176-192 | the greedy action lies in [a_min, a_max], no available action beats it by more than 1e-9, and every smaller action is strictly worse |
| CarRental.Rental.GreedyStep | reinforcement_learning/car_rental/policy_iteration_c++.cpp:186-190 | action a replaces the incumbent exactly when it is better by more than 1e-9 |
| CarRental.Rental.GreedyPolicy | reinforcement_learning/car_rental/policy_iteration_c++.cpp:168-193 | the loop returns GreedyAction against the current V |
| CarRental.Rental.UpdatePolicy | reinforcement_learning/car_rental/policy_iteration_c++.cpp:146-165 | every cell becomes the greedy action, V is unchanged, and the result is true exactly when some cell differs from its old value |
| CarRental.Rental.UpdateRow | reinforcement_learning/car_rental/policy_iteration_c++.cpp:156-162 | one row becomes greedy, the other rows and V are unchanged, and the flag records whether that row changed |
| CarRental.Rental.SweepAhead | reinforcement_learning/car_rental/policy_iteration_c++.cpp:109-116 | the in-place sweep has not touched a cell it has not reached |
| CarRental.Rental.SweepCell | reinforcement_learning/car_rental/policy_iteration_c++.cpp:111-114 | one cell is backed up in place with its policy action, and diff widens to its change |
| CarRental.Rental.EvalSweep | reinforcement_learning/car_rental/policy_iteration_c++.cpp:108-116 | one sweep leaves V as SweepValues and returns as diff the largest change of any cell |
| Bandit.ArgmaxSpec | reinforcement_learning/simple_bandit/simple_bandit.py:37 | `np.argmax` gives a maximal entry with no maximal entry before it |
| Bandit.ChooseSpec | reinforcement_learning/simple_bandit/simple_bandit.py:28-31 | when exploring the action is the drawn one; otherwise it is a largest estimate with no largest estimate before it |
| Bandit.ObservedSnoc | reinforcement_learning/simple_bandit/simple_bandit.py:25-35 | one more step adds its reward to its own action's history and to no other |
| Bandit.StepSpec | reinforcement_learning/simple_bandit/simple_bandit.py:34-35 | one step raises the chosen action's count and the total by one, changes no other action's count or estimate, and a first reward becomes the estimate |
| Bandit.LoggedSpec | reinforcement_learning/simple_bandit/simple_bandit.py:37-39 | each logged value is the estimate of some action after its step, and no estimate after that step exceeds it |
| Bandit.NextStep | reinforcement_learning/simple_bandit/simple_bandit.py:25-39 | the run of i + 1 steps is the run of i steps followed by one step; the actions and the log grow by that step's action and greedy value |
| Bandit.AfterMeans | reinforcement_learning/simple_bandit/simple_bandit.py:34-35 | if every count is its action's number of rewards and every estimate their mean, then after i steps the same holds of the rewards grown by those received at each step |
| Bandit.TotalIncrement | reinforcement_learning/simple_bandit/simple_bandit.py:34 | incrementing one count raises the total of the counts by exactly one |
| Bandit.AfterTotal | reinforcement_learning/simple_bandit/simple_bandit.py:26-35 | after i steps the counts total their starting total plus i |
| Bandit.TotalZeros | reinforcement_learning/simple_bandit/simple_bandit.py:45 | counts that are all zero, as a fresh testbed's are, total zero |
| Bandit.IncrementalMean | reinforcement_learning/simple_bandit/simple_bandit.py:35 | the update `Q += (1/N)(R - Q)` turns the mean of the earlier rewards into the mean of all of them |
| Bandit.Testbed.constructor | reinforcement_learning/simple_bandit/simple_bandit.py:44-55 | estimates all at the initial value (0 or 5), counts all zero, no rewards received |
| Bandit.Testbed.Pull | reinforcement_learning/simple_bandit/simple_bandit.py:28-39 | one step: the new estimates and counts are Step of the old ones, the chosen action's count grows by 1 and its estimate alone changes, still the mean of its rewards; the logged value is the largest estimate |
| Bandit.Testbed.Advance | reinforcement_learning/simple_bandit/simple_bandit.py:25-39 | one step of the loop: afterwards the arrays, the actions and the log are those of the run of i + 1 steps, and each action's rewards have grown by what it received |
| Bandit.Testbed.RunBandit | reinforcement_learning/simple_bandit/simple_bandit.py:19-41 | Steps is 0..step-1; the log, the final estimates and counts, and the actions taken are exactly those of the run the draws determine from the starting arrays; each action's rewards grow by those it received; the counts' total grows by exactly step |
| Bandit.Experiment | reinforcement_learning/simple_bandit/simple_bandit.py:44-46 | from fresh arrays, the log and the final arrays are those of the run from all estimates at the initial value; every count is how often its action was taken and every estimate the mean of its rewards, or the initial value if none; the counts total step |

## Left out

- `poisson` (policy_iteration_c++.cpp:49-52) uses `exp` and `pow`. The Poisson weights are inputs instead.
- The loops at policy_iteration_c++.cpp:67 and 78 stop at the first weight that is not above `theta`. Here they run over a given finite list of weights, each required to be above `theta`.
- The do-while of `policy_eval` and the policy-iteration loop of `main` are not modelled (policy_iteration_c++.cpp:107-117, 223-226). Their termination rests on discount contraction and float rounding. One sweep, `EvalSweep`, is modelled.
- `print_policy`, the `printf` calls, the `__main__` block of simple_kmeans.py, the script-level runs and the plotting of simple_bandit.py are output only and are not modelled.
- Random draws are inputs, not distributions:
  - `np.random.randint` is the index `first`;
  - each `np.random.choice(n, p)` is a uniform draw `u` in [0, 1), resolved by inverse CDF;
  - the bandit's explore flag, exploring action and reward are given per step;
  - the epsilon distribution and the random `q_stars` are not modelled.
- Floating point is not modelled, except for NaN in the Lloyd loop. Arithmetic is exact `real`: there is no rounding and no infinity, and the 1e-9 tie margin is an exact constant.
- An empty cluster makes `np.mean` return NaN, and NaN makes `array_equal` false. `KMeansFloat` models this on values: the centroids after each pass form a sequence of states, not the two aliased arrays, and NaN is its only floating-point value. The array-based methods exclude it:
  - KMeans.Lloyd: requires `LloydReady`, i.e. no empty cluster in the passes it makes.
  - KMeans.Kmeans: requires `LloydReady` of the seeds, for the same reason.
- KMeans.Kmeanspp, KMeans.Kmeans: K = 0 and N = 0 are excluded by `1 <= K` and `first < |X|` rather than modelled as errors. With K = 0, `c[0,:]` indexes an empty array and raises `IndexError` (simple_kmeans.py:31); with N = 0, `np.random.randint(0)` raises `ValueError` (simple_kmeans.py:30).
- A zero weight sum makes `np.random.choice` raise `ValueError`. This includes K > N, where the pool is empty. The model returns a failure result (`Err`, or `ok == false`) instead of an exception.
- `np.empty` leaves every row of `c` undefined. The model fills every row with the same given row `junk`, because only `c[1]` is ever read before it is written.
- CarRental.Factorial: doubles overflow above 170!; the model's reals do not.
- The labels array `a` is a float array of shape (n, 1) in the source and an array of naturals here. `N_a` is a float array in the source and an array of natural counts here.
- The transition tables of `Rental` are values, not arrays. They are written only by the two loads at start-up and only read afterwards, so the model keeps the values the loads leave.
- KMeans.IntendedLloyd: the fuel bound on passes limits the corrected loop. When the fuel runs out it fails, even if more passes would reach a fixed point.
- The ordinary-least-squares scripts under regression/ols are not part of this model; they are a one-shot matrix formula over numpy.

## Findings

| source | as written | input that shows it | evidently intended | confidence | as-written member | corrected member |
|---|---|---|---|---|---|---|
| clustering/kmeans/student_academic_performance/simple_kmeans.py:37-40 | the distances are stacked from `c[1]`, then `c[1..i-1]`. At i = 1, `c[1]` is the uninitialised row, and `c[0]` never enters the weights, so a point equal to the first centroid can be drawn again | X = [[0], [0], [1]], first draw index 0, uninitialised row [5], uniform draw 0: the weights are 25 and 16, and the seeds are [[0], [0]] | distances to every chosen centroid `c[0..i-1]`, so that a chosen point has weight 0 and the K seeds are distinct | not executed | KMeans.SeedDuplicateExample | KMeans.IntendedSeedsDistinct |
| clustering/kmeans/student_academic_performance/simple_kmeans.py:71-73 | `c = c_temp` makes both names one array. The next pass writes the new means into it, so line 71 compares the array with itself, and, when no cluster empties, the loop stops after the second pass whether or not the centroids have settled | X = [[0], [1], [3], [10]], seeds [[0], [1]]: the result is labels [0, 0, 1, 1] with centroids [[0.5], [6.5]], yet point 3 is nearer to 0.5 | `c = c_temp.copy()`, iterating until the means reproduce the centroids | not executed | KMeans.LloydEarlyStopExample | KMeans.IntendedLloydFixedPoint |
| clustering/kmeans/student_academic_performance/simple_kmeans.py:69-73 | an empty cluster makes `np.mean` write a NaN row. `np.argmin` then labels every point with the first NaN row, so with K >= 2 some cluster is empty again at every pass, and `array_equal` is never true: the loop never stops | X = [[0], [0], [1]] with the seeds [[0], [0]] of the first finding: every point is labelled 0 and cluster 1 is empty | an empty cluster keeps its previous centroid, and the loop stops at a fixed point | not executed | KMeansFloat.NeverConverges | KMeans.IntendedLloydEmptyClusterExample |

`Kmeanspp`, `Lloyd` and `Kmeans` keep the behaviour as written, since they model what the code does. The corrected seeding is `Seeds` with the rule `Intended`. The corrected loop is `IntendedLloyd`, which compares fresh values and keeps the centroid of an empty cluster.
