# Perseus and belief expansion for POMDPs (nova, CPU version)

This project models the CPU core of nova's point-based POMDP solver in Dafny and proves properties of the model. It covers two source files.

`pomdp_perseus_cpu.cpp` holds the randomised point-based value iteration of Perseus. Its parts:

- the value of a stored belief under an alpha-vector and under a set of vectors;
- the point-based Bellman backup that builds one new alpha-vector for a sampled belief;
- the update that appends a vector to the next value function and recomputes the list `BTilde` of beliefs still awaiting improvement;
- the `initialize` / `execute` / `get_policy` / `uninitialize` / `complete` lifecycle of the solver fields of the POMDP object.

`pomdp_expand_cpu.cpp` holds the belief operator and the random expansion of the belief set:

- the belief update;
- the observation probability;
- random trajectories from the initial belief, each step choosing an action and then an observation by inverse-transform sampling;
- the recording of the beliefs reached and of the largest support seen.

The modules follow the program's structure:

- `sparse.dfy` (`Sparse`): the sparse rows that end at the first negative entry; a left-to-right `Sum`; the running maximum seeded with `FLT_MIN` and its first argmax; the `rand() / RAND_MAX` index draw; and `Option`.
- `model.dfy` (`Model`): the POMDP model, held as its flat tables `S T O R Z B` with dimensions `n ns m z r rz`, a discount factor `gamma` and a `horizon`. It also has the row-major index arithmetic, the view of a flat buffer as rows of width `n`, and the `memcpy` of one row (`WriteRow`).
- `backup.dfy` (`Backup`): `compute_b_dot_alpha`, `compute_Vb`, `compute_best_alpha` and `update_step`. Each is a method with its loops, proved against specification functions. Lemmas then state what those functions mean as a Bellman backup.
- `perseus.dfy` (`Perseus`): the solver fields as an abstract state (two buffers whose roles swap with the parity of the horizon, plus `BTilde`/`rTilde`). It gives the effect of one `update` on that state, the sweep invariant the update keeps, and the run of `execute`'s loops.
- `lifecycle.dfy` (`Lifecycle`): the POMDP object as a `class Solver` over nullable arrays. Its methods `Initialize`, `Update`, `Execute`, `GetPolicy`, `Uninitialize` and `Complete` change the arrays in place. Each is proved against the state machine of `Perseus`.
- `expand.dfy` (`Expand`): the belief update, the observation probability and `expand_random`, as methods on arrays proved against specification functions, with lemmas about those functions.

The walk of a trajectory is specified over an abstract step function (`Expand.Step`). `LawImplements` shows that the model's step, `Moved`, is such a function. This keeps the belief-update arithmetic out of the proofs about the loops.

Floats are modelled as `real`, with `FLT_MIN` as the exact value 2^-126 (written `1.0 / 2^126`, with 2^126 spelled out). A product of two floats is written `Times(x, y)` in both the specification and the methods, so the two match term for term.

The model takes three kinds of input that the program takes from outside:

- **Random draws:**
  - a call to `rand() / RAND_MAX` becomes an injected real `u` in `[0, 1)`, and an index drawn from it is `floor(u * k)`;
  - `Perseus.Draw` bundles the draws of one update;
  - `ExpandRandom` takes a finite sequence of draws.
- **Uninitialised memory the source reads:**
  - the `bestj` of `compute_best_alpha`, when no vector beats `FLT_MIN` for the first observation;
  - the freshly allocated `alpha` of `update`, when no action beats `FLT_MIN`.

  Both are explicit parameters (`seeds`, `junk`).
- **Null table pointers**, which `execute` checks: these are the set `missing` of a `Solver`.

## Where the code differs from its documented behaviour

The model follows the code in each case below.

- A zero normalising constant is documented as a `DegenerateBelief` failure of the belief update. The code has no such check: it divides by zero, returns `NOVA_SUCCESS` and leaves non-numbers in `bp`. Reals have no NaN, so the model follows the code up to the division. `BeliefUpdate` reports `defined == false` and leaves the unnormalised products. The expansion then stops with outcome `Degenerate`.
- The expansion is documented to produce exactly the requested count. With `horizon == 0` the trajectory length (line 117 of `pomdp_expand_cpu.cpp`: the float quotient `rand() / RAND_MAX` times `horizon + 1`, truncated) is 0 unless the float quotient rounds to 1.0, which happens only for `rand()` at or very near `RAND_MAX`. So the code records a belief only on such a rare draw. The model draws from `[0, 1)` and excludes that case, so there `ZeroHorizonStalls` proves that nothing is ever recorded and only the exhaustion of the finite draws ends the run.
- The documented capacity failure (`OutOfCapacity` when too many vectors are accepted) is, in the code, a check made after the row has been written (lines 376-389). The model proves that check never fires. Within a sweep, the next buffer always has room for one vector per belief still in `BTilde` (`Perseus.Sweeping`, `Perseus.StepOutcome`).

## Model

| member | source | states |
|---|---|---|
| Sparse.RunLength | src/pomdp/algorithms/pomdp_perseus_cpu.cpp:41-45 | the length of the run of a sparse row before its sentinel: every earlier entry is non-negative, and the entry at that position is negative unless the run is the whole row |
| Sparse.RunFromIgnoresTail | src/pomdp/algorithms/pomdp_perseus_cpu.cpp:41-45 | the scan from position j stops at the same place in any row that agrees with this one from j up to and including its sentinel, so no entry after the sentinel is read |
| Sparse.Pick | src/pomdp/algorithms/pomdp_perseus_cpu.cpp:348 | the index `(unsigned)(u * k)` drawn from `u` in [0, 1) is below `k` |
| Sparse.SeededMaxIsMax | src/pomdp/algorithms/pomdp_perseus_cpu.cpp:55-66 | the maximum seeded with FLT_MIN and raised on strict improvement bounds every value, and is FLT_MIN or one of the values |
| Sparse.FirstArgMaxIsFirst | src/pomdp/algorithms/pomdp_perseus_cpu.cpp:62-65 | the index recorded on strict improvement is the first index attaining the maximum when that maximum beats FLT_MIN, and is the caller's initial value otherwise |
| Sparse.SeededMaxMono | src/pomdp/algorithms/pomdp_perseus_cpu.cpp:55-66 | raising every value does not lower the seeded maximum |
| Model.WriteRow | src/pomdp/pomdp_expand_cpu.cpp:160 | the memcpy into row j of a flat buffer replaces exactly entries j*n .. j*n+n-1 by the row and keeps every other entry |
| Backup.ComputeBDotAlpha | src/pomdp/algorithms/pomdp_perseus_cpu.cpp:36-49 | the result is b·alpha over the entries of stored belief bIndex before its sentinel |
| Backup.BDotAlphaIgnoresTail | src/pomdp/algorithms/pomdp_perseus_cpu.cpp:36-49 | b·alpha reads stored belief i only up to its sentinel: models of the same shape whose Z rows agree up to and including the sentinel and whose B rows agree before it have the same run and the same b·alpha |
| Backup.ComputeVb | src/pomdp/algorithms/pomdp_perseus_cpu.cpp:52-67 | Vnb is the FLT_MIN-seeded maximum of b·alpha over the first rGamma vectors of Gamma; the index is the first vector attaining it, or the caller's value when none beats FLT_MIN |
| Backup.SuccessorSum | src/pomdp/algorithms/pomdp_perseus_cpu.cpp:97-105 | the sum over the successors of (s, a) before the sentinel of O[a][sp][o] * T[s][a][l] * alpha[sp] |
| Backup.RestrictedValue | src/pomdp/algorithms/pomdp_perseus_cpu.cpp:87-109 | the belief-restricted value of one previous vector: the discounted successor sum of each belief state weighted by its probability |
| Backup.BestPrevious | src/pomdp/algorithms/pomdp_perseus_cpu.cpp:80-116 | the chosen previous vector is the first argmax of the belief-restricted values, or bestj unchanged when none beats FLT_MIN |
| Backup.AddContinuation | src/pomdp/algorithms/pomdp_perseus_cpu.cpp:121-134 | every entry s of alpha gains gamma times the expected value of the chosen vector from s, over all states |
| Backup.ComputeBestAlpha | src/pomdp/algorithms/pomdp_perseus_cpu.cpp:70-136 | alpha becomes the observation loop of the backup from its old contents, with the uninitialised bestj as the seed |
| Backup.LoadRewards | src/pomdp/algorithms/pomdp_perseus_cpu.cpp:158-160 | alpha becomes the reward column R[.][a] |
| Backup.CandidateValue | src/pomdp/algorithms/pomdp_perseus_cpu.cpp:158-168 | alpha becomes the candidate vector of action a, and the value returned is its b·alpha |
| Backup.CopyVector | src/pomdp/algorithms/pomdp_perseus_cpu.cpp:172 | dst receives exactly the entries of src |
| Backup.ConsiderAction | src/pomdp/algorithms/pomdp_perseus_cpu.cpp:152-176 | one action pass: the best value becomes the seeded maximum over the actions so far; alphaPrime and the action change exactly when candidate a strictly beats the best so far |
| Backup.UpdateStep | src/pomdp/algorithms/pomdp_perseus_cpu.cpp:139-179 | the action is the first argmax of the candidates' values; when the best beats FLT_MIN alphaPrime is that candidate, otherwise alphaPrime is unchanged |
| Backup.BackupFrom | src/pomdp/algorithms/pomdp_perseus_cpu.cpp:79-135 | the observation loop of compute_best_alpha from observation o on, as a definition: each observation takes the first argmax of its belief-restricted values, seeded with the previous observation's choice, and adds that vector's discounted continuation; the result has one entry per state |
| Backup.Candidate | src/pomdp/algorithms/pomdp_perseus_cpu.cpp:156-165 | the candidate vector of action a, as a definition: the reward column R[.][a] run through the whole observation loop from the seed bestj; its meaning is stated by CandidateIsBackup and ChosenIsArgmax |
| Backup.BackupFromIsSum | src/pomdp/algorithms/pomdp_perseus_cpu.cpp:79-135 | from observation o on, the observation loop adds at state s exactly the continuations of the remaining observations |
| Backup.CandidateIsBackup | src/pomdp/algorithms/pomdp_perseus_cpu.cpp:156-165 | entry s of the candidate of action a is R(s, a) plus, over every observation, gamma times the expected value of the vector chosen for it (the Bellman backup) |
| Backup.ChosenIsArgmax | src/pomdp/algorithms/pomdp_perseus_cpu.cpp:83-116 | the vector chosen for an observation is the first with the largest belief-restricted value when that beats FLT_MIN, otherwise the previous observation's choice carries over |
| Perseus.Place | src/pomdp/algorithms/pomdp_perseus_cpu.cpp:331-345 | storing the two buffers back by parity keeps the horizon and BTilde and makes them V_n and V_{n+1} |
| Perseus.Advance | src/pomdp/algorithms/pomdp_perseus_cpu.cpp:413-425 | advancing the horizon swaps the roles of the buffers: the grown buffer becomes V_n |
| Perseus.Put | src/pomdp/algorithms/pomdp_perseus_cpu.cpp:376-382 | appending a vector keeps the buffer's shape and raises its count by one |
| Perseus.Append | src/pomdp/algorithms/pomdp_perseus_cpu.cpp:375-382 | the append rule yields a well-shaped buffer with one more vector |
| Perseus.Filter | src/pomdp/algorithms/pomdp_perseus_cpu.cpp:397-410 | the listed indices are fewer than k and all below k |
| Perseus.FilterIsFilter | src/pomdp/algorithms/pomdp_perseus_cpu.cpp:397-410 | the recomputation loop lists, in increasing order, exactly the flagged indices |
| Perseus.LaggingIsFilter | src/pomdp/algorithms/pomdp_perseus_cpu.cpp:395-410 | the new BTilde lists, in increasing order, exactly the stored beliefs whose value under V_{n+1} is below their value under V_n |
| Perseus.Sampled | src/pomdp/algorithms/pomdp_perseus_cpu.cpp:348-349 | the sampled belief index read from BTilde is a stored belief |
| Perseus.Grown | src/pomdp/algorithms/pomdp_perseus_cpu.cpp:352-382 | after the update's append, V_{n+1} is well shaped and holds one more vector |
| Perseus.PutAppends | src/pomdp/algorithms/pomdp_perseus_cpu.cpp:376-382 | the vectors in use gain the new row at the end and the actions gain its action; nothing else changes |
| Perseus.ValueSnoc | src/pomdp/algorithms/pomdp_perseus_cpu.cpp:57-66 | with one more vector, V(b) becomes the larger of the old V(b) and b·w |
| Perseus.AppendRule | src/pomdp/algorithms/pomdp_perseus_cpu.cpp:373-382 | an alpha whose value at bIndex reaches V_n(bIndex) is appended with its action; otherwise the vector of V_n attaining V_n(bIndex) is, with its own action (row 0 when none beats FLT_MIN) |
| Perseus.AppendRaises | src/pomdp/algorithms/pomdp_perseus_cpu.cpp:373-382 | appending never lowers the value of any stored belief under V_{n+1}, and lifts V_{n+1}(bIndex) to at least V_n(bIndex) |
| Perseus.LaggingShrinks | src/pomdp/algorithms/pomdp_perseus_cpu.cpp:391-410 | after the append, every lagging belief was already in BTilde, the sampled belief no longer lags, and BTilde strictly shrinks |
| Perseus.SucceededSweeping | src/pomdp/algorithms/pomdp_perseus_cpu.cpp:395-410 | an update that leaves lagging beliefs replaces BTilde by them and keeps the sweep invariant |
| Perseus.ConvergedSweeping | src/pomdp/algorithms/pomdp_perseus_cpu.cpp:413-433 | an update that leaves no lagging belief advances the horizon, empties the old V_n, resets BTilde to every stored belief and starts a new sweep |
| Perseus.Step | src/pomdp/algorithms/pomdp_perseus_cpu.cpp:320-437 | the effect of pomdp_perseus_update_cpu on the solver state, as a definition: OutOfMemory when V_{n+1} overflows, otherwise Converged with the horizon advanced and BTilde reset when no belief lags, and Success with BTilde the lagging beliefs otherwise; StepProgress, StepKeepsSweep and StepOutcome state its properties |
| Perseus.Sweeping | src/pomdp/algorithms/pomdp_perseus_cpu.cpp:391-411 | the invariant of the update loop, as a definition: room in V_{n+1} for one vector per belief in BTilde, BTilde increasing, and every stored belief outside BTilde no worse off under V_{n+1} than under V_n |
| Perseus.StepProgress | src/pomdp/algorithms/pomdp_perseus_cpu.cpp:320-437 | on Success the horizon stays and BTilde strictly shrinks; otherwise the status is Converged, the horizon advances by one and the buffers swap roles |
| Perseus.StepKeepsSweep | src/pomdp/algorithms/pomdp_perseus_cpu.cpp:320-437 | one update keeps the sweep invariant: room in V_{n+1}, BTilde increasing, and every belief outside BTilde no worse off under V_{n+1} |
| Perseus.StepOutcome | src/pomdp/algorithms/pomdp_perseus_cpu.cpp:386-436 | the capacity check passes, and the outcome depends only on whether any stored belief lags |
| Perseus.ConvergedMonotone | src/pomdp/algorithms/pomdp_perseus_cpu.cpp:391-434 | when an update converges, the new V_n is the grown buffer and every stored belief is at least as well off under it as under the previous V_n |
| Perseus.Range | src/pomdp/algorithms/pomdp_perseus_cpu.cpp:223-225 | BTilde[i] = i for every stored belief |
| Perseus.Init | src/pomdp/algorithms/pomdp_perseus_cpu.cpp:192-228 | the state initialize leaves, as a definition: horizon 0, both buffers holding the first r*n entries of initialGamma with no vector in use and every action 0, and BTilde listing every stored belief with rTilde = r; Solver.Initialize is proved to produce it |
| Perseus.Zeros | src/pomdp/algorithms/pomdp_perseus_cpu.cpp:206-209 | every action starts as 0 |
| Perseus.FreshSweep | src/pomdp/algorithms/pomdp_perseus_cpu.cpp:220-225 | a state whose BTilde lists every stored belief and whose V_{n+1} is empty starts a sweep |
| Perseus.InitSweeping | src/pomdp/algorithms/pomdp_perseus_cpu.cpp:192-228 | the state initialize leaves starts a sweep |
| Perseus.Exported | src/pomdp/algorithms/pomdp_perseus_cpu.cpp:447-469 | the policy copied out of one buffer, as a definition: dimensions n and m, its count of vectors, the first count*n entries of its vectors and the first count actions |
| Perseus.Policy | src/pomdp/algorithms/pomdp_perseus_cpu.cpp:453-469 | the result of get_policy, as a definition: Exported of the buffer the parity of the horizon makes V_n; GetPolicy and Execute are specified by it |
| Perseus.PolicyIsCurrent | src/pomdp/algorithms/pomdp_perseus_cpu.cpp:440-472 | the policy holds exactly the vectors and actions in use in the buffer the parity of the horizon makes current |
| Perseus.BudgetStep | src/pomdp/algorithms/pomdp_perseus_cpu.cpp:254-265 | while the horizon is not reached a draw remains, and after an update the remaining draws still suffice |
| Perseus.Run | src/pomdp/algorithms/pomdp_perseus_cpu.cpp:254-265 | the update loops end with the horizon reached and the sweep invariant kept |
| Perseus.Solve | src/pomdp/algorithms/pomdp_perseus_cpu.cpp:246-265 | initialisation followed by the update loops ends with the horizon reached |
| Perseus.RunPolicy | src/pomdp/algorithms/pomdp_perseus_cpu.cpp:254-267 | a run of at least one sweep ends with between 1 and r vectors in the current buffer |
| Lifecycle.CopyOf | src/pomdp/algorithms/pomdp_perseus_cpu.cpp:198-205 | a fresh array holding the first size entries of its source |
| Lifecycle.CopyOut | src/pomdp/algorithms/pomdp_perseus_cpu.cpp:447-469 | the policy holds the first count vectors and actions of the arrays, with n and m |
| Lifecycle.Allocate | src/pomdp/algorithms/pomdp_perseus_cpu.cpp:198-225 | both vector buffers are fresh copies of initialGamma, both policies all zero, and BTilde lists every stored belief, in distinct arrays |
| Lifecycle.FillRange | src/pomdp/algorithms/pomdp_perseus_cpu.cpp:429-431 | BTilde[i] = i for every i |
| Lifecycle.ZeroActions | src/pomdp/algorithms/pomdp_perseus_cpu.cpp:206-209 | every action of both policies becomes 0 |
| Lifecycle.BackupAt | src/pomdp/algorithms/pomdp_perseus_cpu.cpp:352-358 | the freshly allocated alpha and the action are the backup at the sampled belief |
| Lifecycle.Choose | src/pomdp/algorithms/pomdp_perseus_cpu.cpp:360-381 | the appended vector and action follow the append rule |
| Lifecycle.LagAt | src/pomdp/algorithms/pomdp_perseus_cpu.cpp:398-406 | the flag says whether stored belief i lags |
| Lifecycle.ListIf | src/pomdp/algorithms/pomdp_perseus_cpu.cpp:406-409 | BTilde's listed prefix gains i exactly when it lags; the rest is kept |
| Lifecycle.RecomputeAt | src/pomdp/algorithms/pomdp_perseus_cpu.cpp:397-410 | one pass of the recomputation loop extends the listed prefix by the next index when it lags |
| Lifecycle.Recompute | src/pomdp/algorithms/pomdp_perseus_cpu.cpp:395-410 | the count is the number of lagging beliefs and BTilde begins with them in increasing order; the rest of the array is unchanged |
| Lifecycle.Solver.Initialize | src/pomdp/algorithms/pomdp_perseus_cpu.cpp:192-228 | initialize succeeds, allocates fresh arrays, and leaves exactly the abstract initial state |
| Lifecycle.Solver.Install | src/pomdp/algorithms/pomdp_perseus_cpu.cpp:195-225 | the field assignments of initialize leave exactly the abstract initial state |
| Lifecycle.Solver.Uninitialize | src/pomdp/algorithms/pomdp_perseus_cpu.cpp:281-317 | uninitialize succeeds and releases every array, with all counts and the horizon reset to 0 |
| Lifecycle.Solver.Sample | src/pomdp/algorithms/pomdp_perseus_cpu.cpp:331-349 | V_n is chosen by the parity of the horizon and the belief sampled from BTilde |
| Lifecycle.Solver.Push | src/pomdp/algorithms/pomdp_perseus_cpu.cpp:376-382 | the vector and action go into the first free slot of V_{n+1}; nothing else changes |
| Lifecycle.Solver.Relist | src/pomdp/algorithms/pomdp_perseus_cpu.cpp:395-410 | BTilde and rTilde become the lagging list; nothing else changes |
| Lifecycle.Solver.Converge | src/pomdp/algorithms/pomdp_perseus_cpu.cpp:413-433 | the horizon advances, the old V_n is emptied and BTilde lists every stored belief |
| Lifecycle.Solver.Update | src/pomdp/algorithms/pomdp_perseus_cpu.cpp:320-437 | update returns the status and leaves the fields of one step of the abstract state machine, in the same arrays |
| Lifecycle.Solver.Sweep | src/pomdp/algorithms/pomdp_perseus_cpu.cpp:259-264 | the inner loop ends on Converged with the horizon one higher, and the run from the new state is the run from the old one |
| Lifecycle.Solver.UpdateNext | src/pomdp/algorithms/pomdp_perseus_cpu.cpp:260-263 | one update either shrinks BTilde within the horizon or converges and advances it, and the run is unchanged |
| Lifecycle.Admissible | src/pomdp/algorithms/pomdp_perseus_cpu.cpp:237-241 | the argument check of execute, as a definition: every dimension positive, no table pointer null, gamma in [0, 1], horizon at least 1, initialGamma given and no policy yet |
| Lifecycle.Solver.Execute | src/pomdp/algorithms/pomdp_perseus_cpu.cpp:231-278 | invalid arguments give InvalidData and leave the policy; otherwise the result is Success, the policy of the whole solve, and the solver memory released |
| Lifecycle.Solver.Complete | src/pomdp/algorithms/pomdp_perseus_cpu.cpp:182-189 | complete behaves exactly as execute |
| Lifecycle.Solver.GetPolicy | src/pomdp/algorithms/pomdp_perseus_cpu.cpp:440-472 | an existing policy gives InvalidData and is kept; otherwise Success with the vectors in use in the current buffer |
| Expand.Clear | src/pomdp/pomdp_expand_cpu.cpp:36-38 | every entry of bp becomes 0 |
| Expand.Spread | src/pomdp/pomdp_expand_cpu.cpp:41-48 | bp gains T[s][a][l] * b[s] at each successor of s before the sentinel, in order |
| Expand.Weigh | src/pomdp/pomdp_expand_cpu.cpp:51-57 | bp[sp] is multiplied by O[a][sp][o], and the returned constant is the sum of the new bp |
| Expand.Normalize | src/pomdp/pomdp_expand_cpu.cpp:59-61 | every entry of bp is divided by the constant |
| Expand.BeliefUpdate | src/pomdp/pomdp_expand_cpu.cpp:34-64 | defined exactly when the normalising constant is non-zero; then bp is the posterior, otherwise the unnormalised products |
| Expand.Posterior | src/pomdp/pomdp_expand_cpu.cpp:34-64 | the updated belief as a definition: the unnormalised products divided by their non-zero sum, one entry per state; its meaning is stated by PosteriorIsDistribution |
| Expand.Evidence | src/pomdp/pomdp_expand_cpu.cpp:67-88 | Pr(o given b and a) as a definition: the sum over states s of Pr(o given s and a) times b[s]; NormalizerIsEvidence ties it to the belief update |
| Expand.LikelihoodAtMostOne | src/pomdp/pomdp_expand_cpu.cpp:74-82 | Pr(o given s and a) is at most 1 when the transition probabilities are non-negative, the successor run's probabilities sum to at most 1, and every observation probability is at most 1 |
| Expand.EvidenceInUnit | src/pomdp/pomdp_expand_cpu.cpp:67-88 | the observation probability of a non-negative belief under non-negative tables is at least 0, and at most 1 when the tables are sub-stochastic and the belief has mass at most 1 |
| Expand.SpreadToAt | src/pomdp/pomdp_expand_cpu.cpp:41-48 | spreading the successor slots of state s adds to entry sp exactly the mass T[s][a][l] * b[s] of the slots l naming sp |
| Expand.FlowAt | src/pomdp/pomdp_expand_cpu.cpp:36-49 | entry sp of the predicted mass is the sum over states s of the transition mass from s into sp, weighted by b[s] |
| Expand.NormalizerIsEvidence | src/pomdp/pomdp_expand_cpu.cpp:51-57 | the belief update's normalising constant equals probability_observation for the same belief, action and observation |
| Expand.SpreadWeight | src/pomdp/pomdp_expand_cpu.cpp:40-57 | spreading the first l successors of s adds, once weighted by the observation probabilities, b[s] times their partial likelihood |
| Expand.MassStep | src/pomdp/pomdp_expand_cpu.cpp:40-57 | spreading state k adds its evidence term to the weighted mass |
| Expand.MassPrefix | src/pomdp/pomdp_expand_cpu.cpp:40-57 | once the states below k have spread, the weighted mass is the sum of the first k evidence terms |
| Expand.SumDivided | src/pomdp/pomdp_expand_cpu.cpp:59-61 | dividing every entry by c divides the sum by c |
| Expand.PosteriorIsDistribution | src/pomdp/pomdp_expand_cpu.cpp:34-64 | when defined, the updated belief sums to 1, and it has no negative entry when the tables and the prior have none |
| Expand.FlowNonNegative | src/pomdp/pomdp_expand_cpu.cpp:40-49 | the predicted mass of a non-negative belief is non-negative |
| Expand.StateLikelihood | src/pomdp/pomdp_expand_cpu.cpp:72-82 | val is the sum over the successors of s before the sentinel of T[s][a][l] * O[a][sp][o] |
| Expand.ProbabilityObservation | src/pomdp/pomdp_expand_cpu.cpp:67-88 | prObs is the sum over states of the likelihood of o from s times b[s] |
| Expand.ChooseObservation | src/pomdp/pomdp_expand_cpu.cpp:127-140 | o is the first observation whose cumulative probability reaches the target, or 0 when none does |
| Expand.FirstCrossingIsFirst | src/pomdp/pomdp_expand_cpu.cpp:130-140 | when some cumulative probability reaches the target, o is the least such observation; when none does, o is 0 |
| Expand.InitialBelief | src/pomdp/pomdp_expand_cpu.cpp:96-106 | b0 is a fresh dense copy of stored belief 0 |
| Expand.DenseAt | src/pomdp/pomdp_expand_cpu.cpp:96-106 | entry s of b0 is the probability of the last entry of stored belief 0 naming s, and 0 when no entry names it |
| Expand.DenseNonNegative | src/pomdp/pomdp_expand_cpu.cpp:96-106 | b0 has no negative entry when the stored probabilities have none |
| Expand.CountNonZero | src/pomdp/pomdp_expand_cpu.cpp:149-154 | the count of strictly positive entries of b |
| Expand.PositivesCount | src/pomdp/pomdp_expand_cpu.cpp:149-154 | the count equals the length exactly when every entry is positive, and is 0 exactly when none is |
| Expand.TrackIsMax | src/pomdp/pomdp_expand_cpu.cpp:155-157 | the tracked maximum is at least its initial value and every row's count, and equals one of them |
| Expand.CopyBelief | src/pomdp/pomdp_expand_cpu.cpp:120 | dst receives exactly the entries of src |
| Expand.Moved | src/pomdp/pomdp_expand_cpu.cpp:125-146 | one trajectory step, as a definition: the action floor(ua*m), the first observation whose cumulative probability reaches ut, then the posterior, or None when the normaliser is zero; MovedIsBelief states that a defined step is a distribution |
| Expand.Move | src/pomdp/pomdp_expand_cpu.cpp:125-144 | the fresh bp and its definedness are one step of the random belief walk from b |
| Expand.Record | src/pomdp/pomdp_expand_cpu.cpp:145-160 | b becomes bp, maxNonZeroValues is raised to bp's support, and bp is written as row i of Bnew, the rest of Bnew unchanged |
| Expand.Trajectory | src/pomdp/pomdp_expand_cpu.cpp:123-167 | outcome, count, maximum, draws used and Bnew are those of the trajectory specification |
| Expand.Fill | src/pomdp/pomdp_expand_cpu.cpp:113-168 | outcome and maximum are those of the expansion specification; Bnew begins with its rows and keeps the rest |
| Expand.Expanded | src/pomdp/pomdp_expand_cpu.cpp:91-174 | the whole expand_random, as a definition: the expansion loop from the initial belief with no rows recorded; ExpandRandom is proved equal to it and ExpandedFacts states its properties |
| Expand.ExpandRandom | src/pomdp/pomdp_expand_cpu.cpp:91-174 | expand_random from the initial belief: outcome, maximum and the beliefs written to Bnew, as the expansion specification gives them |
| Expand.Walk | src/pomdp/pomdp_expand_cpu.cpp:123-167 | one trajectory, as a definition over an abstract step: each step takes an action draw and a target draw, records the belief reached and raises the support tracker, and stops early when the quota is met, when the draws run out or on an undefined update |
| Expand.Explore | src/pomdp/pomdp_expand_cpu.cpp:113-168 | the expansion loop, as a definition: while the quota is not met, a trajectory of length Pick(u, horizon + 1) from the initial belief; its properties are stated by ExploreBounds, ExploreTracks and ExploreBeliefs |
| Expand.WalkBounds | src/pomdp/pomdp_expand_cpu.cpp:123-167 | a trajectory only appends rows, never beyond the quota, and stops short of it unless it ends normally |
| Expand.ExploreBounds | src/pomdp/pomdp_expand_cpu.cpp:113-168 | the expansion writes at most the quota, only appends, and meets it exactly when it ends Filled |
| Expand.WalkTracks | src/pomdp/pomdp_expand_cpu.cpp:148-157 | along a trajectory, maxNonZeroValues stays the running maximum of the supports recorded |
| Expand.ExploreTracks | src/pomdp/pomdp_expand_cpu.cpp:113-168 | over the expansion, maxNonZeroValues is the running maximum of the supports recorded |
| Expand.MovedIsBelief | src/pomdp/pomdp_expand_cpu.cpp:125-146 | a defined step of the walk yields a belief summing to 1, non-negative for non-negative tables and prior |
| Expand.WalkBeliefs | src/pomdp/pomdp_expand_cpu.cpp:123-167 | every belief a trajectory records sums to 1, and is non-negative for non-negative tables |
| Expand.ExploreBeliefs | src/pomdp/pomdp_expand_cpu.cpp:113-168 | every belief the expansion records sums to 1, and is non-negative for non-negative tables |
| Expand.ExpandedFacts | src/pomdp/pomdp_expand_cpu.cpp:91-174 | at most numDesiredBeliefPoints beliefs, exactly that many unless the draws ran out or an update was undefined; each sums to 1 (non-negative for non-negative tables); maxNonZeroValues is the largest of its initial value and their supports |
| Expand.ZeroHorizonStalls | src/pomdp/pomdp_expand_cpu.cpp:113-123 | with horizon 0 and draws in [0, 1) every trajectory is empty, nothing is recorded, and only running out of draws ends the expansion; the source takes a step only on a draw whose quotient rounds to 1.0, which the model excludes |
| Expand.LawImplements | src/pomdp/pomdp_expand_cpu.cpp:125-146 | the model's step function is the random belief walk step |

## Left out

- Randomness: `srand(time(nullptr))` and `rand()` are replaced by injected draws in [0, 1). The value `rand() == RAND_MAX`, which gives `u == 1` and an index one past the end, is excluded (`Sparse.Pick` requires `u < 1`).
- Floating point: reals replace 32-bit floats, so rounding, NaN and overflow are not modelled. Unsigned 32-bit index arithmetic is modelled without wrap-around: every index the source forms is within its table.
- Memory management: `new`/`delete`, `fprintf` and the GPU versions are not modelled. Arrays the source takes as `const` pointers are passed as sequence snapshots.
- The `ger` functions of the expansion file (`pomdp_expand_ger_epsilon_cpu` at lines 177-182 and `pomdp_expand_ger_cpu` at lines 185-189 of `pomdp_expand_cpu.cpp`) are stubs with no behaviour and are not part of this model.
- Lifecycle.Solver.Execute: the source draws without bound, but the model takes a finite sequence of at least horizon * r draws, which it proves sufficient. Leftover draws are unused.
- Expand.ExpandRandom: the source draws without bound, but the model takes a finite sequence of draws and stops with outcome `OutOfDraws` when they run out. `ZeroHorizonStalls` states the horizon-0 case: the source records a belief there only on a draw whose float quotient rounds to 1.0, the case the model excludes.
- Expand.BeliefUpdate: when the normalising constant is 0 the source divides by it and returns success. The model reports `defined == false`, and the expansion stops with outcome `Degenerate` instead of continuing with non-numbers.
- Expand.EvidenceInUnit: the bounds hold only under explicit hypotheses: non-negative tables and belief, and for the upper bound sub-stochastic transition runs, observation probabilities at most 1 and belief mass at most 1. A loaded model is not required to be stochastic, and the source does not check it.
- Lifecycle.Solver.GetPolicy: requires the solver arrays to be allocated. The source does not check this. After uninitialize it copies zero vectors from null arrays and returns an empty policy. Its only caller, execute, always calls it on allocated arrays.
- Expand.ExpandRandom: requires `r`, `m` and `z` positive. The source reads stored belief 0 and draws an action from `m` and an observation from `z` without checking them.
- Lifecycle.Solver.Update: the out-of-memory branch (lines 386-389) is proved unreachable within a sweep, so the model does not return `OutOfMemory`.
