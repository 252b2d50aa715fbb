/**
 * The alpha-vector side of Perseus: the value of a stored belief under one
 * vector and under a set of vectors, and the point-based Bellman backup that
 * builds one new vector for one stored belief.
 */
module Backup {
  import opened Sparse
  import opened Model

  // ---------------------------------------------------------------------------
  // Specification
  // ---------------------------------------------------------------------------

  /** The products B[k] * alpha[Z[k]] of stored belief i, up to its sentinel. */
  function DotTerms(p: ValidPomdp, i: nat, alpha: seq<real>): (ts: seq<real>)
    requires i < p.r && |alpha| == p.n
    ensures |ts| == RunLength(p.ZRow(i))
  {
    seq(RunLength(p.ZRow(i)), k requires 0 <= k < RunLength(p.ZRow(i)) =>
      Times(p.BRow(i)[k], alpha[p.BeliefState(i, k)]))
  }

  /** b·alpha for stored belief i. */
  function BDotAlpha(p: ValidPomdp, i: nat, alpha: seq<real>): real
    requires i < p.r && |alpha| == p.n
  {
    Sum(DotTerms(p, i, alpha))
  }

  /** The values b·alpha of stored belief i under each vector of vs. */
  function Values(p: ValidPomdp, i: nat, vs: seq<seq<real>>): (xs: seq<real>)
    requires i < p.r && forall j :: 0 <= j < |vs| ==> |vs[j]| == p.n
    ensures |xs| == |vs|
  {
    seq(|vs|, j requires 0 <= j < |vs| => BDotAlpha(p, i, vs[j]))
  }

  /** V(b) for stored belief i under the vector set vs, seeded with FLT_MIN. */
  function Value(p: ValidPomdp, i: nat, vs: seq<seq<real>>): real
    requires i < p.r && forall j :: 0 <= j < |vs| ==> |vs[j]| == p.n
  {
    SeededMax(Values(p, i, vs))
  }

  /** The products O[a][sp][o] * T[s][a][l] * alpha[sp] over the successors sp of
      (s, a), up to the sentinel. */
  function SuccTerms(p: ValidPomdp, s: nat, a: nat, o: nat, alpha: seq<real>): (ts: seq<real>)
    requires s < p.n && a < p.m && o < p.z && |alpha| == p.n
    ensures |ts| == RunLength(p.SRow(s, a))
  {
    seq(RunLength(p.SRow(s, a)), l requires 0 <= l < RunLength(p.SRow(s, a)) =>
      Times(Times(p.Obs(a, p.Succ(s, a, l), o), p.TRow(s, a)[l]), alpha[p.Succ(s, a, l)]))
  }

  /** Expected next-stage value of alpha from s under a, restricted to observation o. */
  function Expected(p: ValidPomdp, s: nat, a: nat, o: nat, alpha: seq<real>): real
    requires s < p.n && a < p.m && o < p.z && |alpha| == p.n
  {
    Sum(SuccTerms(p, s, a, o, alpha))
  }

  /** The discounted Expected value of each entry of stored belief i, weighted by
      its probability. */
  function ObsTerms(p: ValidPomdp, i: nat, a: nat, o: nat, alpha: seq<real>): (ts: seq<real>)
    requires i < p.r && a < p.m && o < p.z && |alpha| == p.n
    ensures |ts| == RunLength(p.ZRow(i))
  {
    seq(RunLength(p.ZRow(i)), k requires 0 <= k < RunLength(p.ZRow(i)) =>
      Times(Times(Expected(p, p.BeliefState(i, k), a, o, alpha), p.gamma), p.BRow(i)[k]))
  }

  /** The belief-restricted value the backup maximises for observation o. */
  function ObsValue(p: ValidPomdp, i: nat, a: nat, o: nat, alpha: seq<real>): real
    requires i < p.r && a < p.m && o < p.z && |alpha| == p.n
  {
    Sum(ObsTerms(p, i, a, o, alpha))
  }

  /** The belief-restricted values of the first rGamma vectors of `all`. */
  function ObsValues(p: ValidPomdp, i: nat, a: nat, o: nat, all: seq<seq<real>>, rGamma: nat): (xs: seq<real>)
    requires i < p.r && a < p.m && o < p.z
    requires forall j :: 0 <= j < |all| ==> |all[j]| == p.n
    requires rGamma <= |all|
    ensures |xs| == rGamma
  {
    seq(rGamma, j requires 0 <= j < rGamma => ObsValue(p, i, a, o, all[j]))
  }

  /** alpha after the state loop of observation o: every entry s of cur gains
      the discounted Expected value of the chosen previous vector prev. */
  function AddObservation(p: ValidPomdp, a: nat, o: nat, prev: seq<real>, cur: seq<real>): (next: seq<real>)
    requires a < p.m && o < p.z && |prev| == p.n && |cur| == p.n
    ensures |next| == p.n
  {
    seq(p.n, s requires 0 <= s < p.n => cur[s] + Times(Expected(p, s, a, o, prev), p.gamma))
  }

  /** The observation loop of the backup for action a from observation o on, with
      `bestj` and alpha holding bestj and cur: each observation picks the first
      argmax of its values, starting from the choice of the observation before,
      and adds the chosen vector's continuation. */
  function BackupFrom(p: ValidPomdp, i: nat, all: seq<seq<real>>, rGamma: nat, a: nat,
                      bestj: nat, cur: seq<real>, o: nat): (alpha: seq<real>)
    requires i < p.r && a < p.m && o <= p.z && |cur| == p.n
    requires forall j :: 0 <= j < |all| ==> |all[j]| == p.n
    requires rGamma <= |all| && bestj < |all|
    ensures |alpha| == p.n
    decreases p.z - o
  {
    if o == p.z then cur
    else
      var j := FirstArgMax(ObsValues(p, i, a, o, all, rGamma), bestj);
      BackupFrom(p, i, all, rGamma, a, j, AddObservation(p, a, o, all[j], cur), o + 1)
  }

  /** The reward column R[.][a]. */
  function Rewards(p: ValidPomdp, a: nat): (rs: seq<real>)
    requires a < p.m
    ensures |rs| == p.n
  {
    seq(p.n, s requires 0 <= s < p.n => p.Reward(s, a))
  }

  /** The candidate alpha-vector of action a: the reward column, backed up with
      the vectors the backup chooses. */
  function Candidate(p: ValidPomdp, i: nat, all: seq<seq<real>>, rGamma: nat, a: nat, seed: nat): (alpha: seq<real>)
    requires i < p.r && a < p.m
    requires forall j :: 0 <= j < |all| ==> |all[j]| == p.n
    requires rGamma <= |all| && seed < |all|
    ensures |alpha| == p.n
  {
    BackupFrom(p, i, all, rGamma, a, seed, Rewards(p, a), 0)
  }

  /** Seeds for the `bestj` variable of each action's backup call. */
  predicate SeedsFit(p: ValidPomdp, all: seq<seq<real>>, seeds: seq<nat>) {
    |seeds| == p.m && forall a :: 0 <= a < p.m ==> seeds[a] < |all|
  }

  /** b·alpha of each action's candidate vector. */
  function ActionValues(p: ValidPomdp, i: nat, all: seq<seq<real>>, rGamma: nat, seeds: seq<nat>): (xs: seq<real>)
    requires i < p.r
    requires forall j :: 0 <= j < |all| ==> |all[j]| == p.n
    requires rGamma <= |all| && SeedsFit(p, all, seeds)
    ensures |xs| == p.m
  {
    seq(p.m, a requires 0 <= a < p.m => BDotAlpha(p, i, Candidate(p, i, all, rGamma, a, seeds[a])))
  }

  // ---------------------------------------------------------------------------
  // Operations
  // ---------------------------------------------------------------------------

  /** pomdp_perseus_compute_b_dot_alpha_cpu: walks row bIndex of Z and B up to
      the first negative entry. */
  method ComputeBDotAlpha(p: ValidPomdp, bIndex: nat, alpha: seq<real>) returns (bDotAlpha: real)
    requires bIndex < p.r && |alpha| == p.n
    ensures bDotAlpha == BDotAlpha(p, bIndex, alpha)
  {
    ghost var ts := DotTerms(p, bIndex, alpha);
    var states, probs := p.ZRow(bIndex), p.BRow(bIndex);
    bDotAlpha := 0.0;
    var j := 0;
    while j < p.rz
      invariant j <= RunLength(states)
      invariant bDotAlpha == Sum(ts[..j])
    {
      var s := states[j];
      if s < 0 {
        break;
      }
      SumStep(ts, j);
      bDotAlpha := bDotAlpha + Times(probs[j], alpha[s]);
      j := j + 1;
    }
    assert ts[..j] == ts;
  }

  /** pomdp_perseus_compute_Vb_cpu: V(b) over the first rGamma vectors of the flat
      buffer Gamma, and the index of the vector attaining it. The index keeps the
      caller's value `alphaPrimeIndex` when no vector beats FLT_MIN. */
  method ComputeVb(p: ValidPomdp, bIndex: nat, Gamma: seq<real>, rGamma: nat, alphaPrimeIndex: nat)
    returns (Vnb: real, index: nat)
    requires bIndex < p.r && rGamma * p.n <= |Gamma|
    ensures Vnb == Value(p, bIndex, Vectors(Gamma, p.n, rGamma))
    ensures index == FirstArgMax(Values(p, bIndex, Vectors(Gamma, p.n, rGamma)), alphaPrimeIndex)
  {
    ghost var xs := Values(p, bIndex, Vectors(Gamma, p.n, rGamma));
    Vnb, index := FltMin, alphaPrimeIndex;
    var i := 0;
    while i < rGamma
      invariant i <= rGamma
      invariant Vnb == SeededMax(xs[..i]) && index == FirstArgMax(xs[..i], alphaPrimeIndex)
    {
      VectorsAt(Gamma, p.n, rGamma, i);
      var bDotAlpha := ComputeBDotAlpha(p, bIndex, Row(Gamma, p.n, i));
      assert bDotAlpha == xs[i];
      MaxStep(xs, i, alphaPrimeIndex);
      if Vnb < bDotAlpha {
        Vnb, index := bDotAlpha, i;
      }
      i := i + 1;
    }
    assert xs[..rGamma] == xs;
  }

  /** The successor loop of the backup: the sum over the successors sp of (s, a)
      of O[a][sp][o] * T[s][a][l] * alpha[sp]. */
  method SuccessorSum(p: ValidPomdp, s: nat, a: nat, o: nat, alpha: seq<real>) returns (Vtk: real)
    requires s < p.n && a < p.m && o < p.z && |alpha| == p.n
    ensures Vtk == Expected(p, s, a, o, alpha)
  {
    ghost var ts := SuccTerms(p, s, a, o, alpha);
    var succ, prob := p.SRow(s, a), p.TRow(s, a);
    Vtk := 0.0;
    var l := 0;
    while l < p.ns
      invariant l <= RunLength(succ)
      invariant Vtk == Sum(ts[..l])
    {
      var sp := succ[l];
      if sp < 0 {
        break;
      }
      SumStep(ts, l);
      Vtk := Vtk + Times(Times(p.Obs(a, sp, o), prob[l]), alpha[sp]);
      l := l + 1;
    }
    assert ts[..l] == ts;
  }

  /** The value of one previous vector alpha at stored belief bIndex for (a, o):
      the discounted successor sum of each belief state, weighted by its probability. */
  method RestrictedValue(p: ValidPomdp, bIndex: nat, a: nat, o: nat, alpha: seq<real>) returns (value: real)
    requires bIndex < p.r && a < p.m && o < p.z && |alpha| == p.n
    ensures value == ObsValue(p, bIndex, a, o, alpha)
  {
    ghost var ts := ObsTerms(p, bIndex, a, o, alpha);
    var states, probs := p.ZRow(bIndex), p.BRow(bIndex);
    value := 0.0;
    var k := 0;
    while k < p.rz
      invariant k <= RunLength(states)
      invariant value == Sum(ts[..k])
    {
      var s := states[k];
      if s < 0 {
        break;
      }
      assert s == p.BeliefState(bIndex, k);
      var Vtk := SuccessorSum(p, s, a, o, alpha);
      SumStep(ts, k);
      Vtk := Times(Vtk, p.gamma);
      value := value + Times(Vtk, probs[k]);
      k := k + 1;
    }
    assert ts[..k] == ts;
  }

  /** The argmax loop of the backup for one observation: the first of the first
      rGamma vectors whose belief-restricted value strictly beats FLT_MIN and every
      earlier one, or `bestj` unchanged when none does. */
  method BestPrevious(p: ValidPomdp, bIndex: nat, Gamma: seq<real>, rGamma: nat, a: nat, o: nat, bestj: nat)
    returns (choice: nat)
    requires bIndex < p.r && a < p.m && o < p.z
    requires |Gamma| == p.r * p.n && rGamma <= p.r
    ensures choice == FirstArgMax(ObsValues(p, bIndex, a, o, Vectors(Gamma, p.n, p.r), rGamma), bestj)
  {
    ghost var xs := ObsValues(p, bIndex, a, o, Vectors(Gamma, p.n, p.r), rGamma);
    choice := bestj;
    var bestValue := FltMin;
    var j := 0;
    while j < rGamma
      invariant j <= rGamma
      invariant bestValue == SeededMax(xs[..j]) && choice == FirstArgMax(xs[..j], bestj)
    {
      ObsValuesAt(p, bIndex, a, o, Gamma, rGamma, j);
      var value := RestrictedValue(p, bIndex, a, o, Row(Gamma, p.n, j));
      MaxAdvance(xs, j, bestj, bestValue, choice, value);
      if value > bestValue {
        choice := j;
        bestValue := value;
      }
      j := j + 1;
    }
    assert xs[..rGamma] == xs;
  }

  /** Entry j of the belief-restricted values of the first rGamma vectors of the
      flat buffer Gamma is the value of row j. */
  lemma ObsValuesAt(p: ValidPomdp, bIndex: nat, a: nat, o: nat, Gamma: seq<real>, rGamma: nat, j: nat)
    requires bIndex < p.r && a < p.m && o < p.z
    requires |Gamma| == p.r * p.n && j < rGamma <= p.r
    ensures j * p.n + p.n <= |Gamma|
    ensures ObsValues(p, bIndex, a, o, Vectors(Gamma, p.n, p.r), rGamma)[j]
         == ObsValue(p, bIndex, a, o, Row(Gamma, p.n, j))
  {
    VectorsAt(Gamma, p.n, p.r, j);
  }

  /** Entry s of AddObservation is entry s of cur plus the continuation of prev. */
  lemma AddObservationAt(p: ValidPomdp, a: nat, o: nat, prev: seq<real>, cur: seq<real>, s: nat)
    requires a < p.m && o < p.z && |prev| == p.n && |cur| == p.n && s < p.n
    ensures AddObservation(p, a, o, prev, cur)[s] == cur[s] + Times(Expected(p, s, a, o, prev), p.gamma)
  {
  }

  /** One pass of the state loop of the backup for observation o: adds to alpha[s],
      which still holds start[s], the discounted Expected value of the chosen
      vector bestj. */
  method AddAt(p: ValidPomdp, Gamma: seq<real>, a: nat, o: nat, bestj: nat, ghost start: seq<real>,
               alpha: array<real>, s: nat)
    requires a < p.m && o < p.z && s < p.n && alpha.Length == p.n && |start| == p.n
    requires |Gamma| == p.r * p.n && bestj < p.r && alpha[s] == start[s]
    modifies alpha
    ensures alpha[..] == old(alpha[..])[s := AddObservation(p, a, o, Vectors(Gamma, p.n, p.r)[bestj], start)[s]]
  {
    VectorsAt(Gamma, p.n, p.r, bestj);
    AddObservationAt(p, a, o, Vectors(Gamma, p.n, p.r)[bestj], start, s);
    var Vtk := SuccessorSum(p, s, a, o, Row(Gamma, p.n, bestj));
    Vtk := Times(Vtk, p.gamma);
    alpha[s] := alpha[s] + Vtk;
  }

  /** The state loop of the backup for observation o, once the vector bestj is
      chosen: adds its discounted Expected value at every state. */
  method AddContinuation(p: ValidPomdp, Gamma: seq<real>, a: nat, o: nat, bestj: nat, alpha: array<real>)
    requires a < p.m && o < p.z && alpha.Length == p.n
    requires |Gamma| == p.r * p.n && bestj < p.r
    modifies alpha
    ensures alpha[..] == AddObservation(p, a, o, Vectors(Gamma, p.n, p.r)[bestj], old(alpha[..]))
  {
    ghost var start := alpha[..];
    ghost var goal := AddObservation(p, a, o, Vectors(Gamma, p.n, p.r)[bestj], start);
    var s := 0;
    while s < p.n
      invariant s <= p.n
      invariant alpha[..] == goal[..s] + start[s..]
    {
      PrefixStep(goal, start, s);
      AddAt(p, Gamma, a, o, bestj, start, alpha, s);
      s := s + 1;
    }
    assert goal[..s] + start[s..] == goal;
  }

  /** One step of BackupFrom: the choice for observation o and the vector after it. */
  lemma BackupFromStep(p: ValidPomdp, i: nat, all: seq<seq<real>>, rGamma: nat, a: nat,
                       bestj: nat, cur: seq<real>, o: nat, j: nat, next: seq<real>)
    requires i < p.r && a < p.m && o < p.z && |cur| == p.n
    requires forall k :: 0 <= k < |all| ==> |all[k]| == p.n
    requires rGamma <= |all| && bestj < |all|
    requires j == FirstArgMax(ObsValues(p, i, a, o, all, rGamma), bestj)
    requires next == AddObservation(p, a, o, all[j], cur)
    ensures j < |all|
    ensures BackupFrom(p, i, all, rGamma, a, bestj, cur, o) == BackupFrom(p, i, all, rGamma, a, j, next, o + 1)
  {
  }

  /** pomdp_perseus_update_compute_best_alpha_cpu: for every observation, picks the
      previous vector with the best belief-restricted value and adds its discounted
      expected value to alpha at every state. `seed` is the content of the
      uninitialised `bestj`, used when no vector beats FLT_MIN; the choice carries
      over from one observation to the next. BackupFromIsSum states what the result is. */
  method ComputeBestAlpha(p: ValidPomdp, bIndex: nat, Gamma: seq<real>, rGamma: nat, a: nat, seed: nat,
                          alpha: array<real>)
    requires bIndex < p.r && a < p.m && alpha.Length == p.n
    requires |Gamma| == p.r * p.n && rGamma <= p.r && seed < p.r
    modifies alpha
    ensures alpha[..] == BackupFrom(p, bIndex, Vectors(Gamma, p.n, p.r), rGamma, a, seed, old(alpha[..]), 0)
  {
    ghost var goal := BackupFrom(p, bIndex, Vectors(Gamma, p.n, p.r), rGamma, a, seed, alpha[..], 0);
    var bestj: nat := seed;
    var o := 0;
    while o < p.z
      invariant o <= p.z && bestj < p.r
      invariant BackupFrom(p, bIndex, Vectors(Gamma, p.n, p.r), rGamma, a, bestj, alpha[..], o) == goal
    {
      var choice := BestPrevious(p, bIndex, Gamma, rGamma, a, o, bestj);
      ghost var cur := alpha[..];
      AddContinuation(p, Gamma, a, o, choice, alpha);
      BackupFromStep(p, bIndex, Vectors(Gamma, p.n, p.r), rGamma, a, bestj, cur, o, choice, alpha[..]);
      bestj := choice;
      o := o + 1;
    }
  }

  /** Entry a of ActionValues is b·alpha of candidate a. */
  lemma ActionValuesAt(p: ValidPomdp, i: nat, all: seq<seq<real>>, rGamma: nat, seeds: seq<nat>, a: nat)
    requires i < p.r && a < p.m
    requires forall j :: 0 <= j < |all| ==> |all[j]| == p.n
    requires rGamma <= |all| && SeedsFit(p, all, seeds)
    ensures ActionValues(p, i, all, rGamma, seeds)[a] == BDotAlpha(p, i, Candidate(p, i, all, rGamma, a, seeds[a]))
  {
  }

  /** The reward loop of the backup step: alpha becomes the reward column of a. */
  method LoadRewards(p: ValidPomdp, a: nat, alpha: array<real>)
    requires a < p.m && alpha.Length == p.n
    modifies alpha
    ensures alpha[..] == Rewards(p, a)
  {
    var s := 0;
    while s < p.n
      invariant s <= p.n
      invariant forall t :: 0 <= t < s ==> alpha[t] == Rewards(p, a)[t]
    {
      alpha[s] := p.Reward(s, a);
      s := s + 1;
    }
  }

  /** One pass of the action loop of the backup step: alpha starts as the
      reward column of action a, is backed up, and its b·alpha is returned. */
  method CandidateValue(p: ValidPomdp, bIndex: nat, Gamma: seq<real>, rGamma: nat, a: nat, seed: nat,
                        alpha: array<real>) returns (value: real)
    requires bIndex < p.r && a < p.m && alpha.Length == p.n
    requires |Gamma| == p.r * p.n && rGamma <= p.r && seed < p.r
    modifies alpha
    ensures alpha[..] == Candidate(p, bIndex, Vectors(Gamma, p.n, p.r), rGamma, a, seed)
    ensures value == BDotAlpha(p, bIndex, alpha[..])
  {
    LoadRewards(p, a, alpha);
    ComputeBestAlpha(p, bIndex, Gamma, rGamma, a, seed, alpha);
    value := ComputeBDotAlpha(p, bIndex, alpha[..]);
  }

  /** The memcpy of the backup step: dst receives the entries of src. */
  method CopyVector(src: array<real>, dst: array<real>)
    requires src.Length == dst.Length && src != dst
    modifies dst
    ensures dst[..] == src[..]
  {
    forall t | 0 <= t < dst.Length {
      dst[t] := src[t];
    }
  }

  /** The loop body of the backup step for action a: builds candidate a in alpha
      and, when its b·alpha strictly beats the best so far, copies it to alphaPrime
      and records a. */
  method ConsiderAction(p: ValidPomdp, bIndex: nat, Gamma: seq<real>, rGamma: nat, seeds: seq<nat>, a: nat,
                        alpha: array<real>, alphaPrime: array<real>, bestValue: real, action: nat)
    returns (bestValue': real, action': nat)
    requires bIndex < p.r && |Gamma| == p.r * p.n && rGamma <= p.r && a < p.m
    requires SeedsFit(p, Vectors(Gamma, p.n, p.r), seeds)
    requires alpha.Length == p.n && alphaPrime.Length == p.n && alpha != alphaPrime
    requires bestValue == SeededMax(ActionValues(p, bIndex, Vectors(Gamma, p.n, p.r), rGamma, seeds)[..a])
    modifies alpha, alphaPrime
    ensures var xs := ActionValues(p, bIndex, Vectors(Gamma, p.n, p.r), rGamma, seeds);
      && bestValue' == SeededMax(xs[..a + 1])
      && (if bestValue < xs[a] then action' == a else action' == action)
    ensures bestValue < bestValue' ==>
      alphaPrime[..] == Candidate(p, bIndex, Vectors(Gamma, p.n, p.r), rGamma, a, seeds[a])
    ensures bestValue == bestValue' ==> alphaPrime[..] == old(alphaPrime[..])
  {
    ghost var xs := ActionValues(p, bIndex, Vectors(Gamma, p.n, p.r), rGamma, seeds);
    var value := CandidateValue(p, bIndex, Gamma, rGamma, a, seeds[a], alpha);
    ActionValuesAt(p, bIndex, Vectors(Gamma, p.n, p.r), rGamma, seeds, a);
    MaxStep(xs, a, 0);
    bestValue', action' := bestValue, action;
    if value > bestValue {
      CopyVector(alpha, alphaPrime);
      action' := a;
      bestValue' := value;
    }
  }

  /** pomdp_perseus_update_step_cpu: builds the candidate vector of every action
      and keeps, in alphaPrime and the returned action, the first one whose b·alpha
      strictly beats FLT_MIN and every earlier one. When none does, alphaPrime is
      left unchanged and the action keeps the caller's value `aPrime`. seeds[a] is
      the uninitialised `bestj` of the backup call for action a. */
  method UpdateStep(p: ValidPomdp, bIndex: nat, Gamma: seq<real>, rGamma: nat, seeds: seq<nat>,
                    alphaPrime: array<real>, aPrime: nat) returns (action: nat)
    requires bIndex < p.r && |Gamma| == p.r * p.n && rGamma <= p.r
    requires SeedsFit(p, Vectors(Gamma, p.n, p.r), seeds) && alphaPrime.Length == p.n
    modifies alphaPrime
    ensures var xs := ActionValues(p, bIndex, Vectors(Gamma, p.n, p.r), rGamma, seeds);
      && action == FirstArgMax(xs, aPrime)
      && if SeededMax(xs) > FltMin
         then action < p.m && alphaPrime[..] == Candidate(p, bIndex, Vectors(Gamma, p.n, p.r), rGamma, action, seeds[action])
         else alphaPrime[..] == old(alphaPrime[..])
  {
    ghost var all := Vectors(Gamma, p.n, p.r);
    ghost var xs := ActionValues(p, bIndex, all, rGamma, seeds);
    var bestValue := FltMin;
    action := aPrime;
    var alpha := new real[p.n];
    var a := 0;
    while a < p.m
      invariant a <= p.m
      invariant bestValue == SeededMax(xs[..a]) && action == FirstArgMax(xs[..a], aPrime)
      invariant if bestValue > FltMin
        then action < a && alphaPrime[..] == Candidate(p, bIndex, all, rGamma, action, seeds[action])
        else alphaPrime[..] == old(alphaPrime[..])
    {
      MaxStep(xs, a, aPrime);
      bestValue, action := ConsiderAction(p, bIndex, Gamma, rGamma, seeds, a, alpha, alphaPrime, bestValue, action);
      a := a + 1;
    }
    assert xs[..p.m] == xs;
  }

  // ---------------------------------------------------------------------------
  // What the backup computes
  // ---------------------------------------------------------------------------

  /** The fixed arguments of one backup call: the model, the stored belief i, the
      action a, the previous vectors `all` of which the first rGamma take part, and
      `seed`, the initial content of `bestj`. */
  datatype Call = Call(p: ValidPomdp, i: nat, all: seq<seq<real>>, rGamma: nat, a: nat, seed: nat)

  /** A call whose indices name a stored belief, an action and previous vectors. */
  type BackupCall = c: Call
    | && c.i < c.p.r && c.a < c.p.m && c.rGamma <= |c.all| && c.seed < |c.all|
      && forall k :: 0 <= k < |c.all| ==> |c.all[k]| == c.p.n
    witness Call(Pomdp(0, 0, 1, 0, 1, 0, 0.0, 0, [], [], [], [], [], []), 0, [[]], 0, 0, 0)

  /** The previous vector chosen for the observations before o: `bestj` before
      observation o. It starts as `seed`, and each observation replaces it by the
      first argmax of its values, or keeps it when no value beats FLT_MIN. */
  function Chosen(c: BackupCall, o: nat): (j: nat)
    requires o <= c.p.z
    ensures j < |c.all|
  {
    if o == 0 then c.seed
    else FirstArgMax(ObsValues(c.p, c.i, c.a, o - 1, c.all, c.rGamma), Chosen(c, o - 1))
  }

  /** The terms observations o, o + 1, ... contribute to entry s of the backed-up
      vector, in order: gamma times the Expected value, restricted to the
      observation, of the vector chosen for it. */
  function Continuations(c: BackupCall, s: nat, o: nat): (ts: seq<real>)
    requires s < c.p.n && o <= c.p.z
    ensures |ts| == c.p.z - o
    decreases c.p.z - o
  {
    if o == c.p.z then []
    else [Times(Expected(c.p, s, c.a, o, c.all[Chosen(c, o + 1)]), c.p.gamma)] + Continuations(c, s, o + 1)
  }

  /** Observation o moves its continuation from the remaining sum into entry s. */
  lemma ContinuationStep(c: BackupCall, cur: seq<real>, o: nat, s: nat)
    requires o < c.p.z && |cur| == c.p.n && s < c.p.n
    ensures AddObservation(c.p, c.a, o, c.all[Chosen(c, o + 1)], cur)[s] + Sum(Continuations(c, s, o + 1))
      == cur[s] + Sum(Continuations(c, s, o))
  {
    SumFront(Continuations(c, s, o));
    assert Continuations(c, s, o)[1..] == Continuations(c, s, o + 1);
    AddObservationAt(c.p, c.a, o, c.all[Chosen(c, o + 1)], cur, s);
  }

  /** The backup loop from observation o on adds, at state s, the continuations
      of the remaining observations. */
  lemma {:induction false} BackupFromIsSum(c: BackupCall, cur: seq<real>, o: nat, s: nat)
    requires o <= c.p.z && |cur| == c.p.n && s < c.p.n
    ensures BackupFrom(c.p, c.i, c.all, c.rGamma, c.a, Chosen(c, o), cur, o)[s]
      == cur[s] + Sum(Continuations(c, s, o))
    decreases c.p.z - o
  {
    if o < c.p.z {
      var next := AddObservation(c.p, c.a, o, c.all[Chosen(c, o + 1)], cur);
      BackupFromStep(c.p, c.i, c.all, c.rGamma, c.a, Chosen(c, o), cur, o, Chosen(c, o + 1), next);
      BackupFromIsSum(c, next, o + 1, s);
      ContinuationStep(c, cur, o, s);
    }
  }

  /** The Bellman backup at a stored belief: entry s of the candidate vector of
      action a is R(s, a) plus, over every observation o, gamma times the Expected
      value of the previous vector chosen for o. */
  lemma CandidateIsBackup(c: BackupCall, s: nat)
    requires s < c.p.n
    ensures Candidate(c.p, c.i, c.all, c.rGamma, c.a, c.seed)[s] == c.p.Reward(s, c.a) + Sum(Continuations(c, s, 0))
  {
    BackupFromIsSum(c, Rewards(c.p, c.a), 0, s);
  }

  /** The vector chosen for observation o is the first of the first rGamma vectors
      with the largest belief-restricted value when that value beats FLT_MIN;
      otherwise no value beats FLT_MIN and the choice of the observation before
      carries over (`seed` for the first observation). */
  lemma ChosenIsArgmax(c: BackupCall, o: nat)
    requires o < c.p.z
    ensures var xs := ObsValues(c.p, c.i, c.a, o, c.all, c.rGamma);
      var j := Chosen(c, o + 1);
      if SeededMax(xs) > FltMin then
        && j < c.rGamma
        && (forall k :: 0 <= k < c.rGamma ==> xs[k] <= xs[j])
        && (forall k :: 0 <= k < j ==> xs[k] < xs[j])
      else
        && (forall k :: 0 <= k < c.rGamma ==> xs[k] <= FltMin)
        && j == Chosen(c, o)
  {
    var xs := ObsValues(c.p, c.i, c.a, o, c.all, c.rGamma);
    FirstArgMaxIsFirst(xs, Chosen(c, o));
    SeededMaxIsMax(xs);
  }

  /** b·alpha reads stored belief i only up to its sentinel: two models of the
      same shape whose Z rows agree up to and including the sentinel, and whose
      B rows agree before it, give the same run and the same b·alpha. */
  lemma BDotAlphaIgnoresTail(p: ValidPomdp, q: ValidPomdp, i: nat, alpha: seq<real>)
    requires p.n == q.n && p.r == q.r && p.rz == q.rz && i < p.r && |alpha| == p.n
    requires forall k :: 0 <= k < p.rz && k <= RunLength(p.ZRow(i)) ==> q.ZRow(i)[k] == p.ZRow(i)[k]
    requires forall k :: 0 <= k < RunLength(p.ZRow(i)) ==> q.BRow(i)[k] == p.BRow(i)[k]
    ensures RunLength(q.ZRow(i)) == RunLength(p.ZRow(i))
    ensures BDotAlpha(q, i, alpha) == BDotAlpha(p, i, alpha)
  {
    RunFromIgnoresTail(p.ZRow(i), q.ZRow(i), 0);
    assert DotTerms(q, i, alpha) == DotTerms(p, i, alpha);
  }
}
