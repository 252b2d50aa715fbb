/**
 * Belief expansion: the Bayesian belief update b' = O * (T b) / Pr(o | b, a),
 * the probability of an observation, and the random-trajectory expansion that
 * fills a buffer with beliefs reached by following random actions and
 * observations from the initial belief.
 */
module Expand {
  import opened Sparse
  import opened Model

  // ---------------------------------------------------------------------------
  // Specification: the belief update
  // ---------------------------------------------------------------------------

  /** The vector of n zeros. */
  function ZeroVector(n: nat): (v: seq<real>)
    ensures |v| == n
  {
    seq(n, _ => 0.0)
  }

  /** w after moving the mass T[s][a][l] * b[s] of state s onto each of its first
      l successors. */
  function SpreadTo(p: ValidPomdp, a: nat, b: seq<real>, s: nat, l: nat, w: seq<real>): (v: seq<real>)
    requires a < p.m && |b| == p.n && s < p.n && l <= RunLength(p.SRow(s, a)) && |w| == p.n
    ensures |v| == p.n
    decreases l
  {
    if l == 0 then w
    else
      var v := SpreadTo(p, a, b, s, l - 1, w);
      var sp := p.Succ(s, a, l - 1);
      v[sp := v[sp] + Times(p.TRow(s, a)[l - 1], b[s])]
  }

  /** The predicted mass of every sp once the states below k have spread
      theirs, built the way the loop of the belief update builds it; FlowAt
      shows that entry sp is sum_{s < k} Sent(s, sp). */
  function Flow(p: ValidPomdp, a: nat, b: seq<real>, k: nat): (v: seq<real>)
    requires a < p.m && |b| == p.n && k <= p.n
    ensures |v| == p.n
  {
    if k == 0 then ZeroVector(p.n)
    else SpreadTo(p, a, b, k - 1, RunLength(p.SRow(k - 1, a)), Flow(p, a, b, k - 1))
  }

  /** The mass T[s][a][l] * b[s] that successor slot l of state s sends to sp. */
  function Into(p: ValidPomdp, a: nat, b: seq<real>, s: nat, sp: nat, l: nat): real
    requires a < p.m && |b| == p.n && s < p.n && l < RunLength(p.SRow(s, a))
  {
    if p.Succ(s, a, l) == sp then Times(p.TRow(s, a)[l], b[s]) else 0.0
  }

  /** Into over every successor slot of state s. */
  function IntoTerms(p: ValidPomdp, a: nat, b: seq<real>, s: nat, sp: nat): (ts: seq<real>)
    requires a < p.m && |b| == p.n && s < p.n
    ensures |ts| == RunLength(p.SRow(s, a))
  {
    seq(RunLength(p.SRow(s, a)), l requires 0 <= l < RunLength(p.SRow(s, a)) => Into(p, a, b, s, sp, l))
  }

  /** The mass T[s][a][sp] * b[s] that state s sends to sp, summed over the
      successor slots of s naming sp. */
  function Sent(p: ValidPomdp, a: nat, b: seq<real>, s: nat, sp: nat): real
    requires a < p.m && |b| == p.n && s < p.n
  {
    Sum(IntoTerms(p, a, b, s, sp))
  }

  /** Sent(s, sp) for every state s. */
  function SentTerms(p: ValidPomdp, a: nat, b: seq<real>, sp: nat): (ts: seq<real>)
    requires a < p.m && |b| == p.n
    ensures |ts| == p.n
  {
    seq(p.n, s requires 0 <= s < p.n => Sent(p, a, b, s, sp))
  }

  /** Entry sp of v multiplied by O[a][sp][o]. */
  function Weighted(p: ValidPomdp, a: nat, o: nat, v: seq<real>): (ws: seq<real>)
    requires a < p.m && o < p.z && |v| == p.n
    ensures |ws| == p.n
  {
    seq(p.n, sp requires 0 <= sp < p.n => Times(v[sp], p.Obs(a, sp, o)))
  }

  /** The unnormalised posterior: O[a][sp][o] * sum_s T[s][a][sp] * b[s]. */
  function Joint(p: ValidPomdp, b: seq<real>, a: nat, o: nat): (j: seq<real>)
    requires a < p.m && o < p.z && |b| == p.n
    ensures |j| == p.n
  {
    Weighted(p, a, o, Flow(p, a, b, p.n))
  }

  /** The normalising constant of the belief update. */
  function Normalizer(p: ValidPomdp, b: seq<real>, a: nat, o: nat): real
    requires a < p.m && o < p.z && |b| == p.n
  {
    Sum(Joint(p, b, a, o))
  }

  /** Every entry of xs divided by c. */
  function Divided(xs: seq<real>, c: real): (ys: seq<real>)
    requires c != 0.0
    ensures |ys| == |xs|
  {
    seq(|xs|, k requires 0 <= k < |xs| => xs[k] / c)
  }

  /** The belief after taking action a in belief b and observing o. */
  function Posterior(p: ValidPomdp, b: seq<real>, a: nat, o: nat): (bp: seq<real>)
    requires a < p.m && o < p.z && |b| == p.n && Normalizer(p, b, a, o) != 0.0
    ensures |bp| == p.n
  {
    Divided(Joint(p, b, a, o), Normalizer(p, b, a, o))
  }

  // ---------------------------------------------------------------------------
  // Specification: the probability of an observation
  // ---------------------------------------------------------------------------

  /** The products T[s][a][l] * O[a][sp][o] over the successors sp of (s, a). */
  function LikelihoodTerms(p: ValidPomdp, s: nat, a: nat, o: nat): (ts: seq<real>)
    requires s < p.n && a < p.m && o < p.z
    ensures |ts| == RunLength(p.SRow(s, a))
  {
    seq(RunLength(p.SRow(s, a)), l requires 0 <= l < RunLength(p.SRow(s, a)) =>
      Times(p.TRow(s, a)[l], p.Obs(a, p.Succ(s, a, l), o)))
  }

  /** Pr(o | s, a): the probability of observing o after taking a in state s. */
  function Likelihood(p: ValidPomdp, s: nat, a: nat, o: nat): real
    requires s < p.n && a < p.m && o < p.z
  {
    Sum(LikelihoodTerms(p, s, a, o))
  }

  /** The products Pr(o | s, a) * b[s] over all states s. */
  function EvidenceTerms(p: ValidPomdp, b: seq<real>, a: nat, o: nat): (ts: seq<real>)
    requires a < p.m && o < p.z && |b| == p.n
    ensures |ts| == p.n
  {
    seq(p.n, s requires 0 <= s < p.n => Times(Likelihood(p, s, a, o), b[s]))
  }

  /** Pr(o | b, a): the probability of observing o after taking a in belief b. */
  function Evidence(p: ValidPomdp, b: seq<real>, a: nat, o: nat): real
    requires a < p.m && o < p.z && |b| == p.n
  {
    Sum(EvidenceTerms(p, b, a, o))
  }

  /** Pr(o | b, a) for every observation o. */
  function Observations(p: ValidPomdp, b: seq<real>, a: nat): (xs: seq<real>)
    requires a < p.m && |b| == p.n
    ensures |xs| == p.z
  {
    seq(p.z, o requires 0 <= o < p.z => Evidence(p, b, a, o))
  }

  /** The cumulative probability of the observations up to and including j. */
  function Cumulative(xs: seq<real>, j: nat): real
    requires j < |xs|
  {
    Sum(xs[..j + 1])
  }

  /** The first observation, from k on, at which the cumulative probability
      reaches the target, or observation 0 when none does. */
  function FirstCrossing(xs: seq<real>, target: real, k: nat): (o: nat)
    requires k <= |xs|
    ensures o < |xs| || o == 0
    decreases |xs| - k
  {
    if k == |xs| then 0
    else if Cumulative(xs, k) >= target then k
    else FirstCrossing(xs, target, k + 1)
  }

  // ---------------------------------------------------------------------------
  // Specification: the random expansion
  // ---------------------------------------------------------------------------

  /** The dense initial belief after copying the first k entries of stored
      belief 0 into a vector of zeros. */
  function Dense(p: ValidPomdp, k: nat): (v: seq<real>)
    requires p.r > 0 && k <= RunLength(p.ZRow(0))
    ensures |v| == p.n
  {
    if k == 0 then ZeroVector(p.n)
    else Dense(p, k - 1)[p.BeliefState(0, k - 1) := p.BRow(0)[k - 1]]
  }

  /** The initial belief b0: stored belief 0 made dense. */
  function Initial(p: ValidPomdp): (b0: seq<real>)
    requires p.r > 0
    ensures |b0| == p.n
  {
    Dense(p, RunLength(p.ZRow(0)))
  }

  /** The number of strictly positive entries of xs. */
  function Positives(xs: seq<real>): (c: nat)
    ensures c <= |xs|
  {
    if |xs| == 0 then 0
    else Positives(xs[..|xs| - 1]) + if xs[|xs| - 1] > 0.0 then 1 else 0
  }

  /** The running maximum of mx and the positive counts of each row of rows. */
  function Track(mx: nat, rows: seq<seq<real>>): nat {
    if |rows| == 0 then mx
    else
      var prev := Track(mx, rows[..|rows| - 1]);
      var c := Positives(rows[|rows| - 1]);
      if c > prev then c else prev
  }

  /** The rows of a flat row-major buffer, concatenated. */
  function Flat(rows: seq<seq<real>>): seq<real> {
    if |rows| == 0 then [] else Flat(rows[..|rows| - 1]) + rows[|rows| - 1]
  }

  /** What the expansion reads without checking: a stored initial belief, an
      action and an observation to choose. */
  predicate Expandable(p: ValidPomdp) {
    p.r > 0 && p.m > 0 && p.z > 0
  }

  /** Every draw is a value rand() / RAND_MAX below 1. */
  predicate DrawsFit(draws: seq<real>) {
    forall k :: 0 <= k < |draws| ==> 0.0 <= draws[k] < 1.0
  }

  /** How an expansion or a trajectory ends. For an expansion, Filled means the
      quota of beliefs is met; for a trajectory (Walk, Trajectory) it means there
      was no early stop: all h steps ran or the quota was met on the way.
      OutOfDraws: the injected draws ran out. Degenerate: an observation of
      probability zero made the update undefined. */
  datatype Outcome = Filled | OutOfDraws | Degenerate

  /** The state of the expansion after a trajectory. */
  datatype Trip = Trip(outcome: Outcome, b: seq<real>, rows: seq<seq<real>>, maxNonZero: nat, cursor: nat)

  /** The result of an expansion: how it ended, the beliefs written in order and
      the final maxNonZeroValues. */
  datatype Expansion = Expansion(outcome: Outcome, rows: seq<seq<real>>, maxNonZero: nat)

  /** One step of a trajectory from belief b: the action Pick(ua, m), the first
      observation whose cumulative probability reaches ut, and the belief after
      both, or None when that observation has probability zero. */
  function Moved(p: ValidPomdp, b: seq<real>, ua: real, ut: real): (next: Option<seq<real>>)
    requires Expandable(p) && |b| == p.n && 0.0 <= ua < 1.0
    ensures next.Some? ==> |next.value| == p.n
  {
    var a := Pick(ua, p.m);
    var o := FirstCrossing(Observations(p, b, a), ut, 0);
    if Normalizer(p, b, a, o) == 0.0 then None else Some(Posterior(p, b, a, o))
  }

  /** A trajectory step as a value: the belief and the two draws it consumes. */
  type Step = (seq<real>, real, real) -> Option<seq<real>>

  /** The step of model p. */
  function Law(p: ValidPomdp): Step {
    (b: seq<real>, ua: real, ut: real) =>
      if Expandable(p) && |b| == p.n && 0.0 <= ua < 1.0 then Moved(p, b, ua, ut) else None
  }

  /** step takes every belief of p the way Moved does. */
  ghost predicate Implements(p: ValidPomdp, step: Step)
    requires Expandable(p)
  {
    forall b: seq<real>, ua: real, ut: real {:trigger Moved(p, b, ua, ut)} ::
      |b| == p.n && 0.0 <= ua < 1.0 ==> step(b, ua, ut) == Moved(p, b, ua, ut)
  }

  /** Steps t..h-1 of one trajectory from belief b: each step takes an action
      draw draws[c] and a target draw draws[c + 1], records the belief the step
      leads to, and stops early once the quota is met. */
  function Walk(step: Step, numDesired: nat, b: seq<real>, t: nat, h: nat, rows: seq<seq<real>>,
                mx: nat, draws: seq<real>, c: nat): (w: Trip)
    requires t <= h && c <= |draws|
    ensures c <= w.cursor <= |draws|
    decreases h - t
  {
    if t == h then Trip(Filled, b, rows, mx, c)
    else if |draws| < c + 2 then Trip(OutOfDraws, b, rows, mx, c)
    else match step(b, draws[c], draws[c + 1])
      case None => Trip(Degenerate, b, rows, mx, c + 2)
      case Some(b') =>
        var mx' := if Positives(b') > mx then Positives(b') else mx;
        if |rows| + 1 >= numDesired then Trip(Filled, b', rows + [b'], mx', c + 2)
        else Walk(step, numDesired, b', t + 1, h, rows + [b'], mx', draws, c + 2)
  }

  /** The expansion loop from the cursor c on: while the quota is not met, a
      trajectory of length Pick(draws[c], horizon + 1) from b0. */
  function Explore(step: Step, horizon: nat, numDesired: nat, b0: seq<real>, rows: seq<seq<real>>,
                   mx: nat, draws: seq<real>, c: nat): Expansion
    requires DrawsFit(draws) && c <= |draws|
    decreases |draws| - c
  {
    if |rows| >= numDesired then Expansion(Filled, rows, mx)
    else if c == |draws| then Expansion(OutOfDraws, rows, mx)
    else
      var w := Walk(step, numDesired, b0, 0, Pick(draws[c], horizon + 1), rows, mx, draws, c + 1);
      if w.outcome != Filled then Expansion(w.outcome, w.rows, w.maxNonZero)
      else Explore(step, horizon, numDesired, b0, w.rows, w.maxNonZero, draws, w.cursor)
  }

  /** The whole expansion of model p from its initial belief. */
  function Expanded(p: ValidPomdp, numDesired: nat, maxNonZero: nat, draws: seq<real>): Expansion
    requires Expandable(p) && DrawsFit(draws)
  {
    Explore(Law(p), p.horizon, numDesired, Initial(p), [], maxNonZero, draws, 0)
  }

  // ---------------------------------------------------------------------------
  // Properties: the belief update
  // ---------------------------------------------------------------------------

  /** Entries of a vector that are non-negative. */
  predicate NonNegative(xs: seq<real>) {
    forall k :: 0 <= k < |xs| ==> xs[k] >= 0.0
  }

  /** Transition, observation and stored-belief probabilities are non-negative. */
  predicate NonNegativeTables(p: Pomdp) {
    && NonNegative(p.T) && NonNegative(p.O) && NonNegative(p.B)
  }

  lemma TimesAddLeft(x: real, y: real, c: real)
    ensures Times(x + y, c) == Times(x, c) + Times(y, c)
  {
  }

  lemma TimesSwap(t: real, b: real, o: real)
    ensures Times(Times(t, b), o) == Times(Times(t, o), b)
  {
  }

  /** Raising one entry of xs by d raises its sum by d. */
  lemma {:induction false} SumUpdate(xs: seq<real>, k: nat, d: real)
    requires k < |xs|
    ensures Sum(xs[k := xs[k] + d]) == Sum(xs) + d
  {
    var last := |xs| - 1;
    var ys := xs[k := xs[k] + d];
    if k == last {
      assert ys[..last] == xs[..last];
    } else {
      SumUpdate(xs[..last], k, d);
      assert ys[..last] == xs[..last][k := xs[k] + d];
    }
  }

  /** A sequence of zeros sums to zero. */
  lemma {:induction false} SumZeros(xs: seq<real>)
    requires forall k :: 0 <= k < |xs| ==> xs[k] == 0.0
    ensures Sum(xs) == 0.0
  {
    if |xs| > 0 {
      SumZeros(xs[..|xs| - 1]);
    }
  }

  /** Moving the mass of the first l successors of s adds, once weighted by the
      observation probabilities, b[s] times their partial likelihood. */
  lemma {:induction false} SpreadWeight(p: ValidPomdp, a: nat, o: nat, b: seq<real>, s: nat, l: nat, w: seq<real>)
    requires a < p.m && o < p.z && |b| == p.n && s < p.n && l <= RunLength(p.SRow(s, a)) && |w| == p.n
    ensures Sum(Weighted(p, a, o, SpreadTo(p, a, b, s, l, w)))
         == Sum(Weighted(p, a, o, w)) + Times(Sum(LikelihoodTerms(p, s, a, o)[..l]), b[s])
  {
    var ts := LikelihoodTerms(p, s, a, o);
    if l == 0 {
      assert ts[..0] == [];
    } else {
      SpreadWeight(p, a, o, b, s, l - 1, w);
      var v := SpreadTo(p, a, b, s, l - 1, w);
      var sp := p.Succ(s, a, l - 1);
      var t := p.TRow(s, a)[l - 1];
      var d := Times(t, b[s]);
      var wv := Weighted(p, a, o, v);
      TimesAddLeft(v[sp], d, p.Obs(a, sp, o));
      assert Weighted(p, a, o, v[sp := v[sp] + d]) == wv[sp := wv[sp] + Times(d, p.Obs(a, sp, o))];
      SumUpdate(wv, sp, Times(d, p.Obs(a, sp, o)));
      SumStep(ts, l - 1);
      TimesAddLeft(Sum(ts[..l - 1]), ts[l - 1], b[s]);
      TimesSwap(t, b[s], p.Obs(a, sp, o));
    }
  }

  /** The weighted mass once the states below k have spread theirs. */
  function Mass(p: ValidPomdp, a: nat, o: nat, b: seq<real>, k: nat): real
    requires a < p.m && o < p.z && |b| == p.n && k <= p.n
  {
    Sum(Weighted(p, a, o, Flow(p, a, b, k)))
  }

  /** Spreading state k adds its evidence term to the weighted mass. */
  lemma MassStep(p: ValidPomdp, a: nat, o: nat, b: seq<real>, k: nat)
    requires a < p.m && o < p.z && |b| == p.n && k < p.n
    ensures Mass(p, a, o, b, k + 1) == Mass(p, a, o, b, k) + EvidenceTerms(p, b, a, o)[k]
  {
    var run := RunLength(p.SRow(k, a));
    var lt := LikelihoodTerms(p, k, a, o);
    SpreadWeight(p, a, o, b, k, run, Flow(p, a, b, k));
    assert lt[..run] == lt;
  }

  /** Before any state has spread, the weighted mass is zero. */
  lemma MassZero(p: ValidPomdp, a: nat, o: nat, b: seq<real>)
    requires a < p.m && o < p.z && |b| == p.n
    ensures Mass(p, a, o, b, 0) == 0.0
  {
    SumZeros(Weighted(p, a, o, Flow(p, a, b, 0)));
  }

  /** A running total that grows by ts[k - 1] from the sum of ts[..k - 1] is
      the sum of ts[..k]. */
  lemma PrefixChain(ts: seq<real>, k: nat, next: real, prev: real)
    requires 0 < k <= |ts| && next == prev + ts[k - 1] && prev == Sum(ts[..k - 1])
    ensures next == Sum(ts[..k])
  {
    SumStep(ts, k - 1);
  }

  /** After the states below k have spread, the weighted mass is the sum of
      the first k evidence terms. */
  lemma {:induction false} MassPrefix(p: ValidPomdp, a: nat, o: nat, b: seq<real>, k: nat)
    requires a < p.m && o < p.z && |b| == p.n && k <= p.n
    ensures Mass(p, a, o, b, k) == Sum(EvidenceTerms(p, b, a, o)[..k])
  {
    if k == 0 {
      MassZero(p, a, o, b);
    } else {
      var j := k - 1;
      MassStep(p, a, o, b, j);
      assert j + 1 == k;
      MassPrefix(p, a, o, b, j);
      PrefixChain(EvidenceTerms(p, b, a, o), k, Mass(p, a, o, b, k), Mass(p, a, o, b, k - 1));
    }
  }

  /** Spreading the first l slots of state s adds to entry sp exactly the mass
      those slots send to sp. */
  lemma {:induction false} SpreadToAt(p: ValidPomdp, a: nat, b: seq<real>, s: nat, l: nat, w: seq<real>, sp: nat)
    requires a < p.m && |b| == p.n && s < p.n && l <= RunLength(p.SRow(s, a)) && |w| == p.n && sp < p.n
    ensures SpreadTo(p, a, b, s, l, w)[sp] == w[sp] + Sum(IntoTerms(p, a, b, s, sp)[..l])
    decreases l
  {
    var ts := IntoTerms(p, a, b, s, sp);
    if l == 0 {
      assert ts[..0] == [];
    } else {
      SpreadToAt(p, a, b, s, l - 1, w, sp);
      SumStep(ts, l - 1);
      assert ts[l - 1] == Into(p, a, b, s, sp, l - 1);
    }
  }

  /** Spreading state k adds to entry sp the mass k sends there. */
  lemma FlowStepAt(p: ValidPomdp, a: nat, b: seq<real>, k: nat, sp: nat)
    requires a < p.m && |b| == p.n && k < p.n && sp < p.n
    ensures Flow(p, a, b, k + 1)[sp] == Flow(p, a, b, k)[sp] + SentTerms(p, a, b, sp)[k]
  {
    var its := IntoTerms(p, a, b, k, sp);
    SpreadToAt(p, a, b, k, RunLength(p.SRow(k, a)), Flow(p, a, b, k), sp);
    assert its[..|its|] == its;
  }

  /** Entry sp of the predicted mass is the closed form sum_{s < k} Sent(s, sp):
      the transition mass into sp from every state below k, weighted by b. */
  lemma {:induction false} FlowAt(p: ValidPomdp, a: nat, b: seq<real>, k: nat, sp: nat)
    requires a < p.m && |b| == p.n && k <= p.n && sp < p.n
    ensures Flow(p, a, b, k)[sp] == Sum(SentTerms(p, a, b, sp)[..k])
  {
    if k == 0 {
      assert SentTerms(p, a, b, sp)[..0] == [];
    } else {
      var j := k - 1;
      FlowStepAt(p, a, b, j, sp);
      assert j + 1 == k;
      FlowAt(p, a, b, j, sp);
      PrefixChain(SentTerms(p, a, b, sp), k, Flow(p, a, b, k)[sp], Flow(p, a, b, k - 1)[sp]);
    }
  }

  /** The normalising constant of the belief update is the probability of the
      observation: the update's state-by-successor accumulation and
      probability_observation's successor-by-state sum add the same products. */
  lemma NormalizerIsEvidence(p: ValidPomdp, b: seq<real>, a: nat, o: nat)
    requires |b| == p.n && a < p.m && o < p.z
    ensures Normalizer(p, b, a, o) == Evidence(p, b, a, o)
  {
    MassPrefix(p, a, o, b, p.n);
    assert EvidenceTerms(p, b, a, o)[..p.n] == EvidenceTerms(p, b, a, o);
  }

  lemma DivAdd(x: real, y: real, c: real)
    requires c != 0.0
    ensures (x + y) / c == x / c + y / c
  {
  }

  /** Dividing every entry by c divides the sum by c. */
  lemma {:induction false} SumDivided(xs: seq<real>, c: real)
    requires c != 0.0
    ensures Sum(Divided(xs, c)) == Sum(xs) / c
  {
    if |xs| > 0 {
      var k := |xs| - 1;
      SumDivided(xs[..k], c);
      assert Divided(xs, c)[..k] == Divided(xs[..k], c);
      DivAdd(Sum(xs[..k]), xs[k], c);
    }
  }

  /** A non-negative sequence has a non-negative sum. */
  lemma {:induction false} SumNonNegative(xs: seq<real>)
    requires NonNegative(xs)
    ensures Sum(xs) >= 0.0
  {
    if |xs| > 0 {
      SumNonNegative(xs[..|xs| - 1]);
    }
  }

  /** Spreading non-negative mass keeps a vector non-negative. */
  lemma {:induction false} SpreadNonNegative(p: ValidPomdp, a: nat, b: seq<real>, s: nat, l: nat, w: seq<real>)
    requires a < p.m && |b| == p.n && s < p.n && l <= RunLength(p.SRow(s, a)) && |w| == p.n
    requires NonNegativeTables(p) && NonNegative(b) && NonNegative(w)
    ensures NonNegative(SpreadTo(p, a, b, s, l, w))
  {
    if l > 0 {
      SpreadNonNegative(p, a, b, s, l - 1, w);
      assert p.TRow(s, a)[l - 1] == p.T[p.SBase(s, a) + l - 1];
    }
  }

  /** The predicted mass of a non-negative belief is non-negative. */
  lemma {:induction false} FlowNonNegative(p: ValidPomdp, a: nat, b: seq<real>, k: nat)
    requires a < p.m && |b| == p.n && k <= p.n && NonNegativeTables(p) && NonNegative(b)
    ensures NonNegative(Flow(p, a, b, k))
  {
    if k > 0 {
      FlowNonNegative(p, a, b, k - 1);
      SpreadNonNegative(p, a, b, k - 1, RunLength(p.SRow(k - 1, a)), Flow(p, a, b, k - 1));
    }
  }

  lemma ObsNonNegative(p: ValidPomdp, a: nat, sp: nat, o: nat)
    requires a < p.m && sp < p.n && o < p.z && NonNegative(p.O)
    ensures p.Obs(a, sp, o) >= 0.0
  {
    MulCell(a, sp, p.m, p.n);
    MulCell(Mul(a, p.n) + sp, o, Mul(p.m, p.n), p.z);
    MulIs(p.m, p.n);
    MulIs(Mul(p.m, p.n), p.z);
    assert p.O[Mul(Mul(a, p.n) + sp, p.z) + o] >= 0.0;
  }

  /** Weighting a non-negative vector by non-negative observation
      probabilities keeps it non-negative. */
  lemma WeightedNonNegative(p: ValidPomdp, a: nat, o: nat, v: seq<real>)
    requires a < p.m && o < p.z && |v| == p.n && NonNegativeTables(p) && NonNegative(v)
    ensures NonNegative(Weighted(p, a, o, v))
  {
    forall sp | 0 <= sp < p.n
      ensures Weighted(p, a, o, v)[sp] >= 0.0
    {
      ObsNonNegative(p, a, sp, o);
    }
  }

  /** Dividing a non-negative vector by its positive sum keeps it non-negative. */
  lemma DividedNonNegative(xs: seq<real>, c: real)
    requires NonNegative(xs) && c > 0.0
    ensures NonNegative(Divided(xs, c))
  {
  }

  /** The belief update yields a probability vector: its entries sum to one and,
      for non-negative tables and belief, they are non-negative. */
  lemma PosteriorIsDistribution(p: ValidPomdp, b: seq<real>, a: nat, o: nat)
    requires |b| == p.n && a < p.m && o < p.z && Normalizer(p, b, a, o) != 0.0
    ensures Sum(Posterior(p, b, a, o)) == 1.0
    ensures NonNegativeTables(p) && NonNegative(b) ==> NonNegative(Posterior(p, b, a, o))
  {
    var joint := Joint(p, b, a, o);
    var c := Normalizer(p, b, a, o);
    SumDivided(joint, c);
    if NonNegativeTables(p) && NonNegative(b) {
      FlowNonNegative(p, a, b, p.n);
      WeightedNonNegative(p, a, o, Flow(p, a, b, p.n));
      SumNonNegative(joint);
      DividedNonNegative(joint, c);
    }
  }

  // ---------------------------------------------------------------------------
  // Properties: the probability of an observation
  // ---------------------------------------------------------------------------

  /** Every observation probability of the table O is at most 1. */
  predicate ObsAtMostOne(p: Pomdp) {
    forall k :: 0 <= k < |p.O| ==> p.O[k] <= 1.0
  }

  /** The transition probabilities of the successor run of every state under
      action a sum to at most 1. */
  predicate SubStochastic(p: ValidPomdp, a: nat)
    requires a < p.m
  {
    forall s :: 0 <= s < p.n ==> Sum(p.TRow(s, a)[..RunLength(p.SRow(s, a))]) <= 1.0
  }

  /** Sums are monotone in every element. */
  lemma {:induction false} SumMono(xs: seq<real>, ys: seq<real>)
    requires |xs| == |ys| && forall k :: 0 <= k < |xs| ==> xs[k] <= ys[k]
    ensures Sum(xs) <= Sum(ys)
  {
    if |xs| > 0 {
      SumMono(xs[..|xs| - 1], ys[..|ys| - 1]);
    }
  }

  lemma ObsAtMost(p: ValidPomdp, a: nat, sp: nat, o: nat)
    requires a < p.m && sp < p.n && o < p.z && ObsAtMostOne(p)
    ensures p.Obs(a, sp, o) <= 1.0
  {
    MulCell(a, sp, p.m, p.n);
    MulCell(Mul(a, p.n) + sp, o, Mul(p.m, p.n), p.z);
    MulIs(p.m, p.n);
    MulIs(Mul(p.m, p.n), p.z);
    assert p.O[Mul(Mul(a, p.n) + sp, p.z) + o] <= 1.0;
  }

  /** A product of a non-negative x with a factor of at most 1 is at most x. */
  lemma TimesAtMost(x: real, y: real)
    requires x >= 0.0 && y <= 1.0
    ensures Times(x, y) <= x
  {
    assert x * (1.0 - y) >= 0.0;
  }

  /** A factor of at most 1 times a non-negative y is at most y. */
  lemma TimesAtMostLeft(x: real, y: real)
    requires x <= 1.0 && y >= 0.0
    ensures Times(x, y) <= y
  {
    assert (1.0 - x) * y >= 0.0;
  }

  /** Pr(o | s, a) is at most 1 when the successor run's probabilities sum to at
      most 1 and every observation probability is at most 1. */
  lemma LikelihoodAtMostOne(p: ValidPomdp, s: nat, a: nat, o: nat)
    requires s < p.n && a < p.m && o < p.z
    requires NonNegative(p.T) && ObsAtMostOne(p) && SubStochastic(p, a)
    ensures Likelihood(p, s, a, o) <= 1.0
  {
    var run := RunLength(p.SRow(s, a));
    var ts := p.TRow(s, a)[..run];
    var lt := LikelihoodTerms(p, s, a, o);
    forall l | 0 <= l < run
      ensures lt[l] <= ts[l]
    {
      assert p.TRow(s, a)[l] == p.T[p.SBase(s, a) + l];
      ObsAtMost(p, a, p.Succ(s, a, l), o);
      TimesAtMost(p.TRow(s, a)[l], p.Obs(a, p.Succ(s, a, l), o));
    }
    SumMono(lt, ts);
  }

  /** The observation probability of a non-negative belief is non-negative, and
      it is at most 1 when the tables are sub-stochastic and b has mass at most 1. */
  lemma EvidenceInUnit(p: ValidPomdp, b: seq<real>, a: nat, o: nat)
    requires a < p.m && o < p.z && |b| == p.n && NonNegativeTables(p) && NonNegative(b)
    ensures Evidence(p, b, a, o) >= 0.0
    ensures ObsAtMostOne(p) && SubStochastic(p, a) && Sum(b) <= 1.0 ==> Evidence(p, b, a, o) <= 1.0
  {
    NormalizerIsEvidence(p, b, a, o);
    FlowNonNegative(p, a, b, p.n);
    WeightedNonNegative(p, a, o, Flow(p, a, b, p.n));
    SumNonNegative(Joint(p, b, a, o));
    if ObsAtMostOne(p) && SubStochastic(p, a) && Sum(b) <= 1.0 {
      var et := EvidenceTerms(p, b, a, o);
      forall s | 0 <= s < p.n
        ensures et[s] <= b[s]
      {
        LikelihoodAtMostOne(p, s, a, o);
        TimesAtMostLeft(Likelihood(p, s, a, o), b[s]);
      }
      SumMono(et, b);
    }
  }

  // ---------------------------------------------------------------------------
  // Properties: choosing the observation
  // ---------------------------------------------------------------------------

  /** FirstCrossing from k, when every earlier cumulative probability is below
      the target. */
  lemma {:induction false} CrossingFrom(xs: seq<real>, target: real, k: nat)
    requires k <= |xs| && forall j :: 0 <= j < k ==> Cumulative(xs, j) < target
    ensures (exists j :: k <= j < |xs| && Cumulative(xs, j) >= target) ==>
      && FirstCrossing(xs, target, k) < |xs| && Cumulative(xs, FirstCrossing(xs, target, k)) >= target
      && forall j :: 0 <= j < FirstCrossing(xs, target, k) ==> Cumulative(xs, j) < target
    ensures (forall j :: k <= j < |xs| ==> Cumulative(xs, j) < target) ==> FirstCrossing(xs, target, k) == 0
    decreases |xs| - k
  {
    if k < |xs| && Cumulative(xs, k) < target {
      CrossingFrom(xs, target, k + 1);
    }
  }

  /** The chosen observation is the first whose cumulative probability reaches
      the target, and observation 0 when no cumulative probability does. */
  lemma FirstCrossingIsFirst(xs: seq<real>, target: real)
    ensures (exists j :: 0 <= j < |xs| && Cumulative(xs, j) >= target) ==>
      && FirstCrossing(xs, target, 0) < |xs| && Cumulative(xs, FirstCrossing(xs, target, 0)) >= target
      && forall j :: 0 <= j < FirstCrossing(xs, target, 0) ==> Cumulative(xs, j) < target
    ensures (forall j :: 0 <= j < |xs| ==> Cumulative(xs, j) < target) ==> FirstCrossing(xs, target, 0) == 0
  {
    CrossingFrom(xs, target, 0);
  }

  // ---------------------------------------------------------------------------
  // Properties: the initial belief and the support count
  // ---------------------------------------------------------------------------

  /** Entry s of the dense belief is the probability of the last of the first k
      entries of stored belief 0 naming s, and zero when none names it. */
  lemma {:induction false} DenseAt(p: ValidPomdp, k: nat, s: nat)
    requires p.r > 0 && k <= RunLength(p.ZRow(0)) && s < p.n
    ensures (forall j :: 0 <= j < k ==> p.ZRow(0)[j] != s) ==> Dense(p, k)[s] == 0.0
    ensures forall j :: 0 <= j < k && p.ZRow(0)[j] == s && (forall i :: j < i < k ==> p.ZRow(0)[i] != s) ==>
      Dense(p, k)[s] == p.BRow(0)[j]
  {
    if k > 0 {
      var j := k - 1;
      DenseAt(p, j, s);
      DenseStep(p, j, s);
      assert j + 1 == k;
    }
  }

  /** Copying entry k of stored belief 0 changes only the state it names. */
  lemma DenseStep(p: ValidPomdp, k: nat, s: nat)
    requires p.r > 0 && k < RunLength(p.ZRow(0)) && s < p.n
    ensures Dense(p, k + 1)[s] == if p.ZRow(0)[k] == s then p.BRow(0)[k] else Dense(p, k)[s]
  {
  }

  /** The initial belief of non-negative stored probabilities is non-negative. */
  lemma {:induction false} DenseNonNegative(p: ValidPomdp, k: nat)
    requires p.r > 0 && k <= RunLength(p.ZRow(0)) && NonNegativeTables(p)
    ensures NonNegative(Dense(p, k))
  {
    if k > 0 {
      DenseNonNegative(p, k - 1);
      assert p.BRow(0)[k - 1] == p.B[p.ZBase(0) + k - 1];
    }
  }

  /** Every entry is positive exactly when the count is the length, and none is
      exactly when the count is zero. */
  lemma {:induction false} PositivesCount(xs: seq<real>)
    ensures Positives(xs) == |xs| <==> forall k :: 0 <= k < |xs| ==> xs[k] > 0.0
    ensures Positives(xs) == 0 <==> forall k :: 0 <= k < |xs| ==> xs[k] <= 0.0
  {
    if |xs| > 0 {
      var last := |xs| - 1;
      PositivesCount(xs[..last]);
      assert forall k :: 0 <= k < last ==> xs[..last][k] == xs[k];
    }
  }

  /** The tracked maximum bounds mx and every row's count, and is one of them. */
  lemma {:induction false} TrackIsMax(mx: nat, rows: seq<seq<real>>)
    ensures Track(mx, rows) >= mx
    ensures forall k :: 0 <= k < |rows| ==> Track(mx, rows) >= Positives(rows[k])
    ensures Track(mx, rows) == mx || exists k :: 0 <= k < |rows| && Track(mx, rows) == Positives(rows[k])
  {
    if |rows| > 0 {
      var last := |rows| - 1;
      TrackIsMax(mx, rows[..last]);
      assert forall k :: 0 <= k < last ==> rows[..last][k] == rows[k];
    }
  }

  // ---------------------------------------------------------------------------
  // Properties: the expansion
  // ---------------------------------------------------------------------------

  /** A trajectory only appends rows, never beyond the quota, and stops short of
      the quota unless it ends normally. */
  lemma {:induction false} WalkBounds(step: Step, numDesired: nat, b: seq<real>, t: nat, h: nat,
                                      rows: seq<seq<real>>, mx: nat, draws: seq<real>, c: nat)
    requires t <= h && c <= |draws| && |rows| < numDesired
    ensures var w := Walk(step, numDesired, b, t, h, rows, mx, draws, c);
      && |rows| <= |w.rows| <= numDesired && w.rows[..|rows|] == rows
      && (w.outcome != Filled ==> |w.rows| < numDesired)
    decreases h - t
  {
    if t < h && c + 2 <= |draws| && step(b, draws[c], draws[c + 1]).Some? {
      var b' := step(b, draws[c], draws[c + 1]).value;
      var mx' := if Positives(b') > mx then Positives(b') else mx;
      if |rows| + 1 < numDesired {
        WalkBounds(step, numDesired, b', t + 1, h, rows + [b'], mx', draws, c + 2);
        var w := Walk(step, numDesired, b', t + 1, h, rows + [b'], mx', draws, c + 2);
        assert w.rows[..|rows|] == w.rows[..|rows| + 1][..|rows|];
      }
    }
  }

  /** The expansion writes at most the quota, only appends, and meets the quota
      exactly when it ends Filled. */
  lemma {:induction false} ExploreBounds(step: Step, horizon: nat, numDesired: nat, b0: seq<real>,
                                         rows: seq<seq<real>>, mx: nat, draws: seq<real>, c: nat)
    requires DrawsFit(draws) && c <= |draws| && |rows| <= numDesired
    ensures var e := Explore(step, horizon, numDesired, b0, rows, mx, draws, c);
      && |rows| <= |e.rows| <= numDesired && e.rows[..|rows|] == rows
      && (e.outcome == Filled <==> |e.rows| == numDesired)
    decreases |draws| - c
  {
    if |rows| < numDesired && c < |draws| {
      var h := Pick(draws[c], horizon + 1);
      WalkBounds(step, numDesired, b0, 0, h, rows, mx, draws, c + 1);
      var w := Walk(step, numDesired, b0, 0, h, rows, mx, draws, c + 1);
      if w.outcome == Filled {
        ExploreBounds(step, horizon, numDesired, b0, w.rows, w.maxNonZero, draws, w.cursor);
        var e := Explore(step, horizon, numDesired, b0, w.rows, w.maxNonZero, draws, w.cursor);
        assert e.rows[..|rows|] == e.rows[..|w.rows|][..|rows|];
      }
    }
  }

  /** Along a trajectory, maxNonZeroValues stays the running maximum of the
      initial value and the support of every recorded belief. */
  lemma {:induction false} WalkTracks(step: Step, numDesired: nat, b: seq<real>, t: nat, h: nat,
                                      rows: seq<seq<real>>, mx: nat, draws: seq<real>, c: nat, m0: nat)
    requires t <= h && c <= |draws| && mx == Track(m0, rows)
    ensures var w := Walk(step, numDesired, b, t, h, rows, mx, draws, c); w.maxNonZero == Track(m0, w.rows)
    decreases h - t
  {
    if t < h && c + 2 <= |draws| && step(b, draws[c], draws[c + 1]).Some? {
      var b' := step(b, draws[c], draws[c + 1]).value;
      var mx' := if Positives(b') > mx then Positives(b') else mx;
      assert (rows + [b'])[..|rows|] == rows;
      assert mx' == Track(m0, rows + [b']);
      if |rows| + 1 < numDesired {
        WalkTracks(step, numDesired, b', t + 1, h, rows + [b'], mx', draws, c + 2, m0);
      }
    }
  }

  /** Over the whole expansion, maxNonZeroValues is the running maximum. */
  lemma {:induction false} ExploreTracks(step: Step, horizon: nat, numDesired: nat, b0: seq<real>,
                                         rows: seq<seq<real>>, mx: nat, draws: seq<real>, c: nat, m0: nat)
    requires DrawsFit(draws) && c <= |draws| && mx == Track(m0, rows)
    ensures var e := Explore(step, horizon, numDesired, b0, rows, mx, draws, c); e.maxNonZero == Track(m0, e.rows)
    decreases |draws| - c
  {
    if |rows| < numDesired && c < |draws| {
      var h := Pick(draws[c], horizon + 1);
      WalkTracks(step, numDesired, b0, 0, h, rows, mx, draws, c + 1, m0);
      var w := Walk(step, numDesired, b0, 0, h, rows, mx, draws, c + 1);
      if w.outcome == Filled {
        ExploreTracks(step, horizon, numDesired, b0, w.rows, w.maxNonZero, draws, w.cursor, m0);
      }
    }
  }

  /** Beliefs that sum to one and, for non-negative tables, are non-negative. */
  predicate Beliefs(p: ValidPomdp, rows: seq<seq<real>>) {
    forall k :: 0 <= k < |rows| ==> Sum(rows[k]) == 1.0 && (NonNegativeTables(p) ==> NonNegative(rows[k]))
  }

  /** A step of the model from a belief yields a belief. */
  lemma MovedIsBelief(p: ValidPomdp, b: seq<real>, ua: real, ut: real)
    requires Expandable(p) && |b| == p.n && 0.0 <= ua < 1.0
    ensures Moved(p, b, ua, ut).Some? ==>
      Sum(Moved(p, b, ua, ut).value) == 1.0
      && (NonNegativeTables(p) && NonNegative(b) ==> NonNegative(Moved(p, b, ua, ut).value))
  {
    var a := Pick(ua, p.m);
    var o := FirstCrossing(Observations(p, b, a), ut, 0);
    if Normalizer(p, b, a, o) != 0.0 {
      PosteriorIsDistribution(p, b, a, o);
    }
  }

  /** Every belief a trajectory records is a probability vector. */
  lemma {:induction false} WalkBeliefs(p: ValidPomdp, numDesired: nat, b: seq<real>, t: nat, h: nat,
                                       rows: seq<seq<real>>, mx: nat, draws: seq<real>, c: nat)
    requires Expandable(p) && DrawsFit(draws) && t <= h && c <= |draws| && |b| == p.n
    requires (NonNegativeTables(p) ==> NonNegative(b)) && Beliefs(p, rows)
    ensures Beliefs(p, Walk(Law(p), numDesired, b, t, h, rows, mx, draws, c).rows)
    decreases h - t
  {
    if t < h && c + 2 <= |draws| {
      MovedIsBelief(p, b, draws[c], draws[c + 1]);
      var next := Moved(p, b, draws[c], draws[c + 1]);
      if next.Some? {
        var b' := next.value;
        var mx' := if Positives(b') > mx then Positives(b') else mx;
        assert Beliefs(p, rows + [b']);
        if |rows| + 1 < numDesired {
          WalkBeliefs(p, numDesired, b', t + 1, h, rows + [b'], mx', draws, c + 2);
        }
      }
    }
  }

  /** Every belief the expansion records is a probability vector. */
  lemma {:induction false} ExploreBeliefs(p: ValidPomdp, numDesired: nat, b0: seq<real>,
                                          rows: seq<seq<real>>, mx: nat, draws: seq<real>, c: nat)
    requires Expandable(p) && DrawsFit(draws) && c <= |draws| && |b0| == p.n
    requires (NonNegativeTables(p) ==> NonNegative(b0)) && Beliefs(p, rows)
    ensures Beliefs(p, Explore(Law(p), p.horizon, numDesired, b0, rows, mx, draws, c).rows)
    decreases |draws| - c
  {
    if |rows| < numDesired && c < |draws| {
      var h := Pick(draws[c], p.horizon + 1);
      WalkBeliefs(p, numDesired, b0, 0, h, rows, mx, draws, c + 1);
      var w := Walk(Law(p), numDesired, b0, 0, h, rows, mx, draws, c + 1);
      if w.outcome == Filled {
        ExploreBeliefs(p, numDesired, b0, w.rows, w.maxNonZero, draws, w.cursor);
      }
    }
  }

  /** What pomdp_expand_random_cpu delivers: at most numDesiredBeliefPoints
      beliefs, exactly that many unless the draws ran out or an update was
      undefined, each a probability vector (non-negative for non-negative
      tables), and maxNonZeroValues raised to the largest support among them. */
  lemma ExpandedFacts(p: ValidPomdp, numDesired: nat, maxNonZero: nat, draws: seq<real>)
    requires Expandable(p) && DrawsFit(draws)
    ensures var e := Expanded(p, numDesired, maxNonZero, draws);
      && |e.rows| <= numDesired && (e.outcome == Filled <==> |e.rows| == numDesired)
      && (forall k :: 0 <= k < |e.rows| ==> Sum(e.rows[k]) == 1.0)
      && (NonNegativeTables(p) ==> forall k :: 0 <= k < |e.rows| ==> NonNegative(e.rows[k]))
      && e.maxNonZero >= maxNonZero
      && (forall k :: 0 <= k < |e.rows| ==> e.maxNonZero >= Positives(e.rows[k]))
      && (e.maxNonZero == maxNonZero || exists k :: 0 <= k < |e.rows| && e.maxNonZero == Positives(e.rows[k]))
  {
    var e := Expanded(p, numDesired, maxNonZero, draws);
    ExploreBounds(Law(p), p.horizon, numDesired, Initial(p), [], maxNonZero, draws, 0);
    ExploreTracks(Law(p), p.horizon, numDesired, Initial(p), [], maxNonZero, draws, 0, maxNonZero);
    TrackIsMax(maxNonZero, e.rows);
    if NonNegativeTables(p) {
      DenseNonNegative(p, RunLength(p.ZRow(0)));
    }
    ExploreBeliefs(p, numDesired, Initial(p), [], maxNonZero, draws, 0);
  }

  /** With horizon 0 and draws in [0, 1) every trajectory is empty and records
      nothing: the expansion never progresses, and only running out of draws
      ends it. (A draw of exactly 1, which Pick excludes, would give a
      trajectory of length 1.) */
  lemma {:induction false} ZeroHorizonStalls(step: Step, numDesired: nat, b0: seq<real>,
                                             rows: seq<seq<real>>, mx: nat, draws: seq<real>, c: nat)
    requires DrawsFit(draws) && c <= |draws| && |rows| < numDesired
    ensures Explore(step, 0, numDesired, b0, rows, mx, draws, c) == Expansion(OutOfDraws, rows, mx)
    decreases |draws| - c
  {
    if c < |draws| {
      assert Pick(draws[c], 1) == 0;
      ZeroHorizonStalls(step, numDesired, b0, rows, mx, draws, c + 1);
    }
  }

  // ---------------------------------------------------------------------------
  // Operations
  // ---------------------------------------------------------------------------

  /** Sets every entry of v to zero. */
  method Clear(v: array<real>)
    modifies v
    ensures v[..] == ZeroVector(v.Length)
  {
    var k := 0;
    while k < v.Length
      invariant k <= v.Length
      invariant forall j :: 0 <= j < k ==> v[j] == 0.0
    {
      v[k] := 0.0;
      k := k + 1;
    }
    assert v[..] == ZeroVector(v.Length);
  }

  /** The successor loop of the belief update for state s: adds T[s][a][l] * b[s]
      to bp[sp] for every successor sp of (s, a), up to the sentinel. */
  method Spread(p: ValidPomdp, b: seq<real>, a: nat, s: nat, bp: array<real>)
    requires a < p.m && |b| == p.n && s < p.n && bp.Length == p.n
    modifies bp
    ensures bp[..] == SpreadTo(p, a, b, s, RunLength(p.SRow(s, a)), old(bp[..]))
  {
    ghost var start := bp[..];
    var succ, prob := p.SRow(s, a), p.TRow(s, a);
    var l := 0;
    while l < p.ns
      invariant l <= RunLength(succ)
      invariant bp[..] == SpreadTo(p, a, b, s, l, start)
    {
      var sp := succ[l];
      if sp < 0 {
        break;
      }
      assert sp == p.Succ(s, a, l);
      bp[sp] := bp[sp] + Times(prob[l], b[s]);
      l := l + 1;
    }
  }

  /** The weighting loop of the belief update: multiplies bp[sp] by O[a][sp][o]
      and sums the products into the normalising constant. */
  method Weigh(p: ValidPomdp, a: nat, o: nat, bp: array<real>) returns (normalizingConstant: real)
    requires a < p.m && o < p.z && bp.Length == p.n
    modifies bp
    ensures bp[..] == Weighted(p, a, o, old(bp[..]))
    ensures normalizingConstant == Sum(bp[..])
  {
    ghost var flow := bp[..];
    ghost var joint := Weighted(p, a, o, flow);
    normalizingConstant := 0.0;
    var sp := 0;
    while sp < p.n
      invariant sp <= p.n
      invariant bp[..] == joint[..sp] + flow[sp..]
      invariant normalizingConstant == Sum(joint[..sp])
    {
      PrefixStep(joint, flow, sp);
      bp[sp] := Times(bp[sp], p.Obs(a, sp, o));
      SumStep(joint, sp);
      normalizingConstant := normalizingConstant + bp[sp];
      sp := sp + 1;
    }
    assert joint[..p.n] + flow[p.n..] == joint;
    assert joint[..p.n] == joint;
  }

  /** The normalising loop of the belief update: divides every entry by c. */
  method Normalize(bp: array<real>, c: real)
    requires c != 0.0
    modifies bp
    ensures bp[..] == Divided(old(bp[..]), c)
  {
    ghost var joint := bp[..];
    ghost var post := Divided(joint, c);
    var sp := 0;
    while sp < bp.Length
      invariant sp <= bp.Length
      invariant bp[..] == post[..sp] + joint[sp..]
    {
      PrefixStep(post, joint, sp);
      bp[sp] := bp[sp] / c;
      sp := sp + 1;
    }
    assert post[..bp.Length] + joint[bp.Length..] == post;
  }

  /** pomdp_expand_belief_update_cpu: the posterior of b after action a and
      observation o, written into bp. When the normalising constant is zero the
      source divides by zero; the model then reports `defined == false` and
      leaves the unnormalised products in bp. */
  method BeliefUpdate(p: ValidPomdp, b: seq<real>, a: nat, o: nat, bp: array<real>) returns (defined: bool)
    requires |b| == p.n && a < p.m && o < p.z && bp.Length == p.n
    modifies bp
    ensures defined == (Normalizer(p, b, a, o) != 0.0)
    ensures defined ==> bp[..] == Posterior(p, b, a, o)
    ensures !defined ==> bp[..] == Joint(p, b, a, o)
  {
    Clear(bp);
    var s := 0;
    while s < p.n
      invariant s <= p.n
      invariant bp[..] == Flow(p, a, b, s)
    {
      Spread(p, b, a, s, bp);
      s := s + 1;
    }
    var normalizingConstant := Weigh(p, a, o, bp);
    defined := normalizingConstant != 0.0;
    if defined {
      Normalize(bp, normalizingConstant);
    }
  }

  /** The successor loop of the observation probability: Pr(o | s, a). */
  method StateLikelihood(p: ValidPomdp, s: nat, a: nat, o: nat) returns (val: real)
    requires s < p.n && a < p.m && o < p.z
    ensures val == Likelihood(p, s, a, o)
  {
    ghost var ts := LikelihoodTerms(p, s, a, o);
    var succ, prob := p.SRow(s, a), p.TRow(s, a);
    val := 0.0;
    var l := 0;
    while l < p.ns
      invariant l <= RunLength(succ)
      invariant val == Sum(ts[..l])
    {
      var sp := succ[l];
      if sp < 0 {
        break;
      }
      assert sp == p.Succ(s, a, l);
      SumStep(ts, l);
      val := val + Times(prob[l], p.Obs(a, sp, o));
      l := l + 1;
    }
    assert ts[..l] == ts;
  }

  /** pomdp_expand_probability_observation: Pr(o | b, a). */
  method ProbabilityObservation(p: ValidPomdp, b: seq<real>, a: nat, o: nat) returns (prObs: real)
    requires |b| == p.n && a < p.m && o < p.z
    ensures prObs == Evidence(p, b, a, o)
  {
    ghost var ts := EvidenceTerms(p, b, a, o);
    prObs := 0.0;
    var s := 0;
    while s < p.n
      invariant s <= p.n
      invariant prObs == Sum(ts[..s])
    {
      var val := StateLikelihood(p, s, a, o);
      SumStep(ts, s);
      prObs := prObs + Times(val, b[s]);
      s := s + 1;
    }
    assert ts[..p.n] == ts;
  }

  /** The observation loop of a trajectory step: the first observation whose
      cumulative probability reaches targetNumber, or 0 when none does. */
  method ChooseObservation(p: ValidPomdp, b: seq<real>, a: nat, targetNumber: real) returns (o: nat)
    requires |b| == p.n && a < p.m
    ensures o == FirstCrossing(Observations(p, b, a), targetNumber, 0)
  {
    ghost var xs := Observations(p, b, a);
    var currentNumber := 0.0;
    o := 0;
    var op := 0;
    while op < p.z
      invariant op <= p.z
      invariant currentNumber == Sum(xs[..op])
      invariant FirstCrossing(xs, targetNumber, op) == FirstCrossing(xs, targetNumber, 0)
    {
      var prObs := ProbabilityObservation(p, b, a, op);
      SumStep(xs, op);
      currentNumber := currentNumber + prObs;
      if currentNumber >= targetNumber {
        o := op;
        break;
      }
      op := op + 1;
    }
  }

  /** The set-up of pomdp_expand_random_cpu: b0 is zero except at the states of
      stored belief 0, which take their stored probabilities. */
  method InitialBelief(p: ValidPomdp) returns (b0: array<real>)
    requires p.r > 0
    ensures fresh(b0) && b0[..] == Initial(p)
  {
    b0 := new real[p.n];
    Clear(b0);
    var states, probs := p.ZRow(0), p.BRow(0);
    var i := 0;
    while i < p.rz
      invariant i <= RunLength(states)
      invariant b0[..] == Dense(p, i)
    {
      var s := states[i];
      if s < 0 {
        break;
      }
      assert s == p.BeliefState(0, i);
      b0[s] := probs[i];
      i := i + 1;
    }
  }

  /** The count of pomdp_expand_random_cpu: how many entries of b are positive. */
  method CountNonZero(b: array<real>) returns (numNonZeroValues: nat)
    ensures numNonZeroValues == Positives(b[..])
  {
    numNonZeroValues := 0;
    var s := 0;
    while s < b.Length
      invariant s <= b.Length
      invariant numNonZeroValues == Positives(b[..s])
    {
      assert b[..s + 1][..s] == b[..s];
      if b[s] > 0.0 {
        numNonZeroValues := numNonZeroValues + 1;
      }
      s := s + 1;
    }
    assert b[..b.Length] == b[..];
  }

  /** A memcpy of src into dst. */
  method CopyBelief(src: array<real>, dst: array<real>)
    requires src.Length == dst.Length && src != dst
    modifies dst
    ensures dst[..] == src[..]
  {
    forall k | 0 <= k < dst.Length {
      dst[k] := src[k];
    }
  }

  /** Flattening one more row appends it. */
  lemma FlatSnoc(rows: seq<seq<real>>, w: seq<real>)
    ensures Flat(rows + [w]) == Flat(rows) + w
  {
    assert (rows + [w])[..|rows|] == rows;
  }

  /** Writing row i of a buffer whose first i rows are `rows` and whose other
      entries are those of `base` leaves rows + [w] in front of base. */
  lemma Recorded(rows: seq<seq<real>>, w: seq<real>, base: seq<real>, i: nat, n: nat)
    requires |Flat(rows)| == i * n && i * n + n <= |base| && |w| == n
    ensures (i + 1) * n == i * n + n && |Flat(rows + [w])| == (i + 1) * n
    ensures (Flat(rows) + base[i * n..])[..i * n] + w + (Flat(rows) + base[i * n..])[i * n + n..]
         == Flat(rows + [w]) + base[(i + 1) * n..]
  {
    FlatSnoc(rows, w);
  }

  /** One step of a trajectory up to the belief update: picks the action,
      chooses the observation and computes the new belief into a new array. */
  method Move(p: ValidPomdp, b: seq<real>, ua: real, ut: real, ghost step: Step) returns (bp: array<real>, defined: bool)
    requires Expandable(p) && |b| == p.n && 0.0 <= ua < 1.0 && Implements(p, step)
    ensures fresh(bp) && bp.Length == p.n
    ensures defined == step(b, ua, ut).Some?
    ensures defined ==> bp[..] == step(b, ua, ut).value
  {
    var a := Pick(ua, p.m);
    var o := ChooseObservation(p, b, a, ut);
    bp := new real[p.n];
    defined := BeliefUpdate(p, b, a, o, bp);
    assert step(b, ua, ut) == Moved(p, b, ua, ut);
  }

  /** The rest of a trajectory step: copies the new belief into b, raises the
      maximum support and writes b into row i of Bnew. */
  method Record(p: ValidPomdp, bp: array<real>, b: array<real>, Bnew: array<real>, i: nat, numDesired: nat,
                maxNonZero: nat, ghost rows: seq<seq<real>>, ghost base: seq<real>)
    returns (maxNonZero': nat, ghost rows': seq<seq<real>>)
    requires bp != b && b != Bnew && bp.Length == b.Length == p.n
    requires i < numDesired && numDesired * p.n <= Bnew.Length == |base|
    requires |Flat(rows)| == i * p.n <= |base| && Bnew[..] == Flat(rows) + base[i * p.n..]
    modifies b, Bnew
    ensures b[..] == old(bp[..]) && rows' == rows + [b[..]]
    ensures maxNonZero' == if Positives(b[..]) > maxNonZero then Positives(b[..]) else maxNonZero
    ensures |Flat(rows')| == (i + 1) * p.n <= |base| && Bnew[..] == Flat(rows') + base[(i + 1) * p.n..]
  {
    CopyBelief(bp, b);
    var numNonZeroValues := CountNonZero(b);
    maxNonZero' := maxNonZero;
    if numNonZeroValues > maxNonZero' {
      maxNonZero' := numNonZeroValues;
    }
    RowFits(i, numDesired, p.n, Bnew.Length);
    WriteRow(Bnew, p.n, i, b[..]);
    Recorded(rows, b[..], base, i, p.n);
    rows' := rows + [b[..]];
  }

  /** The trajectory loop of pomdp_expand_random_cpu: h steps from the belief
      in b, each writing its belief into row i of Bnew, stopping early once
      numDesired rows are written. */
  method Trajectory(p: ValidPomdp, ghost step: Step, numDesired: nat, b: array<real>, h: nat, i: nat,
                    maxNonZero: nat, draws: seq<real>, c: nat, Bnew: array<real>,
                    ghost rows: seq<seq<real>>, ghost base: seq<real>)
    returns (outcome: Outcome, i': nat, maxNonZero': nat, c': nat, ghost rows': seq<seq<real>>)
    requires Expandable(p) && Implements(p, step) && DrawsFit(draws) && c <= |draws|
    requires b != Bnew && b.Length == p.n && numDesired * p.n <= Bnew.Length == |base|
    requires i == |rows| < numDesired && |Flat(rows)| == i * p.n <= |base|
    requires Bnew[..] == Flat(rows) + base[i * p.n..]
    modifies b, Bnew
    ensures var w := Walk(step, numDesired, old(b[..]), 0, h, rows, maxNonZero, draws, c);
      && outcome == w.outcome && rows' == w.rows && maxNonZero' == w.maxNonZero && c' == w.cursor
    ensures i' == |rows'| <= numDesired && |Flat(rows')| == i' * p.n <= |base|
    ensures Bnew[..] == Flat(rows') + base[i' * p.n..]
  {
    ghost var goal := Walk(step, numDesired, b[..], 0, h, rows, maxNonZero, draws, c);
    outcome, i', maxNonZero', c', rows' := Filled, i, maxNonZero, c, rows;
    var t := 0;
    while t < h
      invariant t <= h && c' <= |draws| && i' == |rows'| < numDesired && |Flat(rows')| == i' * p.n <= |base|
      invariant Bnew[..] == Flat(rows') + base[i' * p.n..]
      invariant Walk(step, numDesired, b[..], t, h, rows', maxNonZero', draws, c') == goal
      decreases h - t
    {
      if |draws| < c' + 2 {
        outcome := OutOfDraws;
        return;
      }
      var bp, defined := Move(p, b[..], draws[c'], draws[c' + 1], step);
      if !defined {
        outcome, c' := Degenerate, c' + 2;
        return;
      }
      maxNonZero', rows' := Record(p, bp, b, Bnew, i', numDesired, maxNonZero', rows', base);
      i', c' := i' + 1, c' + 2;
      if i' >= numDesired {
        return;
      }
      t := t + 1;
    }
  }

  /** The expansion loop of pomdp_expand_random_cpu, from the initial belief b0,
      for any step that agrees with the model. */
  method Fill(p: ValidPomdp, ghost step: Step, numDesired: nat, maxNonZero: nat, draws: seq<real>,
              b0: array<real>, Bnew: array<real>)
    returns (outcome: Outcome, maxNonZero': nat)
    requires Expandable(p) && Implements(p, step) && DrawsFit(draws)
    requires b0 != Bnew && b0.Length == p.n && numDesired * p.n <= Bnew.Length
    modifies Bnew
    ensures var e := Explore(step, p.horizon, numDesired, b0[..], [], maxNonZero, draws, 0);
      && outcome == e.outcome && maxNonZero' == e.maxNonZero
      && |Flat(e.rows)| <= Bnew.Length
      && Bnew[..] == Flat(e.rows) + old(Bnew[..])[|Flat(e.rows)|..]
  {
    ghost var base := Bnew[..];
    ghost var init := b0[..];
    ghost var goal := Explore(step, p.horizon, numDesired, init, [], maxNonZero, draws, 0);
    var b := new real[p.n];
    ghost var rows: seq<seq<real>> := [];
    var i, c := 0, 0;
    maxNonZero' := maxNonZero;
    outcome := Filled;
    while i < numDesired
      invariant i == |rows| <= numDesired && c <= |draws| && |Flat(rows)| == i * p.n <= |base|
      invariant b0[..] == init && outcome == Filled
      invariant Bnew[..] == Flat(rows) + base[i * p.n..]
      invariant Explore(step, p.horizon, numDesired, init, rows, maxNonZero', draws, c) == goal
      decreases |draws| - c
    {
      if c == |draws| {
        outcome := OutOfDraws;
        return;
      }
      var h := Pick(draws[c], p.horizon + 1);
      CopyBelief(b0, b);
      outcome, i, maxNonZero', c, rows :=
        Trajectory(p, step, numDesired, b, h, i, maxNonZero', draws, c + 1, Bnew, rows, base);
      if outcome != Filled {
        return;
      }
    }
  }

  /** pomdp_expand_random_cpu: fills the first numDesiredBeliefPoints rows of
      Bnew with beliefs reached along random trajectories from the initial
      belief, and raises maxNonZeroValues to the largest support seen. The
      random numbers are the injected draws, consumed in the source's order. */
  method ExpandRandom(p: ValidPomdp, numDesiredBeliefPoints: nat, maxNonZeroValues: nat,
                      draws: seq<real>, Bnew: array<real>)
    returns (outcome: Outcome, maxNonZeroValues': nat)
    requires Expandable(p) && DrawsFit(draws) && numDesiredBeliefPoints * p.n <= Bnew.Length
    modifies Bnew
    ensures var e := Expanded(p, numDesiredBeliefPoints, maxNonZeroValues, draws);
      && outcome == e.outcome && maxNonZeroValues' == e.maxNonZero
      && |Flat(e.rows)| <= Bnew.Length
      && Bnew[..] == Flat(e.rows) + old(Bnew[..])[|Flat(e.rows)|..]
  {
    var b0 := InitialBelief(p);
    LawImplements(p);
    outcome, maxNonZeroValues' := Fill(p, Law(p), numDesiredBeliefPoints, maxNonZeroValues, draws, b0, Bnew);
  }

  /** Law(p) is a step of p. */
  lemma LawImplements(p: ValidPomdp)
    requires Expandable(p)
    ensures Implements(p, Law(p))
  {
  }
}
