/**
 * The POMDP object as the CPU version of Perseus mutates it: the solver fields
 * allocated by initialize, updated by update and released by uninitialize, and
 * the execute loop that drives them. Every method is proved against the
 * abstract state machine of module Perseus.
 */
module Lifecycle {
  import opened Sparse
  import opened Model
  import opened Backup
  import opened Perseus

  /** The six model tables, whose pointers execute checks against null. */
  datatype Table = STable | TTable | OTable | RTable | ZTable | BTable

  // ---------------------------------------------------------------------------
  // Array helpers
  // ---------------------------------------------------------------------------

  /** A new array holding the first `size` entries of g (a new[] and a memcpy). */
  method CopyOf(g: seq<real>, size: nat) returns (a: array<real>)
    requires size <= |g|
    ensures fresh(a) && a[..] == g[..size]
  {
    a := new real[size](k requires 0 <= k < size => g[k]);
    assert a[..] == g[..size];
  }

  /** The new policy arrays of get_policy: the first `count` vectors of G and
      the first `count` actions of a. */
  method CopyOut(p: ValidPomdp, G: array<real>, a: array<nat>, count: nat) returns (pol: AlphaVectors)
    requires G.Length == p.r * p.n && a.Length == p.r && count <= p.r
    ensures pol == Exported(p, Buffer(G[..], a[..], count))
  {
    MulMono(count, p.r, p.n);
    pol := AlphaVectors(p.n, p.m, count, G[..count * p.n], a[..count]);
  }

  /** The allocations of initialize: both buffers of vectors start as copies of
      the first `size` entries of initialGamma, both policies as all-zero actions,
      and BTilde lists every stored belief. */
  method Allocate(initialGamma: seq<real>, size: nat, r: nat)
    returns (G: array<real>, GP: array<real>, a: array<nat>, aP: array<nat>, B: array<nat>)
    requires size <= |initialGamma|
    ensures fresh(G) && fresh(GP) && fresh(a) && fresh(aP) && fresh(B)
    ensures G != GP && a != aP && B != a && B != aP
    ensures G[..] == initialGamma[..size] && GP[..] == initialGamma[..size]
    ensures a[..] == Zeros(r) && aP[..] == Zeros(r) && B[..] == Range(r)
  {
    G := CopyOf(initialGamma, size);
    GP := CopyOf(initialGamma, size);
    a := new nat[r];
    aP := new nat[r];
    ZeroActions(a, aP);
    B := new nat[r];
    FillRange(B);
  }

  /** The loop setting BTilde[i] = i for every stored belief. */
  method FillRange(BTilde: array<nat>)
    modifies BTilde
    ensures BTilde[..] == Range(BTilde.Length)
  {
    var i := 0;
    while i < BTilde.Length
      invariant i <= BTilde.Length
      invariant forall k :: 0 <= k < i ==> BTilde[k] == k
    {
      BTilde[i] := i;
      i := i + 1;
    }
  }

  /** The loop setting every action of both policies to 0. */
  method ZeroActions(pi: array<nat>, piPrime: array<nat>)
    requires pi.Length == piPrime.Length && pi != piPrime
    modifies pi, piPrime
    ensures pi[..] == Zeros(pi.Length) && piPrime[..] == Zeros(pi.Length)
  {
    var i := 0;
    while i < pi.Length
      invariant i <= pi.Length
      invariant forall k :: 0 <= k < i ==> pi[k] == 0 && piPrime[k] == 0
    {
      pi[i] := 0;
      piPrime[i] := 0;
      i := i + 1;
    }
  }

  // ---------------------------------------------------------------------------
  // The parts of one update
  // ---------------------------------------------------------------------------

  /** The backup at the sampled belief: alpha is allocated holding junk, then
      pomdp_perseus_update_step_cpu fills it and returns the action. */
  method BackupAt(p: ValidPomdp, cur: Buffer, bIndex: nat, d: Draw) returns (alpha: array<real>, action: nat)
    requires Fits(p, cur) && bIndex < p.r && DrawFits(p, d)
    ensures fresh(alpha)
    ensures alpha[..] == Backed(p, cur, bIndex, d) && action == BackedAction(p, cur, bIndex, d)
  {
    alpha := new real[p.n](k requires 0 <= k < p.n => d.junk[k]);
    assert alpha[..] == d.junk;
    action := UpdateStep(p, bIndex, cur.G, cur.count, d.seeds, alpha, 0);
  }

  /** The append rule of the update: the value of alpha at bIndex and V_n(bIndex)
      decide between alpha with its action and the best vector of V_n with its
      action. */
  method Choose(p: ValidPomdp, cur: Buffer, bIndex: nat, alpha: seq<real>, action: nat) returns (w: seq<real>, act: nat)
    requires Fits(p, cur) && bIndex < p.r && |alpha| == p.n
    ensures (w, act) == Choice(p, cur, bIndex, alpha, action)
  {
    MulMono(cur.count, p.r, p.n);
    var bDotAlpha := ComputeBDotAlpha(p, bIndex, alpha);
    var Vnb, alphaPrimeIndex := ComputeVb(p, bIndex, cur.G, cur.count, 0);
    if bDotAlpha >= Vnb {
      w, act := alpha, action;
    } else {
      RowFits(alphaPrimeIndex, p.r, p.n, |cur.G|);
      w, act := Row(cur.G, p.n, alphaPrimeIndex), cur.pi[alphaPrimeIndex];
    }
  }

  /** One pass of the recomputation loop: the values of stored belief i under
      V_n and under V_{n+1}, and whether it lags. */
  method LagAt(p: ValidPomdp, cur: Buffer, nxt: Buffer, i: nat) returns (lags: bool)
    requires Fits(p, cur) && Fits(p, nxt) && i < p.r
    ensures lags == LagFlags(p, cur, nxt)[i]
  {
    MulMono(cur.count, p.r, p.n);
    MulMono(nxt.count, p.r, p.n);
    var action := 0;
    var Vnb, Vnp1b;
    Vnb, action := ComputeVb(p, i, cur.G, cur.count, action);
    Vnp1b, action := ComputeVb(p, i, nxt.G, nxt.count, action);
    lags := Vnp1b < Vnb;
  }

  /** The body of the recomputation loop once the lag flag of stored belief i
      is known: i is appended to the listed prefix of BTilde when it lags. */
  method ListIf(BTilde: array<nat>, i: nat, lags: bool, count: nat, ghost flags: seq<bool>, ghost tail: seq<nat>)
    returns (count': nat)
    requires i < |flags| == BTilde.Length == |tail| && flags[i] == lags
    requires count == |Filter(flags, i)| && BTilde[..] == Filter(flags, i) + tail[count..]
    modifies BTilde
    ensures count' == |Filter(flags, i + 1)| && BTilde[..] == Filter(flags, i + 1) + tail[count'..]
  {
    count' := count;
    if lags {
      BTilde[count] := i;
      count' := count + 1;
      assert BTilde[..] == (Filter(flags, i) + [i]) + tail[count'..];
    }
  }

  /** One pass of the recomputation loop. */
  method RecomputeAt(p: ValidPomdp, cur: Buffer, nxt: Buffer, BTilde: array<nat>, i: nat, count: nat,
                     ghost flags: seq<bool>, ghost tail: seq<nat>) returns (count': nat)
    requires Fits(p, cur) && Fits(p, nxt) && BTilde.Length == p.r == |tail| && i < p.r
    requires flags == LagFlags(p, cur, nxt)
    requires count == |Filter(flags, i)| && BTilde[..] == Filter(flags, i) + tail[count..]
    modifies BTilde
    ensures count' == |Filter(flags, i + 1)| && BTilde[..] == Filter(flags, i + 1) + tail[count'..]
  {
    var lags := LagAt(p, cur, nxt, i);
    count' := ListIf(BTilde, i, lags, count, flags, tail);
  }

  /** The recomputation of BTilde: the loop that lists, in increasing order, the
      stored beliefs whose value under V_{n+1} is below their value under V_n. */
  method Recompute(p: ValidPomdp, cur: Buffer, nxt: Buffer, BTilde: array<nat>) returns (count: nat)
    requires Fits(p, cur) && Fits(p, nxt) && BTilde.Length == p.r
    modifies BTilde
    ensures count == |Lagging(p, cur, nxt)|
    ensures BTilde[..] == Lagging(p, cur, nxt) + old(BTilde[..])[count..]
  {
    ghost var flags := LagFlags(p, cur, nxt);
    ghost var start := BTilde[..];
    count := 0;
    var i := 0;
    while i < p.r
      invariant i <= p.r && count == |Filter(flags, i)|
      invariant BTilde[..] == Filter(flags, i) + start[count..]
    {
      count := RecomputeAt(p, cur, nxt, BTilde, i, count, flags, start);
      i := i + 1;
    }
  }

  /** The argument check of pomdp_perseus_execute_cpu: every dimension
      positive, no table missing, a discount factor in [0, 1], a horizon of at
      least 1, an initial Gamma given and no policy yet. */
  predicate Admissible(p: Pomdp, missing: set<Table>, initialGamma: Option<seq<real>>, policy: Option<AlphaVectors>) {
    && p.n > 0 && p.ns > 0 && p.m > 0 && p.z > 0 && p.r > 0 && p.rz > 0
    && missing == {}
    && 0.0 <= p.gamma <= 1.0 && p.horizon >= 1
    && initialGamma.Some? && policy.None?
  }

  // ---------------------------------------------------------------------------
  // The POMDP object
  // ---------------------------------------------------------------------------

  /** The POMDP object: the model, which tables are missing (null pointers), and
      the solver fields of the CPU version of Perseus. */
  class Solver {
    const p: ValidPomdp
    const missing: set<Table>
    var currentHorizon: nat
    var Gamma: array?<real>
    var GammaPrime: array?<real>
    var pi: array?<nat>
    var piPrime: array?<nat>
    var BTilde: array?<nat>
    var rGamma: nat
    var rGammaPrime: nat
    var rTilde: nat

    /** A loaded model whose solver fields are not allocated. */
    constructor (p: ValidPomdp, missing: set<Table>)
      ensures this.p == p && this.missing == missing && Released() && currentHorizon == 0
    {
      this.p := p;
      this.missing := missing;
      currentHorizon := 0;
      Gamma, GammaPrime, pi, piPrime, BTilde := null, null, null, null, null;
      rGamma, rGammaPrime, rTilde := 0, 0, 0;
    }

    /** No solver memory is held and every count is 0. */
    predicate Released()
      reads this
    {
      && Gamma == null && GammaPrime == null && pi == null && piPrime == null && BTilde == null
      && rGamma == 0 && rGammaPrime == 0 && rTilde == 0
    }

    /** The solver memory is held, with the sizes initialize allocates. */
    predicate Allocated()
      reads this
    {
      && Gamma != null && GammaPrime != null && pi != null && piPrime != null && BTilde != null
      && Gamma != GammaPrime && pi != piPrime && BTilde != pi && BTilde != piPrime
      && Gamma.Length == p.r * p.n && GammaPrime.Length == p.r * p.n
      && pi.Length == p.r && piPrime.Length == p.r && BTilde.Length == p.r
      && rGamma <= p.r && rGammaPrime <= p.r && rTilde <= p.r
    }

    /** The fields as an abstract state. */
    function Snapshot(): (st: State)
      requires Allocated()
      reads this, Gamma, GammaPrime, pi, piPrime, BTilde
      ensures Fits(p, st.first) && Fits(p, st.second)
    {
      State(currentHorizon, Buffer(Gamma[..], pi[..], rGamma), Buffer(GammaPrime[..], piPrime[..], rGammaPrime),
            BTilde[..], rTilde)
    }

    /** pomdp_perseus_initialize_cpu. */
    method Initialize(initialGamma: seq<real>) returns (status: Status)
      requires |initialGamma| >= p.r * p.n
      modifies this
      ensures status == Success && Allocated() && Snapshot() == Init(p, initialGamma)
      ensures fresh(Gamma) && fresh(GammaPrime) && fresh(pi) && fresh(piPrime) && fresh(BTilde)
    {
      var G, GP, a, aP, B := Allocate(initialGamma, p.r * p.n, p.r);
      Install(initialGamma, G, GP, a, aP, B);
      status := Success;
    }

    /** The field assignments of initialize: the new arrays, horizon 0, no vector
        in use, and every stored belief listed in BTilde. */
    method Install(initialGamma: seq<real>, G: array<real>, GP: array<real>, a: array<nat>, aP: array<nat>, B: array<nat>)
      requires |initialGamma| >= p.r * p.n && G[..] == initialGamma[..p.r * p.n] && GP[..] == initialGamma[..p.r * p.n]
      requires G != GP && a != aP && B != a && B != aP
      requires a[..] == Zeros(p.r) && aP[..] == Zeros(p.r) && B[..] == Range(p.r)
      modifies this
      ensures Allocated() && Snapshot() == Init(p, initialGamma)
      ensures Gamma == G && GammaPrime == GP && pi == a && piPrime == aP && BTilde == B
    {
      currentHorizon, Gamma, GammaPrime, pi, piPrime, BTilde := 0, G, GP, a, aP, B;
      rGamma, rGammaPrime, rTilde := 0, 0, p.r;
    }

    /** pomdp_perseus_uninitialize_cpu. */
    method Uninitialize() returns (status: Status)
      modifies this
      ensures status == Success && Released() && currentHorizon == 0
    {
      currentHorizon := 0;
      Gamma := null;
      rGamma := 0;
      GammaPrime := null;
      rGammaPrime := 0;
      pi := null;
      piPrime := null;
      BTilde := null;
      rTilde := 0;
      status := Success;
    }

    /** V_n, chosen by the parity of the horizon, and the belief sampled from
        BTilde. */
    method Sample(d: Draw) returns (cur: Buffer, bIndex: nat)
      requires Allocated() && Sane(p, Snapshot()) && DrawFits(p, d)
      ensures cur == Current(Snapshot()) && bIndex == Sampled(p, Snapshot(), d)
    {
      if currentHorizon % 2 == 0 {
        cur := Buffer(Gamma[..], pi[..], rGamma);
      } else {
        cur := Buffer(GammaPrime[..], piPrime[..], rGammaPrime);
      }
      bIndex := BTilde[Pick(d.u, rTilde)];
    }

    /** The memcpy of w into the first free row of V_{n+1}, chosen by the parity
        of the horizon, the store of its action, and the increment of its count. */
    method Push(w: seq<real>, act: nat) returns (nxt: Buffer)
      requires Allocated() && Next(Snapshot()).count < p.r && |w| == p.n
      modifies this, Gamma, GammaPrime, pi, piPrime
      ensures Allocated() && Gamma == old(Gamma) && GammaPrime == old(GammaPrime)
      ensures pi == old(pi) && piPrime == old(piPrime) && BTilde == old(BTilde)
      ensures nxt == Put(p, Next(old(Snapshot())), w, act)
      ensures Snapshot() == Place(old(Snapshot()), Current(old(Snapshot())), nxt)
    {
      var even := currentHorizon % 2 == 0;
      var GP, aP, rGP := GammaPrime, piPrime, rGammaPrime;
      if !even {
        GP, aP, rGP := Gamma, pi, rGamma;
      }
      RowBound(rGP, p.r, p.n);
      WriteRow(GP, p.n, rGP, w);
      aP[rGP] := act;
      nxt := Buffer(GP[..], aP[..], rGP + 1);
      if even {
        rGammaPrime := rGP + 1;
      } else {
        rGamma := rGP + 1;
      }
    }

    /** The recomputation of BTilde in pomdp_perseus_update_cpu. */
    method Relist(cur: Buffer, nxt: Buffer) returns (count: nat)
      requires Allocated() && Fits(p, cur) && Fits(p, nxt)
      modifies this, BTilde
      ensures Allocated() && Gamma == old(Gamma) && GammaPrime == old(GammaPrime)
      ensures pi == old(pi) && piPrime == old(piPrime) && BTilde == old(BTilde)
      ensures count == |Lagging(p, cur, nxt)|
      ensures Snapshot() == old(Snapshot()).(BTilde := Lagging(p, cur, nxt) + old(BTilde[..])[count..], rTilde := count)
    {
      rTilde := 0;
      count := Recompute(p, cur, nxt, BTilde);
      rTilde := count;
    }

    /** The convergence branch of pomdp_perseus_update_cpu: the horizon advances,
        the old V_n is emptied to become the next V_{n+1}, and BTilde lists every
        stored belief again. */
    method Converge()
      requires Allocated()
      modifies this, BTilde
      ensures Allocated() && Gamma == old(Gamma) && GammaPrime == old(GammaPrime)
      ensures pi == old(pi) && piPrime == old(piPrime) && BTilde == old(BTilde)
      ensures Snapshot() == Advance(old(Snapshot()), Current(old(Snapshot())).(count := 0), Next(old(Snapshot())))
                              .(BTilde := Range(p.r), rTilde := p.r)
    {
      var even := currentHorizon % 2 == 0;
      currentHorizon := currentHorizon + 1;
      if even {
        rGamma := 0;
      } else {
        rGammaPrime := 0;
      }
      rTilde := p.r;
      FillRange(BTilde);
    }

    /** pomdp_perseus_update_cpu: one step of the abstract state machine. */
    method Update(d: Draw) returns (status: Status)
      requires Allocated() && Sane(p, Snapshot()) && DrawFits(p, d)
      modifies this, Gamma, GammaPrime, pi, piPrime, BTilde
      ensures Allocated() && Gamma == old(Gamma) && GammaPrime == old(GammaPrime)
      ensures pi == old(pi) && piPrime == old(piPrime) && BTilde == old(BTilde)
      ensures (status, Snapshot()) == Step(p, old(Snapshot()), d)
    {
      ghost var st := Snapshot();
      var cur, bIndex := Sample(d);
      var alpha, action := BackupAt(p, cur, bIndex, d);
      var w, act := Choose(p, cur, bIndex, alpha[..], action);
      var nxt := Push(w, act);
      GrownFrom(p, st, d, bIndex, Next(st));
      if nxt.count > p.r {
        // unreachable: the update is only called with room for one more vector
        status := OutOfMemory;
        return;
      }
      StepOutcome(p, st, d, nxt);
      var count := Relist(cur, nxt);
      if count == 0 {
        ghost var mid := Snapshot();
        Converge();
        AdvanceOverwrites(st, cur, nxt, mid.BTilde, 0, Range(p.r), p.r);
        status := Converged;
      } else {
        status := Success;
      }
    }

    /** The state of the solver inside the update loops of execute. */
    predicate Running(rest: seq<Draw>)
      reads this, Gamma, GammaPrime, pi, piPrime, BTilde
    {
      Allocated() && Sweeping(p, Snapshot()) && AllFit(p, rest) && Budget(p, Snapshot(), rest)
    }

    /** The inner loop of pomdp_perseus_execute_cpu: updates until one returns
        Converged, which advances the horizon. Each update consumes one draw. */
    method Sweep(rest: seq<Draw>) returns (result: Status, rest': seq<Draw>)
      requires Running(rest) && currentHorizon < p.horizon
      modifies this, Gamma, GammaPrime, pi, piPrime, BTilde
      ensures Allocated() && Gamma == old(Gamma) && GammaPrime == old(GammaPrime)
      ensures pi == old(pi) && piPrime == old(piPrime) && BTilde == old(BTilde)
      ensures result == Converged && currentHorizon == old(currentHorizon) + 1
      ensures Running(rest')
      ensures Run(p, Snapshot(), rest') == Run(p, old(Snapshot()), rest)
    {
      ghost var h := currentHorizon;
      ghost var goal := Run(p, Snapshot(), rest);
      rest' := rest;
      result := Success;
      while result != Converged
        invariant Running(rest') && Gamma == old(Gamma) && GammaPrime == old(GammaPrime)
        invariant pi == old(pi) && piPrime == old(piPrime) && BTilde == old(BTilde)
        invariant currentHorizon == if result == Converged then h + 1 else h
        invariant Run(p, Snapshot(), rest') == goal
        decreases if result == Converged then 0 else 1, rTilde
      {
        result, rest' := UpdateNext(rest');
        if result != Converged && result != Success {
          return;
        }
      }
    }

    /** One pass of the inner loop of pomdp_perseus_execute_cpu: an update with
        the next draw. Within a sweep it shrinks BTilde; the last one of a sweep
        advances the horizon. */
    method UpdateNext(rest: seq<Draw>) returns (result: Status, rest': seq<Draw>)
      requires Running(rest) && currentHorizon < p.horizon
      modifies this, Gamma, GammaPrime, pi, piPrime, BTilde
      ensures Allocated() && Gamma == old(Gamma) && GammaPrime == old(GammaPrime)
      ensures pi == old(pi) && piPrime == old(piPrime) && BTilde == old(BTilde)
      ensures || (result == Success && currentHorizon == old(currentHorizon) && rTilde < old(rTilde))
              || (result == Converged && currentHorizon == old(currentHorizon) + 1)
      ensures Running(rest')
      ensures Run(p, Snapshot(), rest') == Run(p, old(Snapshot()), rest)
    {
      ghost var st := Snapshot();
      BudgetStep(p, st, rest);
      StepProgress(p, st, rest[0]);
      StepKeepsSweep(p, st, rest[0]);
      result := Update(rest[0]);
      rest' := rest[1..];
    }

    /** pomdp_perseus_execute_cpu: validates the arguments, initialises, runs the
        update loops until the horizon is reached, copies out the policy and
        releases the solver memory. The draws stand for the calls to rand(). */
    method Execute(initialGamma: Option<seq<real>>, policy: Option<AlphaVectors>, draws: seq<Draw>)
      returns (status: Status, policy': Option<AlphaVectors>)
      requires initialGamma.Some? ==> |initialGamma.value| >= p.r * p.n
      requires AllFit(p, draws) && |draws| >= p.horizon * p.r
      modifies this
      ensures if !Admissible(p, missing, initialGamma, policy) then status == InvalidData && policy' == policy && unchanged(this)
              else status == Success && policy' == Some(Policy(p, Solve(p, initialGamma.value, draws)))
                   && Released() && currentHorizon == 0
    {
      if !Admissible(p, missing, initialGamma, policy) {
        return InvalidData, policy;
      }
      status := Initialize(initialGamma.value);
      if status != Success {
        return status, policy;
      }
      InitSweeping(p, initialGamma.value);
      MulIs(p.horizon, p.r);
      ghost var final := Run(p, Snapshot(), draws);
      var rest := draws;
      while currentHorizon < p.horizon
        invariant Allocated() && fresh(Gamma) && fresh(GammaPrime) && fresh(pi) && fresh(piPrime) && fresh(BTilde)
        invariant Sweeping(p, Snapshot()) && AllFit(p, rest) && Budget(p, Snapshot(), rest)
        invariant Run(p, Snapshot(), rest) == final
        decreases p.horizon - currentHorizon
      {
        var result;
        result, rest := Sweep(rest);
      }
      status, policy' := GetPolicy(policy);
      if status != Success {
        return;
      }
      status := Uninitialize();
    }

    /** pomdp_perseus_complete_cpu: on the CPU the same as execute. */
    method Complete(initialGamma: Option<seq<real>>, policy: Option<AlphaVectors>, draws: seq<Draw>)
      returns (status: Status, policy': Option<AlphaVectors>)
      requires initialGamma.Some? ==> |initialGamma.value| >= p.r * p.n
      requires AllFit(p, draws) && |draws| >= p.horizon * p.r
      modifies this
      ensures if !Admissible(p, missing, initialGamma, policy) then status == InvalidData && policy' == policy && unchanged(this)
              else status == Success && policy' == Some(Policy(p, Solve(p, initialGamma.value, draws)))
                   && Released() && currentHorizon == 0
    {
      status, policy' := Execute(initialGamma, policy, draws);
    }

    /** pomdp_perseus_get_policy_cpu: rejects an existing policy; otherwise copies
        out the vectors in use in Gamma when the horizon is even and in
        GammaPrime when it is odd. The source does not check that the arrays
        are allocated; its only caller, execute, calls it before releasing them. */
    method GetPolicy(policy: Option<AlphaVectors>) returns (status: Status, policy': Option<AlphaVectors>)
      requires Allocated()
      ensures if policy.Some? then status == InvalidData && policy' == policy
              else status == Success && policy' == Some(Policy(p, Snapshot()))
    {
      if policy.Some? {
        return InvalidData, policy;
      }
      var pol;
      if currentHorizon % 2 == 0 {
        pol := CopyOut(p, Gamma, pi, rGamma);
      } else {
        pol := CopyOut(p, GammaPrime, piPrime, rGammaPrime);
      }
      policy' := Some(pol);
      status := Success;
    }
  }
}
