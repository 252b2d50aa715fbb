/**
 * The state machine of Perseus over abstract states: the two alpha-vector
 * buffers whose roles swap with the parity of the horizon, the list BTilde of
 * stored beliefs still awaiting improvement, and the effect of one update.
 * The lemmas of this module state what the update keeps and what it achieves.
 */
module Perseus {
  import opened Sparse
  import opened Model
  import opened Backup

  /** The NOVA result codes the solver returns. */
  datatype Status = Success | Converged | InvalidData | OutOfMemory

  /** One alpha-vector buffer: the flat r*n buffer, the action of each vector and
      the number of vectors in use (Gamma, pi and rGamma, or their primed twins). */
  datatype Buffer = Buffer(G: seq<real>, pi: seq<nat>, count: nat)

  /** The solver's fields: `first` holds Gamma, pi and rGamma, `second` holds
      GammaPrime, piPrime and rGammaPrime. */
  datatype State = State(horizon: nat, first: Buffer, second: Buffer, BTilde: seq<nat>, rTilde: nat)

  /** What one update takes from outside: u, the value rand() / RAND_MAX that
      selects the belief; seeds, the initial contents of the uninitialised
      `bestj` of each action's backup; junk, the initial contents of the freshly
      allocated candidate vector. */
  datatype Draw = Draw(u: real, seeds: seq<nat>, junk: seq<real>)

  predicate DrawFits(p: ValidPomdp, d: Draw) {
    && 0.0 <= d.u < 1.0
    && |d.seeds| == p.m && (forall a :: 0 <= a < p.m ==> d.seeds[a] < p.r)
    && |d.junk| == p.n
  }

  /** The buffer sizes the solver allocates. */
  predicate Fits(p: ValidPomdp, b: Buffer) {
    |b.G| == p.r * p.n && |b.pi| == p.r && b.count <= p.r
  }

  /** The vectors in use in a buffer. */
  function Vecs(p: ValidPomdp, b: Buffer): (vs: seq<seq<real>>)
    requires Fits(p, b)
    ensures |vs| == b.count && forall j :: 0 <= j < b.count ==> |vs[j]| == p.n
  {
    MulMono(b.count, p.r, p.n);
    Vectors(b.G, p.n, b.count)
  }

  /** Strictly increasing, hence without repetition. */
  predicate Ascending(xs: seq<nat>) {
    forall j, k :: 0 <= j < k < |xs| ==> xs[j] < xs[k]
  }

  /** 0, 1, ..., r - 1. */
  function Range(r: nat): (xs: seq<nat>)
    ensures |xs| == r && forall i :: 0 <= i < r ==> xs[i] == i
  {
    seq(r, i requires 0 <= i < r => i as nat)
  }

  // ---------------------------------------------------------------------------
  // Parity
  // ---------------------------------------------------------------------------

  /** V_n, the vectors of the finished horizon: Gamma when the horizon is even,
      GammaPrime when it is odd. */
  function Current(st: State): Buffer {
    if st.horizon % 2 == 0 then st.first else st.second
  }

  /** V_{n+1}, the vectors being built, in the other buffer. */
  function Next(st: State): Buffer {
    if st.horizon % 2 == 0 then st.second else st.first
  }

  /** Stores cur and nxt back in the buffers the parity of st gives them. */
  function Place(st: State, cur: Buffer, nxt: Buffer): (st': State)
    ensures st'.horizon == st.horizon && st'.BTilde == st.BTilde && st'.rTilde == st.rTilde
    ensures Current(st') == cur && Next(st') == nxt
  {
    if st.horizon % 2 == 0 then st.(first := cur, second := nxt) else st.(first := nxt, second := cur)
  }

  /** Stores cur and nxt back as Place does and advances the horizon, which
      swaps the roles of the buffers: nxt becomes V_n. */
  function Advance(st: State, cur: Buffer, nxt: Buffer): (st': State)
    ensures st'.horizon == st.horizon + 1 && st'.BTilde == st.BTilde && st'.rTilde == st.rTilde
    ensures Current(st') == nxt && Next(st') == cur
  {
    Place(st, cur, nxt).(horizon := st.horizon + 1)
  }

  // ---------------------------------------------------------------------------
  // One update
  // ---------------------------------------------------------------------------

  /** The candidate values of the backup step at belief bIndex. */
  function Candidates(p: ValidPomdp, cur: Buffer, bIndex: nat, d: Draw): (xs: seq<real>)
    requires Fits(p, cur) && bIndex < p.r && DrawFits(p, d)
    ensures |xs| == p.m
  {
    ActionValues(p, bIndex, Vectors(cur.G, p.n, p.r), cur.count, d.seeds)
  }

  /** The action the backup step returns. */
  function BackedAction(p: ValidPomdp, cur: Buffer, bIndex: nat, d: Draw): nat
    requires Fits(p, cur) && bIndex < p.r && DrawFits(p, d)
  {
    FirstArgMax(Candidates(p, cur, bIndex, d), 0)
  }

  /** The vector the backup step leaves in the freshly allocated alpha: the
      winning candidate, or the allocation's contents when no candidate beats
      FLT_MIN. */
  function Backed(p: ValidPomdp, cur: Buffer, bIndex: nat, d: Draw): (alpha: seq<real>)
    requires Fits(p, cur) && bIndex < p.r && DrawFits(p, d)
    ensures |alpha| == p.n
  {
    var xs := Candidates(p, cur, bIndex, d);
    if SeededMax(xs) > FltMin then
      FirstArgMaxIsFirst(xs, 0);
      Candidate(p, bIndex, Vectors(cur.G, p.n, p.r), cur.count, FirstArgMax(xs, 0), d.seeds[FirstArgMax(xs, 0)])
    else d.junk
  }

  /** Writes vector w with action act into the first free slot of b. */
  function Put(p: ValidPomdp, b: Buffer, w: seq<real>, act: nat): (b': Buffer)
    requires Fits(p, b) && b.count < p.r && |w| == p.n
    ensures Fits(p, b') && b'.count == b.count + 1
  {
    RowBound(b.count, p.r, p.n);
    Buffer(b.G[..b.count * p.n] + w + b.G[b.count * p.n + p.n..], b.pi[b.count := act], b.count + 1)
  }

  /** The vector and action the update appends: the new vector alpha with its
      action when its value at bIndex is at least V_n(bIndex), otherwise the
      vector of V_n attaining V_n(bIndex) with its action. */
  function Choice(p: ValidPomdp, cur: Buffer, bIndex: nat, alpha: seq<real>, action: nat): (c: (seq<real>, nat))
    requires Fits(p, cur) && bIndex < p.r && |alpha| == p.n
    ensures |c.0| == p.n
  {
    var k := FirstArgMax(Values(p, bIndex, Vecs(p, cur)), 0);
    RowFits(k, p.r, p.n, |cur.G|);
    if BDotAlpha(p, bIndex, alpha) >= Value(p, bIndex, Vecs(p, cur)) then (alpha, action)
    else (Row(cur.G, p.n, k), cur.pi[k])
  }

  /** The append rule: the chosen vector and action go into the first free slot
      of V_{n+1}. */
  function Append(p: ValidPomdp, cur: Buffer, nxt: Buffer, bIndex: nat, alpha: seq<real>, action: nat): (b: Buffer)
    requires Fits(p, cur) && Fits(p, nxt) && nxt.count < p.r && bIndex < p.r && |alpha| == p.n
    ensures Fits(p, b) && b.count == nxt.count + 1
  {
    var c := Choice(p, cur, bIndex, alpha, action);
    Put(p, nxt, c.0, c.1)
  }

  /** Belief i is worse off under V_{n+1} than under V_n. */
  predicate Lags(p: ValidPomdp, i: nat, cur: Buffer, nxt: Buffer)
    requires i < p.r && Fits(p, cur) && Fits(p, nxt)
  {
    Value(p, i, Vecs(p, nxt)) < Value(p, i, Vecs(p, cur))
  }

  /** The indices i < k with flags[i], in increasing order: the list the
      recomputation loop of BTilde builds. */
  function Filter(flags: seq<bool>, k: nat): (ls: seq<nat>)
    requires k <= |flags|
    ensures |ls| <= k && forall j :: 0 <= j < |ls| ==> ls[j] < k
  {
    if k == 0 then [] else Filter(flags, k - 1) + if flags[k - 1] then [k - 1] else []
  }

  /** Which stored beliefs lag. */
  function LagFlags(p: ValidPomdp, cur: Buffer, nxt: Buffer): (fs: seq<bool>)
    requires Fits(p, cur) && Fits(p, nxt)
    ensures |fs| == p.r
  {
    seq(p.r, i requires 0 <= i < p.r => Lags(p, i, cur, nxt))
  }

  /** The lagging stored beliefs in increasing order. */
  function Lagging(p: ValidPomdp, cur: Buffer, nxt: Buffer): (ls: seq<nat>)
    requires Fits(p, cur) && Fits(p, nxt)
    ensures |ls| <= p.r
  {
    Filter(LagFlags(p, cur, nxt), p.r)
  }

  /** What one update needs of the state it starts from: allocated buffers, a
      non-empty BTilde of stored beliefs, and a free slot in V_{n+1}. */
  predicate Sane(p: ValidPomdp, st: State) {
    && Fits(p, st.first) && Fits(p, st.second)
    && |st.BTilde| == p.r && 0 < st.rTilde <= p.r
    && (forall j :: 0 <= j < st.rTilde ==> st.BTilde[j] < p.r)
    && Next(st).count < p.r
  }

  /** The belief the update samples. */
  function Sampled(p: ValidPomdp, st: State, d: Draw): (i: nat)
    requires Sane(p, st) && DrawFits(p, d)
    ensures i < p.r
  {
    st.BTilde[Pick(d.u, st.rTilde)]
  }

  /** V_{n+1} after the update has appended its vector. */
  function Grown(p: ValidPomdp, st: State, d: Draw): (b: Buffer)
    requires Sane(p, st) && DrawFits(p, d)
    ensures Fits(p, b) && b.count == Next(st).count + 1
  {
    var i := Sampled(p, st, d);
    Append(p, Current(st), Next(st), i, Backed(p, Current(st), i, d), BackedAction(p, Current(st), i, d))
  }

  /** Grown unfolded at the sampled belief. */
  lemma GrownFrom(p: ValidPomdp, st: State, d: Draw, bIndex: nat, nxt: Buffer)
    requires Sane(p, st) && DrawFits(p, d) && bIndex == Sampled(p, st, d) && nxt == Next(st)
    ensures Grown(p, st, d) == Append(p, Current(st), nxt, bIndex, Backed(p, Current(st), bIndex, d),
                                      BackedAction(p, Current(st), bIndex, d))
  {
  }

  /** pomdp_perseus_update_cpu on abstract states: the status and the new state. */
  function Step(p: ValidPomdp, st: State, d: Draw): (Status, State)
    requires Sane(p, st) && DrawFits(p, d)
  {
    var cur, nxt := Current(st), Grown(p, st, d);
    if nxt.count > p.r then (OutOfMemory, Place(st, cur, nxt))
    else
      var lag := Lagging(p, cur, nxt);
      if |lag| == 0 then
        (Converged, Advance(st, cur.(count := 0), nxt).(BTilde := Range(p.r), rTilde := p.r))
      else
        (Success, Place(st, cur, nxt).(BTilde := lag + st.BTilde[|lag|..], rTilde := |lag|))
  }

  /** The invariant of a sweep: besides Sane, V_{n+1} has room for one vector per
      belief still in BTilde, BTilde is increasing, and every stored belief not in
      BTilde is already at least as well off under V_{n+1} as under V_n. */
  predicate Sweeping(p: ValidPomdp, st: State) {
    && Sane(p, st)
    && Next(st).count + st.rTilde <= p.r
    && Ascending(st.BTilde[..st.rTilde])
    && forall i: nat :: i < p.r && i !in st.BTilde[..st.rTilde] ==> !Lags(p, i, Current(st), Next(st))
  }

  // ---------------------------------------------------------------------------
  // Properties
  // ---------------------------------------------------------------------------

  /** Filter is the increasing list of exactly the flagged indices below k. */
  lemma {:induction false} FilterIsFilter(flags: seq<bool>, k: nat)
    requires k <= |flags|
    ensures Ascending(Filter(flags, k))
    ensures forall i: nat :: i in Filter(flags, k) <==> i < k && flags[i]
  {
    if k > 0 {
      FilterIsFilter(flags, k - 1);
    }
  }

  /** Lagging lists, in increasing order, exactly the stored beliefs that lag. */
  lemma LaggingIsFilter(p: ValidPomdp, cur: Buffer, nxt: Buffer)
    requires Fits(p, cur) && Fits(p, nxt)
    ensures Ascending(Lagging(p, cur, nxt))
    ensures forall i: nat :: i in Lagging(p, cur, nxt) <==> i < p.r && Lags(p, i, cur, nxt)
  {
    FilterIsFilter(LagFlags(p, cur, nxt), p.r);
  }

  /** The set of elements of a sequence. */
  function Elems(xs: seq<nat>): set<nat> {
    set x | x in xs
  }

  /** An increasing sequence has as many elements as distinct values. */
  lemma {:induction false} AscendingCard(xs: seq<nat>)
    requires Ascending(xs)
    ensures |Elems(xs)| == |xs|
  {
    if |xs| > 0 {
      var k := |xs| - 1;
      var ys := xs[..k];
      assert Ascending(ys);
      AscendingCard(ys);
      assert forall x :: x in xs <==> x in ys || x == xs[k];
      assert Elems(xs) == Elems(ys) + {xs[k]};
      assert xs[k] !in Elems(ys);
    }
  }

  /** An increasing sequence drawn from another one, and missing one of its
      values, is strictly shorter. */
  lemma Shrinks(xs: seq<nat>, ys: seq<nat>, b: nat)
    requires Ascending(xs) && Ascending(ys)
    requires forall x :: x in xs ==> x in ys
    requires b in ys && b !in xs
    ensures |xs| < |ys|
  {
    AscendingCard(xs);
    AscendingCard(ys);
    var A, B := Elems(xs), Elems(ys) - {b};
    assert A <= B;
    assert B == A + (B - A) && A * (B - A) == {};
    assert |Elems(ys) - {b}| == |Elems(ys)| - 1;
  }

  /** Put appends: the vectors in use gain w at the end, the actions gain act,
      and nothing else of the buffer changes. */
  lemma PutAppends(p: ValidPomdp, b: Buffer, w: seq<real>, act: nat)
    requires Fits(p, b) && b.count < p.r && |w| == p.n
    ensures Vecs(p, Put(p, b, w, act)) == Vecs(p, b) + [w]
    ensures Put(p, b, w, act).pi[..b.count + 1] == b.pi[..b.count] + [act]
  {
    RowBound(b.count, p.r, p.n);
    var b' := Put(p, b, w, act);
    MulMono(b.count, p.r, p.n);
    MulMono(b'.count, p.r, p.n);
    forall j | 0 <= j < b'.count
      ensures Vecs(p, b')[j] == (Vecs(p, b) + [w])[j]
    {
      VectorsAt(b'.G, p.n, b'.count, j);
      if j < b.count {
        VectorsAt(b.G, p.n, b.count, j);
        RowBound(j, b.count, p.n);
        assert Row(b'.G, p.n, j) == Row(b.G, p.n, j);
      } else {
        assert Row(b'.G, p.n, j) == w;
      }
    }
    assert b'.pi[..b.count + 1] == b.pi[..b.count] + [act];
  }

  /** One more vector: V(b) becomes the larger of the old V(b) and b·w. */
  lemma ValueSnoc(p: ValidPomdp, i: nat, vs: seq<seq<real>>, w: seq<real>)
    requires i < p.r && (forall j :: 0 <= j < |vs| ==> |vs[j]| == p.n) && |w| == p.n
    ensures Value(p, i, vs + [w]) == if Value(p, i, vs) < BDotAlpha(p, i, w) then BDotAlpha(p, i, w) else Value(p, i, vs)
  {
    assert Values(p, i, vs + [w]) == Values(p, i, vs) + [BDotAlpha(p, i, w)];
    SeededMaxSnoc(Values(p, i, vs), BDotAlpha(p, i, w));
  }

  /** The append rule: an accepted alpha is appended with its action; otherwise
      the vector of V_n that attains V_n(bIndex) is, with its action (row 0 of
      the buffer when no vector of V_n beats FLT_MIN). Either way V_{n+1} gains
      exactly one vector and its earlier vectors and actions are kept. */
  lemma AppendRule(p: ValidPomdp, cur: Buffer, nxt: Buffer, bIndex: nat, alpha: seq<real>, action: nat)
    requires Fits(p, cur) && Fits(p, nxt) && nxt.count < p.r && bIndex < p.r && |alpha| == p.n
    ensures var b := Append(p, cur, nxt, bIndex, alpha, action);
      var x := Value(p, bIndex, Vecs(p, cur));
      if BDotAlpha(p, bIndex, alpha) >= x then
        Vecs(p, b) == Vecs(p, nxt) + [alpha] && b.pi[..b.count] == nxt.pi[..nxt.count] + [action]
      else
        exists k: nat :: k < p.r && k * p.n + p.n <= |cur.G|
          && Vecs(p, b) == Vecs(p, nxt) + [Row(cur.G, p.n, k)] && b.pi[..b.count] == nxt.pi[..nxt.count] + [cur.pi[k]]
          && if x > FltMin then k < cur.count && BDotAlpha(p, bIndex, Vecs(p, cur)[k]) == x
             else k == 0
  {
    var xs := Values(p, bIndex, Vecs(p, cur));
    var k := FirstArgMax(xs, 0);
    RowFits(k, p.r, p.n, |cur.G|);
    if BDotAlpha(p, bIndex, alpha) >= Value(p, bIndex, Vecs(p, cur)) {
      PutAppends(p, nxt, alpha, action);
    } else {
      PutAppends(p, nxt, Row(cur.G, p.n, k), cur.pi[k]);
      FirstArgMaxIsFirst(xs, 0);
      if SeededMax(xs) > FltMin {
        MulMono(cur.count, p.r, p.n);
        VectorsAt(cur.G, p.n, cur.count, k);
      }
    }
  }

  /** Appending never lowers a value of V_{n+1}, and it lifts V_{n+1}(bIndex) to
      at least V_n(bIndex). */
  lemma AppendRaises(p: ValidPomdp, cur: Buffer, nxt: Buffer, bIndex: nat, alpha: seq<real>, action: nat)
    requires Fits(p, cur) && Fits(p, nxt) && nxt.count < p.r && bIndex < p.r && |alpha| == p.n
    ensures forall i :: 0 <= i < p.r ==>
      Value(p, i, Vecs(p, Append(p, cur, nxt, bIndex, alpha, action))) >= Value(p, i, Vecs(p, nxt))
    ensures Value(p, bIndex, Vecs(p, Append(p, cur, nxt, bIndex, alpha, action))) >= Value(p, bIndex, Vecs(p, cur))
  {
    var b := Append(p, cur, nxt, bIndex, alpha, action);
    var x := Value(p, bIndex, Vecs(p, cur));
    AppendRule(p, cur, nxt, bIndex, alpha, action);
    var w: seq<real> :| |w| == p.n && Vecs(p, b) == Vecs(p, nxt) + [w]
      && (BDotAlpha(p, bIndex, alpha) >= x ==> BDotAlpha(p, bIndex, w) >= x)
      && (BDotAlpha(p, bIndex, alpha) < x && x > FltMin ==> BDotAlpha(p, bIndex, w) == x);
    forall i | 0 <= i < p.r
      ensures Value(p, i, Vecs(p, b)) >= Value(p, i, Vecs(p, nxt))
    {
      ValueSnoc(p, i, Vecs(p, nxt), w);
    }
    ValueSnoc(p, bIndex, Vecs(p, nxt), w);
  }

  /** After the append, every lagging belief was already in BTilde, the sampled
      belief no longer lags, and so strictly fewer beliefs lag than BTilde held. */
  lemma LaggingShrinks(p: ValidPomdp, st: State, d: Draw)
    requires Sweeping(p, st) && DrawFits(p, d)
    ensures forall x :: x in Lagging(p, Current(st), Grown(p, st, d)) ==> x in st.BTilde[..st.rTilde]
    ensures Sampled(p, st, d) !in Lagging(p, Current(st), Grown(p, st, d))
    ensures |Lagging(p, Current(st), Grown(p, st, d))| < st.rTilde
  {
    var cur, nxt := Current(st), Grown(p, st, d);
    var i := Sampled(p, st, d);
    var before := st.BTilde[..st.rTilde];
    var lag := Lagging(p, cur, nxt);
    AppendRaises(p, cur, Next(st), i, Backed(p, cur, i, d), BackedAction(p, cur, i, d));
    LaggingIsFilter(p, cur, nxt);
    forall x | x in lag
      ensures x in before
    {
      assert Lags(p, x, cur, Next(st));
    }
    assert before[Pick(d.u, st.rTilde)] == i;
    Shrinks(lag, before, i);
  }

  /** The state after an update that leaves lagging beliefs, for any grown
      buffer nxt: BTilde becomes the lagging list. */
  lemma SucceededSweeping(p: ValidPomdp, st: State, nxt: Buffer)
    requires Sane(p, st) && Fits(p, nxt) && nxt.count == Next(st).count + 1
    requires 0 < |Lagging(p, Current(st), nxt)| && nxt.count + |Lagging(p, Current(st), nxt)| <= p.r
    ensures var lag := Lagging(p, Current(st), nxt);
      Sweeping(p, Place(st, Current(st), nxt).(BTilde := lag + st.BTilde[|lag|..], rTilde := |lag|))
  {
    var lag := Lagging(p, Current(st), nxt);
    var st' := Place(st, Current(st), nxt).(BTilde := lag + st.BTilde[|lag|..], rTilde := |lag|);
    LaggingIsFilter(p, Current(st), nxt);
    assert st'.BTilde[..st'.rTilde] == lag;
  }

  /** The state after an update that leaves no lagging belief, for any grown
      buffer nxt: the horizon advances, BTilde is reset to every stored belief. */
  lemma ConvergedSweeping(p: ValidPomdp, st: State, nxt: Buffer)
    requires Sane(p, st) && Fits(p, nxt)
    ensures Sweeping(p, Advance(st, Current(st).(count := 0), nxt).(BTilde := Range(p.r), rTilde := p.r))
  {
    var st' := Advance(st, Current(st).(count := 0), nxt).(BTilde := Range(p.r), rTilde := p.r);
    forall i: nat | i < p.r
      ensures i in st'.BTilde[..st'.rTilde]
    {
      assert st'.BTilde[..st'.rTilde][i] == i;
    }
  }

  /** What one update does to the horizon, BTilde and the buffers: on Success
      the horizon stays, BTilde strictly shrinks and V_{n+1} holds the grown
      buffer; otherwise the update converged, the horizon advances by one, the
      buffers swap roles, the grown buffer becomes V_n and the other one is
      emptied. In particular the capacity error never occurs. */
  lemma StepProgress(p: ValidPomdp, st: State, d: Draw)
    requires Sweeping(p, st) && DrawFits(p, d)
    ensures var (status, st') := Step(p, st, d);
      if status == Success then
        && st'.horizon == st.horizon && st'.rTilde < st.rTilde
        && Current(st') == Current(st) && Next(st') == Grown(p, st, d)
      else
        && status == Converged && st'.horizon == st.horizon + 1 && st'.rTilde == p.r
        && Current(st') == Grown(p, st, d) && Next(st') == Current(st).(count := 0)
  {
    LaggingShrinks(p, st, d);
  }

  /** One update keeps the sweep invariant. */
  lemma StepKeepsSweep(p: ValidPomdp, st: State, d: Draw)
    requires Sweeping(p, st) && DrawFits(p, d)
    ensures Sweeping(p, Step(p, st, d).1)
  {
    var cur, nxt := Current(st), Grown(p, st, d);
    var lag := Lagging(p, cur, nxt);
    LaggingShrinks(p, st, d);
    if |lag| == 0 {
      ConvergedSweeping(p, st, nxt);
    } else {
      SucceededSweeping(p, st, nxt);
    }
  }

  /** Step in terms of the grown buffer: the capacity check passes, and the
      outcome depends only on whether any stored belief lags. */
  lemma StepOutcome(p: ValidPomdp, st: State, d: Draw, nxt: Buffer)
    requires Sane(p, st) && DrawFits(p, d) && nxt == Grown(p, st, d)
    ensures nxt.count <= p.r
    ensures var lag := Lagging(p, Current(st), nxt);
      Step(p, st, d) ==
        if |lag| == 0 then (Converged, Advance(st, Current(st).(count := 0), nxt).(BTilde := Range(p.r), rTilde := p.r))
        else (Success, Place(st, Current(st), nxt).(BTilde := lag + st.BTilde[|lag|..], rTilde := |lag|))
  {
  }

  /** The guarantee of Perseus: an update that converges leaves no stored belief
      worse off, so the value function the new horizon starts from is at least
      the previous one at every stored belief. */
  lemma ConvergedMonotone(p: ValidPomdp, st: State, d: Draw)
    requires Sweeping(p, st) && DrawFits(p, d)
    ensures Step(p, st, d).0 == Converged ==>
      && Current(Step(p, st, d).1) == Grown(p, st, d)
      && forall i :: 0 <= i < p.r ==>
           Value(p, i, Vecs(p, Grown(p, st, d))) >= Value(p, i, Vecs(p, Current(st)))
  {
    var cur, nxt := Current(st), Grown(p, st, d);
    StepOutcome(p, st, d, nxt);
    StepProgress(p, st, d);
    LaggingIsFilter(p, cur, nxt);
    if Step(p, st, d).0 == Converged {
      forall i | 0 <= i < p.r
        ensures Value(p, i, Vecs(p, nxt)) >= Value(p, i, Vecs(p, cur))
      {
        assert i !in Lagging(p, cur, nxt);
      }
    }
  }

  /** Advancing overwrites both buffers, BTilde and rTilde, so what an update
      stored in them beforehand does not matter. */
  lemma AdvanceOverwrites(st: State, cur: Buffer, nxt: Buffer, B: seq<nat>, k: nat, B': seq<nat>, k': nat)
    ensures var s := Place(st, cur, nxt).(BTilde := B, rTilde := k);
      Advance(s, Current(s).(count := 0), Next(s)).(BTilde := B', rTilde := k')
        == Advance(st, cur.(count := 0), nxt).(BTilde := B', rTilde := k')
  {
  }

  // ---------------------------------------------------------------------------
  // Initialisation, policy extraction and whole runs
  // ---------------------------------------------------------------------------

  /** r zeros. */
  function Zeros(r: nat): (xs: seq<nat>)
    ensures |xs| == r && forall i :: 0 <= i < r ==> xs[i] == 0
  {
    seq(r, i requires 0 <= i < r => 0)
  }

  /** The state pomdp_perseus_initialize_cpu leaves: horizon 0, both buffers
      holding the first r*n entries of initialGamma with no vector in use and
      all actions 0, and BTilde listing every stored belief. */
  function Init(p: ValidPomdp, initialGamma: seq<real>): (st: State)
    requires |initialGamma| >= p.r * p.n
  {
    var b := Buffer(initialGamma[..p.r * p.n], Zeros(p.r), 0);
    State(0, b, b, Range(p.r), p.r)
  }

  /** A state whose BTilde lists every stored belief and whose V_{n+1} is empty
      starts a sweep. */
  lemma FreshSweep(p: ValidPomdp, st: State)
    requires p.r > 0 && Fits(p, st.first) && Fits(p, st.second)
    requires st.BTilde == Range(p.r) && st.rTilde == p.r && Next(st).count == 0
    ensures Sweeping(p, st)
  {
    forall i: nat | i < p.r
      ensures i in st.BTilde[..st.rTilde]
    {
      assert st.BTilde[..st.rTilde][i] == i;
    }
  }

  /** Initialisation starts a sweep whenever there is a stored belief. */
  lemma InitSweeping(p: ValidPomdp, initialGamma: seq<real>)
    requires p.r > 0 && |initialGamma| >= p.r * p.n
    ensures Sweeping(p, Init(p, initialGamma))
  {
    FreshSweep(p, Init(p, initialGamma));
  }

  /** A policy: n, m, the number r of its vectors, the vectors as a flat r*n
      buffer, and the action of each vector. */
  datatype AlphaVectors = AlphaVectors(n: nat, m: nat, r: nat, Gamma: seq<real>, pi: seq<nat>)

  /** The vectors in use in a buffer, with their actions, as a policy. */
  function Exported(p: ValidPomdp, b: Buffer): (pol: AlphaVectors)
    requires Fits(p, b)
  {
    MulMono(b.count, p.r, p.n);
    AlphaVectors(p.n, p.m, b.count, b.G[..b.count * p.n], b.pi[..b.count])
  }

  /** What pomdp_perseus_get_policy_cpu copies out: the vectors in use in V_n,
      with their actions. */
  function Policy(p: ValidPomdp, st: State): (pol: AlphaVectors)
    requires Fits(p, Current(st))
  {
    Exported(p, Current(st))
  }

  /** The policy holds exactly the vectors and actions in use in V_n. */
  lemma PolicyIsCurrent(p: ValidPomdp, st: State)
    requires Fits(p, Current(st))
    ensures var pol := Policy(p, st);
      && pol.n == p.n && pol.m == p.m && pol.r == Current(st).count
      && |pol.Gamma| == pol.r * p.n && Vectors(pol.Gamma, p.n, pol.r) == Vecs(p, Current(st))
      && pol.pi == Current(st).pi[..pol.r]
  {
    var c := Current(st);
    var pol := Policy(p, st);
    MulMono(c.count, p.r, p.n);
    forall j | 0 <= j < c.count
      ensures Vectors(pol.Gamma, p.n, pol.r)[j] == Vecs(p, c)[j]
    {
      VectorsAt(pol.Gamma, p.n, pol.r, j);
      VectorsAt(c.G, p.n, c.count, j);
      RowBound(j, c.count, p.n);
    }
  }

  /** Every update draws from the injected randomness. */
  predicate AllFit(p: ValidPomdp, draws: seq<Draw>) {
    forall k :: 0 <= k < |draws| ==> DrawFits(p, draws[k])
  }

  /** Enough draws remain for the rest of the run: r per remaining horizon,
      less the updates of the current sweep already spent. */
  predicate Budget(p: ValidPomdp, st: State, draws: seq<Draw>) {
    st.horizon <= p.horizon && Mul(p.horizon - st.horizon, p.r) <= |draws| + Next(st).count
  }

  /** While the horizon is not reached a draw remains, and after the update the
      remaining draws still suffice. */
  lemma BudgetStep(p: ValidPomdp, st: State, draws: seq<Draw>)
    requires Sweeping(p, st) && AllFit(p, draws) && Budget(p, st, draws) && st.horizon < p.horizon
    ensures |draws| > 0
    ensures Budget(p, Step(p, st, draws[0]).1, draws[1..])
  {
    var k := p.horizon - st.horizon;
    assert Mul(k, p.r) == Mul(k - 1, p.r) + p.r;
    StepProgress(p, st, draws[0]);
    BudgetAfter(p, st, Step(p, st, draws[0]).1, draws);
  }

  /** The arithmetic of BudgetStep, for any successor state st' of either kind. */
  lemma BudgetAfter(p: ValidPomdp, st: State, st': State, draws: seq<Draw>)
    requires Budget(p, st, draws) && st.horizon < p.horizon && 0 < |draws| && Next(st).count < p.r
    requires || (st'.horizon == st.horizon && Next(st').count == Next(st).count + 1)
             || (st'.horizon == st.horizon + 1 && Next(st').count == 0)
    ensures Budget(p, st', draws[1..])
  {
    var k := p.horizon - st.horizon;
    assert Mul(k, p.r) == Mul(k - 1, p.r) + p.r;
  }

  /** pomdp_perseus_execute_cpu's update loops on abstract states: updates until
      the horizon is reached. Each sweep ends on a Converged update, which is the
      only one that advances the horizon. */
  function Run(p: ValidPomdp, st: State, draws: seq<Draw>): (st': State)
    requires Sweeping(p, st) && AllFit(p, draws) && Budget(p, st, draws)
    ensures Sweeping(p, st') && st'.horizon == p.horizon
    decreases p.horizon - st.horizon, st.rTilde
  {
    if st.horizon == p.horizon then st
    else
      BudgetStep(p, st, draws);
      StepProgress(p, st, draws[0]);
      StepKeepsSweep(p, st, draws[0]);
      Run(p, Step(p, st, draws[0]).1, draws[1..])
  }

  /** The whole solve: initialisation followed by the update loops. */
  function Solve(p: ValidPomdp, initialGamma: seq<real>, draws: seq<Draw>): (st: State)
    requires p.r > 0 && |initialGamma| >= p.r * p.n
    requires AllFit(p, draws) && |draws| >= p.horizon * p.r
    ensures Sweeping(p, st) && st.horizon == p.horizon
  {
    InitSweeping(p, initialGamma);
    MulIs(p.horizon, p.r);
    Run(p, Init(p, initialGamma), draws)
  }

  /** A run that performs at least one sweep ends with the vectors its last sweep
      built as V_n: at least one of them, at most r. */
  lemma {:induction false} RunPolicy(p: ValidPomdp, st: State, draws: seq<Draw>)
    requires Sweeping(p, st) && AllFit(p, draws) && Budget(p, st, draws) && st.horizon < p.horizon
    ensures 0 < Current(Run(p, st, draws)).count <= p.r
    decreases p.horizon - st.horizon, st.rTilde
  {
    BudgetStep(p, st, draws);
    StepProgress(p, st, draws[0]);
    StepKeepsSweep(p, st, draws[0]);
    var st' := Step(p, st, draws[0]).1;
    if st'.horizon < p.horizon {
      RunPolicy(p, st', draws[1..]);
    }
  }
}
