/**
 * The read-only POMDP description the solver consumes: dimensions, the discount
 * factor, the horizon and six flat row-major tables, indexed as the source
 * indexes them.
 *
 *   S[s*m*ns + a*ns + l]  l-th successor of (s, a), or a negative sentinel
 *   T[s*m*ns + a*ns + l]  its transition probability
 *   O[a*n*z + sp*z + o]   probability of observation o after a, landing in sp
 *   R[s*m + a]            reward
 *   Z[i*rz + k]           k-th state of stored belief i, or a negative sentinel
 *   B[i*rz + k]           its probability
 */
module Model {
  import opened Sparse

  datatype Pomdp = Pomdp(
    n: nat, ns: nat, m: nat, z: nat, r: nat, rz: nat,
    gamma: real, horizon: nat,
    S: seq<int>, T: seq<real>, O: seq<real>, R: seq<real>, Z: seq<int>, B: seq<real>)
  {
    /** Every table has the size its dimensions give it. */
    predicate Shaped() {
      && |S| == n * m * ns && |T| == n * m * ns
      && |O| == m * n * z && |R| == n * m
      && |Z| == r * rz && |B| == r * rz
    }

    /** Offset of the successor row of (s, a) in S and T. */
    function SBase(s: nat, a: nat): (base: nat)
      requires Shaped() && s < n && a < m
      ensures base + ns <= |S|
    {
      MulCell(s, a, n, m);
      MulRow(Mul(s, m) + a, Mul(n, m), ns);
      MulIs(n, m);
      MulIs(Mul(n, m), ns);
      Mul(Mul(s, m) + a, ns)
    }

    /** The successor states of (s, a), up to and past the sentinel. */
    function SRow(s: nat, a: nat): (row: seq<int>)
      requires Shaped() && s < n && a < m
      ensures |row| == ns
    {
      S[SBase(s, a)..SBase(s, a) + ns]
    }

    /** The transition probabilities aligned with SRow(s, a). */
    function TRow(s: nat, a: nat): (row: seq<real>)
      requires Shaped() && s < n && a < m
      ensures |row| == ns
    {
      T[SBase(s, a)..SBase(s, a) + ns]
    }

    /** O[a*n*z + sp*z + o]. */
    function Obs(a: nat, sp: nat, o: nat): real
      requires Shaped() && a < m && sp < n && o < z
    {
      MulCell(a, sp, m, n);
      MulCell(Mul(a, n) + sp, o, Mul(m, n), z);
      MulIs(m, n);
      MulIs(Mul(m, n), z);
      O[Mul(Mul(a, n) + sp, z) + o]
    }

    /** R[s*m + a]. */
    function Reward(s: nat, a: nat): real
      requires Shaped() && s < n && a < m
    {
      MulCell(s, a, n, m);
      MulIs(n, m);
      R[Mul(s, m) + a]
    }

    /** Offset of stored belief i in Z and B. */
    function ZBase(i: nat): (base: nat)
      requires Shaped() && i < r
      ensures base + rz <= |Z|
    {
      MulRow(i, r, rz);
      MulIs(r, rz);
      Mul(i, rz)
    }

    /** The states of stored belief i, up to and past the sentinel. */
    function ZRow(i: nat): (row: seq<int>)
      requires Shaped() && i < r
      ensures |row| == rz
    {
      Z[ZBase(i)..ZBase(i) + rz]
    }

    /** The probabilities aligned with ZRow(i). */
    function BRow(i: nat): (row: seq<real>)
      requires Shaped() && i < r
      ensures |row| == rz
    {
      B[ZBase(i)..ZBase(i) + rz]
    }

    /** The successors of (s, a) before the sentinel are states. */
    predicate SuccessorsInRange(s: nat, a: nat)
      requires Shaped() && s < n && a < m
    {
      forall l :: 0 <= l < RunLength(SRow(s, a)) ==> SRow(s, a)[l] < n
    }

    /** The entries of stored belief i before the sentinel are states. */
    predicate BeliefInRange(i: nat)
      requires Shaped() && i < r
    {
      forall k :: 0 <= k < RunLength(ZRow(i)) ==> ZRow(i)[k] < n
    }

    /** The l-th successor of (s, a), for l before the sentinel. */
    function Succ(s: nat, a: nat, l: nat): (sp: nat)
      requires Valid() && s < n && a < m && l < RunLength(SRow(s, a))
      ensures sp < n && sp == SRow(s, a)[l]
    {
      assert SuccessorsInRange(s, a);
      SRow(s, a)[l]
    }

    /** The k-th state of stored belief i, for k before the sentinel. */
    function BeliefState(i: nat, k: nat): (s: nat)
      requires Valid() && i < r && k < RunLength(ZRow(i))
      ensures s < n && s == ZRow(i)[k]
    {
      assert BeliefInRange(i);
      ZRow(i)[k]
    }

    /** What the source assumes of a loaded model and never checks: tables of the
        right size whose sparse runs name states. Entries after a sentinel are
        unconstrained, since they are never read. */
    predicate Valid() {
      && Shaped()
      && (forall s, a :: 0 <= s < n && 0 <= a < m ==> SuccessorsInRange(s, a))
      && (forall i :: 0 <= i < r ==> BeliefInRange(i))
    }
  }

  /** A model the solver can run on: every table read stays in bounds. */
  type ValidPomdp = p: Pomdp | p.Valid()
    witness Pomdp(0, 0, 0, 0, 0, 0, 0.0, 0, [], [], [], [], [], [])

  /** Row j of width n of a flat row-major buffer, the vector the source
      addresses as &g[j*n]. */
  function Row(g: seq<real>, n: nat, j: nat): (v: seq<real>)
    requires j * n + n <= |g|
    ensures |v| == n
  {
    g[j * n..j * n + n]
  }

  /** A memcpy of vector w into row j of the flat buffer dst. */
  method WriteRow(dst: array<real>, n: nat, j: nat, w: seq<real>)
    requires j * n + n <= dst.Length && |w| == n
    modifies dst
    ensures dst[..] == old(dst[..])[..j * n] + w + old(dst[..])[j * n + n..]
  {
    forall t | 0 <= t < n {
      dst[j * n + t] := w[t];
    }
    assert dst[..] == old(dst[..])[..j * n] + w + old(dst[..])[j * n + n..];
  }

  /** The first `count` rows of width n of a flat row-major buffer. */
  function Vectors(g: seq<real>, n: nat, count: nat): (vs: seq<seq<real>>)
    requires count * n <= |g|
    ensures |vs| == count
    ensures forall j :: 0 <= j < count ==> |vs[j]| == n
  {
    seq(count, j requires 0 <= j < count => RowFits(j, count, n, |g|); Row(g, n, j))
  }

  /** Vector j of Vectors(g, n, count) is the slice the source addresses as &g[j*n]. */
  lemma VectorsAt(g: seq<real>, n: nat, count: nat, j: nat)
    requires count * n <= |g| && j < count
    ensures j * n + n <= |g| && Vectors(g, n, count)[j] == Row(g, n, j)
  {
    RowFits(j, count, n, |g|);
  }

  /** Natural multiplication by repeated addition. Flat-table offsets are computed
      with it so that the solver unfolds an offset one step at a time instead of
      reasoning about products of unknowns; MulIs ties it to `*`. */
  function Mul(a: nat, b: nat): nat {
    if a == 0 then 0 else Mul(a - 1, b) + b
  }

  lemma {:induction false} MulIs(a: nat, b: nat)
    ensures Mul(a, b) == a * b
  {
    if a > 0 {
      MulIs(a - 1, b);
      assert (a - 1) * b + b == a * b;
    }
  }

  /** Row i of a table of `rows` rows of width `cols` ends inside the table. */
  lemma {:induction false} MulRow(i: nat, rows: nat, cols: nat)
    requires i < rows
    ensures Mul(i, cols) + cols <= Mul(rows, cols)
  {
    if i < rows - 1 {
      MulRow(i, rows - 1, cols);
    }
  }

  /** Cell (i, j) of a table of `rows` rows of width `cols` lies inside the table. */
  lemma MulCell(i: nat, j: nat, rows: nat, cols: nat)
    requires i < rows && j < cols
    ensures Mul(i, cols) + j < Mul(rows, cols)
  {
    MulRow(i, rows, cols);
  }

  lemma MulMono(a: nat, b: nat, c: nat)
    requires a <= b
    ensures a * c <= b * c
  {
  }

  /** Row j of a buffer holding `count` rows of width n lies inside the buffer. */
  lemma RowFits(j: nat, count: nat, n: nat, size: nat)
    requires j < count && count * n <= size
    ensures j * n + n <= size
  {
    RowBound(j, count, n);
  }

  /** Row i of a table with `rows` rows of width `cols` fits in the table. */
  lemma RowBound(i: nat, rows: nat, cols: nat)
    requires i < rows
    ensures i * cols + cols <= rows * cols
  {
    assert i * cols + cols == (i + 1) * cols;
    MulMono(i + 1, rows, cols);
  }
}
