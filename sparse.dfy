/**
 * Shared vocabulary of the solver: sentinel-terminated sparse rows and the
 * "strict improvement over a FLT_MIN seed" maximum used by every argmax.
 */
module Sparse {

  /** A value that may be absent: a nullable pointer, or a result that may be undefined. */
  datatype Option<T> = None | Some(value: T)

  /** FLT_MIN, the smallest positive normal single-precision float (2^-126).
      It is a small positive number, not minus infinity, and seeds every maximum. */
  const FltMin: real := 1.0 / 85070591730234615865843651857942052864.0

  /** Real multiplication as a named function. Every product of the model is
      written through it, in the specifications and in the loops alike, so that
      the solver matches products term by term rather than arithmetically. */
  function Times(x: real, y: real): real {
    x * y
  }

  /** An index below k drawn from u = rand() / RAND_MAX: u * k, truncated.
      u = 1 (rand() returning RAND_MAX) is excluded, since it would give k. */
  function Pick(u: real, k: nat): (j: nat)
    requires 0.0 <= u < 1.0 && k > 0
    ensures j < k
  {
    assert 0.0 <= u * k as real < k as real;
    (u * k as real).Floor
  }

  /** Left-to-right sum of xs, the shape of every accumulating loop. */
  function Sum(xs: seq<real>): real {
    if |xs| == 0 then 0.0 else Sum(xs[..|xs| - 1]) + xs[|xs| - 1]
  }

  /** One more element of a running sum. */
  lemma SumStep(xs: seq<real>, k: nat)
    requires k < |xs|
    ensures Sum(xs[..k + 1]) == Sum(xs[..k]) + xs[k]
  {
    assert xs[..k + 1][..k] == xs[..k];
  }

  /** A left-to-right sum splits off its first element as well. */
  lemma {:induction false} SumFront(xs: seq<real>)
    requires |xs| > 0
    ensures Sum(xs) == xs[0] + Sum(xs[1..])
  {
    var k := |xs| - 1;
    if k > 0 {
      SumFront(xs[..k]);
      assert xs[..k][1..] == xs[1..][..k - 1];
    }
  }

  /** The sum of a suffix is its first element plus the sum of the rest. */
  lemma SumSuffix(xs: seq<real>, o: nat)
    requires o < |xs|
    ensures Sum(xs[o..]) == xs[o] + Sum(xs[o + 1..])
  {
    SumFront(xs[o..]);
    assert xs[o..][1..] == xs[o + 1..];
  }

  /** One more step of a loop that overwrites b with a entry by entry: entry s of
      the half-done sequence is still b[s], and writing a[s] there advances it. */
  lemma PrefixStep<T>(a: seq<T>, b: seq<T>, s: nat)
    requires |a| == |b| && s < |a|
    ensures (a[..s] + b[s..])[s] == b[s]
    ensures (a[..s] + b[s..])[s := a[s]] == a[..s + 1] + b[s + 1..]
  {
    assert (a[..s] + b[s..])[s := a[s]] == a[..s + 1] + b[s + 1..];
  }

  /** Length of the run of non-negative entries of a sparse row starting at
      offset j: the first negative entry (the sentinel -1) ends the row, and
      nothing after it belongs to the row. */
  function RunFrom(row: seq<int>, j: nat): (len: nat)
    requires j <= |row|
    ensures j <= len <= |row|
    ensures forall k :: j <= k < len ==> row[k] >= 0
    ensures len < |row| ==> row[len] < 0
    decreases |row| - j
  {
    if j == |row| || row[j] < 0 then j else RunFrom(row, j + 1)
  }

  /** Number of entries of a sparse row before its sentinel. */
  function RunLength(row: seq<int>): (len: nat)
    ensures len <= |row|
    ensures forall k :: 0 <= k < len ==> row[k] >= 0
    ensures len < |row| ==> row[len] < 0
  {
    RunFrom(row, 0)
  }

  /** The run length depends only on the entries up to and including the sentinel. */
  lemma {:induction false} RunFromIgnoresTail(row: seq<int>, row': seq<int>, j: nat)
    requires |row'| == |row| && j <= |row|
    requires forall k :: j <= k < |row| && k <= RunFrom(row, j) ==> row'[k] == row[k]
    ensures RunFrom(row', j) == RunFrom(row, j)
    decreases |row| - j
  {
    if j < |row| && row[j] >= 0 {
      RunFromIgnoresTail(row, row', j + 1);
    }
  }

  /** The maximum of FLT_MIN and the elements of xs, taken left to right and
      replaced only on a strict improvement, as every maximising loop does. */
  function SeededMax(xs: seq<real>): (best: real)
    ensures best >= FltMin
  {
    if |xs| == 0 then FltMin
    else
      var prev := SeededMax(xs[..|xs| - 1]);
      if prev < xs[|xs| - 1] then xs[|xs| - 1] else prev
  }

  /** The index kept by the same loop: the last strict improvement, starting from
      `init`, the value the index variable held before the loop. */
  function FirstArgMax(xs: seq<real>, init: nat): (i: nat)
    ensures i < |xs| || i == init
  {
    if |xs| == 0 then init
    else if SeededMax(xs[..|xs| - 1]) < xs[|xs| - 1] then |xs| - 1
    else FirstArgMax(xs[..|xs| - 1], init)
  }

  /** SeededMax bounds every element and is FLT_MIN or one of them. */
  lemma {:induction false} SeededMaxIsMax(xs: seq<real>)
    ensures forall j :: 0 <= j < |xs| ==> xs[j] <= SeededMax(xs)
    ensures SeededMax(xs) == FltMin || exists j :: 0 <= j < |xs| && xs[j] == SeededMax(xs)
  {
    if |xs| > 0 {
      var k := |xs| - 1;
      SeededMaxIsMax(xs[..k]);
      assert forall j :: 0 <= j < k ==> xs[..k][j] == xs[j];
    }
  }

  /** FirstArgMax is the first index holding the maximum when the maximum beats
      FLT_MIN, and the initial value otherwise. */
  lemma {:induction false} FirstArgMaxIsFirst(xs: seq<real>, init: nat)
    ensures SeededMax(xs) > FltMin ==>
      && FirstArgMax(xs, init) < |xs| && xs[FirstArgMax(xs, init)] == SeededMax(xs)
      && forall j :: 0 <= j < FirstArgMax(xs, init) ==> xs[j] < SeededMax(xs)
    ensures SeededMax(xs) == FltMin ==> FirstArgMax(xs, init) == init
  {
    if |xs| > 0 {
      var k := |xs| - 1;
      FirstArgMaxIsFirst(xs[..k], init);
      SeededMaxIsMax(xs[..k]);
      assert forall j :: 0 <= j < k ==> xs[..k][j] == xs[j];
    }
  }

  /** Appending a value can only raise the seeded maximum. */
  lemma SeededMaxSnoc(xs: seq<real>, x: real)
    ensures SeededMax(xs + [x]) == if SeededMax(xs) < x then x else SeededMax(xs)
  {
    assert (xs + [x])[..|xs|] == xs;
  }

  /** Appending a value moves the index only on a strict improvement. */
  lemma FirstArgMaxSnoc(xs: seq<real>, x: real, init: nat)
    ensures FirstArgMax(xs + [x], init) == if SeededMax(xs) < x then |xs| else FirstArgMax(xs, init)
  {
    assert (xs + [x])[..|xs|] == xs;
  }

  /** The two snoc facts for a prefix of a sequence, the shape every maximising loop needs. */
  lemma MaxStep(xs: seq<real>, i: nat, init: nat)
    requires i < |xs|
    ensures SeededMax(xs[..i + 1]) == if SeededMax(xs[..i]) < xs[i] then xs[i] else SeededMax(xs[..i])
    ensures FirstArgMax(xs[..i + 1], init) == if SeededMax(xs[..i]) < xs[i] then i else FirstArgMax(xs[..i], init)
  {
    assert xs[..i + 1] == xs[..i] + [xs[i]];
    SeededMaxSnoc(xs[..i], xs[i]);
    FirstArgMaxSnoc(xs[..i], xs[i], init);
  }

  /** One pass of a maximising loop: with the running maximum and argmax of
      xs[..i] in hand, a strict improvement by xs[i] replaces both, and otherwise
      both are kept, giving the maximum and argmax of xs[..i + 1]. */
  lemma MaxAdvance(xs: seq<real>, i: nat, init: nat, best: real, index: nat, value: real)
    requires i < |xs| && value == xs[i]
    requires best == SeededMax(xs[..i]) && index == FirstArgMax(xs[..i], init)
    ensures (if value > best then value else best) == SeededMax(xs[..i + 1])
    ensures (if value > best then i else index) == FirstArgMax(xs[..i + 1], init)
  {
    MaxStep(xs, i, init);
  }

  /** When every element of xs is at most the matching element of ys, so is the maximum. */
  lemma {:induction false} SeededMaxMono(xs: seq<real>, ys: seq<real>)
    requires |xs| <= |ys|
    requires forall j :: 0 <= j < |xs| ==> xs[j] <= ys[j]
    ensures SeededMax(xs) <= SeededMax(ys)
  {
    if |xs| > 0 {
      var k := |xs| - 1;
      SeededMaxIsMax(ys);
      assert xs[k] <= ys[k] <= SeededMax(ys);
      assert forall j :: 0 <= j < k ==> xs[..k][j] == xs[j];
      SeededMaxMono(xs[..k], ys);
    }
  }
}
