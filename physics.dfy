/** The physics step of `OrbitalSim::update`, as functions on the sequence of
    bodies, and what is proved about it: the step keeps everything but the
    kinematic fields, the accumulated accelerations have a closed form in
    which only core bodies act as sources, the mass-weighted accelerations
    cancel, and total momentum is conserved. */
module Physics {
  import opened Vectors
  import opened Bodies

  /** GRAVITATIONAL_CONSTANT, 6.6743E-11 */
  const G: real := 0.000000000066743

  /** Two sequences of bodies that agree everywhere except, possibly, in
      their accelerations. */
  ghost predicate OnlyAccelerationsDiffer(a: seq<Body>, b: seq<Body>) {
    |a| == |b| && forall k :: 0 <= k < |a| ==> a[k] == b[k].(acceleration := a[k].acceleration)
  }

  /** Bodies a and b exist and sit at different positions. */
  ghost predicate Apart(bs: seq<Body>, a: int, b: int) {
    0 <= a < |bs| && 0 <= b < |bs| && bs[a].position != bs[b].position
  }

  /** Every pair that the step visits, a core body and any other body, is
      apart: the source divides by their distance without a guard. */
  ghost predicate Separated(bs: seq<Body>, core: nat) {
    forall i, j :: 0 <= i < core && 0 <= j < |bs| && i != j ==> Apart(bs, i, j) && Apart(bs, j, i)
  }

  lemma ApartKept(a: seq<Body>, b: seq<Body>, x: int, y: int)
    requires OnlyAccelerationsDiffer(a, b) && Apart(b, x, y)
    ensures Apart(a, x, y)
  {
    assert a[x] == b[x].(acceleration := a[x].acceleration);
    assert a[y] == b[y].(acceleration := a[y].acceleration);
  }

  lemma SeparatedKept(a: seq<Body>, b: seq<Body>, core: nat)
    requires OnlyAccelerationsDiffer(a, b) && Separated(b, core)
    ensures Separated(a, core)
  {
    forall i, j | 0 <= i < core && 0 <= j < |a| && i != j
      ensures Apart(a, i, j) && Apart(a, j, i)
    {
      ApartKept(a, b, i, j);
      ApartKept(a, b, j, i);
    }
  }

  /** Body i is apart from every body from lo on. */
  ghost predicate ApartFrom(bs: seq<Body>, i: int, lo: int) {
    forall k :: lo <= k < |bs| ==> Apart(bs, i, k)
  }

  lemma ApartFromKept(a: seq<Body>, b: seq<Body>, i: int, lo: int)
    requires OnlyAccelerationsDiffer(a, b) && ApartFrom(b, i, lo)
    ensures ApartFrom(a, i, lo)
  {
    forall k | lo <= k < |a| ensures Apart(a, i, k) {
      ApartKept(a, b, i, k);
    }
  }

  lemma SeparatedRow(bs: seq<Body>, core: nat, i: nat)
    requires Separated(bs, core) && i < core
    ensures ApartFrom(bs, i, i + 1)
  {
    forall k | i + 1 <= k < |bs| ensures Apart(bs, i, k) {
    }
  }

  /** `partialAcceleration`: the vector d scaled by -G / len^2. */
  function PartialAcceleration(d: Vector3, len: real): Vector3
    requires len > 0.0
  {
    Scale(d, -G / (len * len))
  }

  /* ---------------------------------------------------------------------- */
  /* Step 1: zero every acceleration                                        */

  function ZeroAccelerations(bs: seq<Body>): (r: seq<Body>)
    ensures OnlyAccelerationsDiffer(r, bs)
    ensures forall k :: 0 <= k < |r| ==> r[k].acceleration == Zero
  {
    seq(|bs|, k requires 0 <= k < |bs| => bs[k].(acceleration := Zero))
  }

  /* ---------------------------------------------------------------------- */
  /* Step 2: accumulate over the pairs (i, j), i < core, i < j < |bs|        */

  /** What the pair (i, j) adds to body i's acceleration: the vector from j
      to i, scaled by -G / len^2, times mass(j) / len. */
  function DeltaOnFirst(bs: seq<Body>, i: nat, j: nat, norm: Vector3 -> real): Vector3
    requires IsEuclideanLength(norm)
    requires i < |bs| && j < |bs| && Apart(bs, i, j)
  {
    var vectorDiff := Subtract(bs[i].position, bs[j].position);
    LengthPositive(norm, vectorDiff);
    var vectorLen := norm(vectorDiff);
    Scale(PartialAcceleration(vectorDiff, vectorLen), bs[j].mass / vectorLen)
  }

  /** What the pair (i, j) adds to body j's acceleration: the same scaled
      vector times -mass(i) / len. */
  function DeltaOnSecond(bs: seq<Body>, i: nat, j: nat, norm: Vector3 -> real): Vector3
    requires IsEuclideanLength(norm)
    requires i < |bs| && j < |bs| && Apart(bs, i, j)
  {
    var vectorDiff := Subtract(bs[i].position, bs[j].position);
    LengthPositive(norm, vectorDiff);
    var vectorLen := norm(vectorDiff);
    Scale(PartialAcceleration(vectorDiff, vectorLen), -bs[i].mass / vectorLen)
  }

  /** One pass of the inner loop body for the pair (i, j). The source reads
      j's fields after writing i's; since only i's acceleration has changed
      by then, reading them from bs is the same. */
  function PairStep(bs: seq<Body>, i: nat, j: nat, norm: Vector3 -> real): (r: seq<Body>)
    requires IsEuclideanLength(norm)
    requires i < j < |bs| && Apart(bs, i, j)
    ensures OnlyAccelerationsDiffer(r, bs)
    ensures forall k :: 0 <= k < |bs| && k != i && k != j ==> r[k] == bs[k]
  {
    var first := bs[i].(acceleration := Add(bs[i].acceleration, DeltaOnFirst(bs, i, j, norm)));
    var second := bs[j].(acceleration := Add(bs[j].acceleration, DeltaOnSecond(bs, i, j, norm)));
    bs[i := first][j := second]
  }

  /** The inner loop from j on: pairs (i, j), (i, j + 1), ..., (i, |bs| - 1). */
  function Row(bs: seq<Body>, i: nat, j: nat, norm: Vector3 -> real): (r: seq<Body>)
    requires IsEuclideanLength(norm)
    requires i < j <= |bs| && ApartFrom(bs, i, j)
    ensures OnlyAccelerationsDiffer(r, bs)
    decreases |bs| - j
  {
    if j == |bs| then bs
    else
      assert Apart(bs, i, j);
      var next := PairStep(bs, i, j, norm);
      ApartFromKept(next, bs, i, j + 1);
      Row(next, i, j + 1, norm)
  }

  /** The outer loop from i on: rows i, i + 1, ..., core - 1. */
  function Rows(bs: seq<Body>, i: nat, core: nat, norm: Vector3 -> real): (r: seq<Body>)
    requires IsEuclideanLength(norm)
    requires i <= core <= |bs| && Separated(bs, core)
    ensures OnlyAccelerationsDiffer(r, bs)
    decreases core - i
  {
    if i == core then bs
    else
      SeparatedRow(bs, core, i);
      var next := Row(bs, i, i + 1, norm);
      SeparatedKept(next, bs, core);
      Rows(next, i + 1, core, norm)
  }

  function Accumulate(bs: seq<Body>, core: nat, norm: Vector3 -> real): (r: seq<Body>)
    requires IsEuclideanLength(norm)
    requires core <= |bs| && Separated(bs, core)
    ensures OnlyAccelerationsDiffer(r, bs)
  {
    Rows(bs, 0, core, norm)
  }

  /* ---------------------------------------------------------------------- */
  /* Step 3: semi-implicit Euler                                            */

  /** The velocity is advanced first and the position is advanced with the
      NEW velocity. */
  function Integrate(b: Body, timeStep: real): (r: Body)
    ensures r.velocity == Add(b.velocity, Scale(b.acceleration, timeStep))
    ensures r.position == Add(b.position, Scale(r.velocity, timeStep))
    ensures r.(position := b.position, velocity := b.velocity) == b
  {
    var velocity := Add(b.velocity, Scale(b.acceleration, timeStep));
    b.(velocity := velocity, position := Add(b.position, Scale(velocity, timeStep)))
  }

  function IntegrateAll(bs: seq<Body>, timeStep: real): (r: seq<Body>)
    ensures |r| == |bs|
    ensures forall k :: 0 <= k < |bs| ==> r[k] == Integrate(bs[k], timeStep)
  {
    seq(|bs|, k requires 0 <= k < |bs| => Integrate(bs[k], timeStep))
  }

  /** The whole body update of one call to `update`. */
  function Step(bs: seq<Body>, core: nat, timeStep: real, norm: Vector3 -> real): (r: seq<Body>)
    requires IsEuclideanLength(norm)
    requires core <= |bs| && Separated(bs, core)
    ensures |r| == |bs|
  {
    var zeroed := ZeroAccelerations(bs);
    SeparatedKept(zeroed, bs, core);
    IntegrateAll(Accumulate(zeroed, core, norm), timeStep)
  }

  /** The step adds and removes no body and never changes a mass, a radius
      or a colour; the body at every index stays at that index. */
  lemma StepKeepsMatter(bs: seq<Body>, core: nat, timeStep: real, norm: Vector3 -> real)
    requires IsEuclideanLength(norm)
    requires core <= |bs| && Separated(bs, core)
    ensures |Step(bs, core, timeStep, norm)| == |bs|
    ensures forall k :: 0 <= k < |bs| ==>
              Step(bs, core, timeStep, norm)[k].mass == bs[k].mass &&
              Step(bs, core, timeStep, norm)[k].radius == bs[k].radius &&
              Step(bs, core, timeStep, norm)[k].color == bs[k].color
  {
    var zeroed := ZeroAccelerations(bs);
    SeparatedKept(zeroed, bs, core);
    var acc := Accumulate(zeroed, core, norm);
    forall k | 0 <= k < |bs|
      ensures acc[k].mass == bs[k].mass && acc[k].radius == bs[k].radius && acc[k].color == bs[k].color
    {
      assert acc[k] == zeroed[k].(acceleration := acc[k].acceleration);
    }
  }

  /* ---------------------------------------------------------------------- */
  /* Reference definition: who pulls whom                                   */

  /** The acceleration that body s causes on body k: towards s, of size
      G * mass(s) / distance^2. */
  function Pull(bs: seq<Body>, s: nat, k: nat, norm: Vector3 -> real): Vector3
    requires IsEuclideanLength(norm)
    requires Apart(bs, k, s)
  {
    var d := Subtract(bs[k].position, bs[s].position);
    LengthPositive(norm, d);
    var len := norm(d);
    Scale(PartialAcceleration(d, len), bs[s].mass / len)
  }

  /** The pull of s on k points from k towards s, with the coefficient
      G / len^2 * mass(s) / len, which is positive for a positive mass: the
      factor -1 of the source turns the vector from s to k around, so the
      force attracts. */
  lemma PullTowards(bs: seq<Body>, s: nat, k: nat, norm: Vector3 -> real)
    requires IsEuclideanLength(norm)
    requires Apart(bs, k, s)
    ensures var len := norm(Subtract(bs[k].position, bs[s].position));
            len > 0.0 &&
            Pull(bs, s, k, norm) == Scale(Subtract(bs[s].position, bs[k].position), (G / (len * len)) * (bs[s].mass / len)) &&
            (bs[s].mass > 0.0 ==> (G / (len * len)) * (bs[s].mass / len) > 0.0)
  {
    var d := Subtract(bs[k].position, bs[s].position);
    LengthPositive(norm, d);
    var len := norm(d);
    var a, b := G / (len * len), bs[s].mass / len;
    NegateDivision(G, len * len);
    assert PartialAcceleration(d, len) == Scale(d, -a);
    assert Pull(bs, s, k, norm) == Scale(PartialAcceleration(d, len), b);
    FlipScale(bs[k].position, bs[s].position, a, b);
    assert Pull(bs, s, k, norm) == Scale(Subtract(bs[s].position, bs[k].position), a * b);
    if bs[s].mass > 0.0 {
      PositiveCoefficient(len, bs[s].mass);
    }
  }

  /** Scaling p - q by -a and then by b is scaling q - p by a * b. */
  lemma FlipScale(p: Vector3, q: Vector3, a: real, b: real)
    ensures Scale(Scale(Subtract(p, q), -a), b) == Scale(Subtract(q, p), a * b)
  {
    var d := Subtract(p, q);
    NegateFactor(d.x, a, b);
    NegateFactor(d.y, a, b);
    NegateFactor(d.z, a, b);
  }

  lemma NegateFactor(e: real, a: real, b: real)
    ensures e * (-a) * b == (-e) * (a * b)
  {
  }

  lemma PositiveCoefficient(len: real, mass: real)
    requires len > 0.0 && mass > 0.0
    ensures (G / (len * len)) * (mass / len) > 0.0
  {
    assert len * len > 0.0;
    assert G / (len * len) > 0.0 && mass / len > 0.0;
  }

  /** The pulls of bodies lo, ..., hi - 1 on body k. */
  function PullSum(bs: seq<Body>, k: nat, lo: nat, hi: nat, norm: Vector3 -> real): Vector3
    requires IsEuclideanLength(norm)
    requires k < |bs| && hi <= |bs| && forall s :: lo <= s < hi ==> Apart(bs, k, s)
    decreases hi - lo
  {
    if lo >= hi then Zero else Add(Pull(bs, lo, k, norm), PullSum(bs, k, lo + 1, hi, norm))
  }

  /** What the step's accumulation should give body k: a core body is pulled
      by every other body, a non-core body only by the core bodies. */
  function TotalPull(bs: seq<Body>, core: nat, k: nat, norm: Vector3 -> real): Vector3
    requires IsEuclideanLength(norm)
    requires core <= |bs| && k < |bs| && Separated(bs, core)
  {
    if k < core then Add(PullSum(bs, k, 0, k, norm), PullSum(bs, k, k + 1, |bs|, norm))
    else PullSum(bs, k, 0, core, norm)
  }

  lemma PullSumKept(a: seq<Body>, b: seq<Body>, k: nat, lo: nat, hi: nat, norm: Vector3 -> real)
    requires IsEuclideanLength(norm) && OnlyAccelerationsDiffer(a, b)
    requires k < |b| && hi <= |b| && forall s :: lo <= s < hi ==> Apart(b, k, s)
    ensures forall s :: lo <= s < hi ==> Apart(a, k, s)
    ensures PullSum(a, k, lo, hi, norm) == PullSum(b, k, lo, hi, norm)
    decreases hi - lo
  {
    assert a[k] == b[k].(acceleration := a[k].acceleration);
    forall s | lo <= s < hi ensures Apart(a, k, s) {
      ApartKept(a, b, k, s);
    }
    if lo < hi {
      assert a[lo] == b[lo].(acceleration := a[lo].acceleration);
      PullSumKept(a, b, k, lo + 1, hi, norm);
    }
  }

  /** The pair step adds to each of its two bodies exactly the other's pull. */
  lemma PairStepPulls(bs: seq<Body>, i: nat, j: nat, norm: Vector3 -> real)
    requires IsEuclideanLength(norm)
    requires i < j < |bs| && Apart(bs, i, j) && Apart(bs, j, i)
    ensures PairStep(bs, i, j, norm)[i].acceleration == Add(bs[i].acceleration, Pull(bs, j, i, norm))
    ensures PairStep(bs, i, j, norm)[j].acceleration == Add(bs[j].acceleration, Pull(bs, i, j, norm))
  {
    PairStepSecond(bs, i, j, norm);
  }

  lemma PairStepSecond(bs: seq<Body>, i: nat, j: nat, norm: Vector3 -> real)
    requires IsEuclideanLength(norm)
    requires i < j < |bs| && Apart(bs, i, j) && Apart(bs, j, i)
    ensures DeltaOnSecond(bs, i, j, norm) == Pull(bs, i, j, norm)
  {
    var d := Subtract(bs[i].position, bs[j].position);
    var e := Subtract(bs[j].position, bs[i].position);
    LengthPositive(norm, d);
    LengthSymmetric(norm, bs[i].position, bs[j].position);
    var len := norm(d);
    var mi := bs[i].mass;
    NegateDivision(mi, len);
    assert e == Subtract(Zero, d);
    ScaleFlip(d, -G / (len * len), mi / len);
  }

  /** The pending contribution of the inner loop, from j on, to body k. */
  function RowPart(bs: seq<Body>, i: nat, j: nat, k: nat, norm: Vector3 -> real): Vector3
    requires IsEuclideanLength(norm)
    requires i < j <= |bs| && k < |bs| && ApartFrom(bs, i, j)
  {
    if k == i then PullSum(bs, i, j, |bs|, norm)
    else if j <= k then
      assert Apart(bs, i, k);
      Pull(bs, i, k, norm)
    else Zero
  }

  lemma {:induction false} RowEffect(bs: seq<Body>, i: nat, j: nat, k: nat, norm: Vector3 -> real)
    requires IsEuclideanLength(norm)
    requires i < j <= |bs| && k < |bs| && ApartFrom(bs, i, j)
    ensures Row(bs, i, j, norm)[k].acceleration == Add(bs[k].acceleration, RowPart(bs, i, j, k, norm))
    decreases |bs| - j
  {
    if j < |bs| {
      assert Apart(bs, i, j);
      var next := PairStep(bs, i, j, norm);
      ApartFromKept(next, bs, i, j + 1);
      RowEffect(next, i, j + 1, k, norm);
      PairStepPulls(bs, i, j, norm);
      PullSumKept(next, bs, i, j + 1, |bs|, norm);
      assert next[i] == bs[i].(acceleration := next[i].acceleration);
      if k > j {
        assert next[k] == bs[k];
      }
      if k < j && k != i {
        assert next[k] == bs[k];
      }
    }
  }

  /** The pending contribution of the outer loop, from row i on, to body k:
      a core body still waiting for its own row has the pulls of the rows
      before it from i on and, from its own row, the pulls of every later
      body; a core body whose row is done has nothing pending; a non-core
      body has the pulls of the core rows from i on. */
  function RowsPart(bs: seq<Body>, i: nat, core: nat, k: nat, norm: Vector3 -> real): Vector3
    requires IsEuclideanLength(norm)
    requires i <= core <= |bs| && k < |bs| && Separated(bs, core)
  {
    if k < core then
      if i <= k then Add(PullSum(bs, k, i, k, norm), PullSum(bs, k, k + 1, |bs|, norm)) else Zero
    else PullSum(bs, k, i, core, norm)
  }

  lemma RowsPartKept(a: seq<Body>, b: seq<Body>, i: nat, core: nat, k: nat, norm: Vector3 -> real)
    requires IsEuclideanLength(norm) && OnlyAccelerationsDiffer(a, b)
    requires i <= core <= |b| && k < |b| && Separated(b, core)
    ensures Separated(a, core)
    ensures RowsPart(a, i, core, k, norm) == RowsPart(b, i, core, k, norm)
  {
    SeparatedKept(a, b, core);
    if k < core {
      if i <= k {
        PullSumKept(a, b, k, i, k, norm);
        PullSumKept(a, b, k, k + 1, |b|, norm);
      }
    } else {
      PullSumKept(a, b, k, i, core, norm);
    }
  }

  /** For body i itself or a later body, row i's pending part followed by
      the pending part of rows i + 1 on is the pending part of rows i on. */
  lemma RowsPartSplit(bs: seq<Body>, i: nat, core: nat, k: nat, norm: Vector3 -> real)
    requires IsEuclideanLength(norm)
    requires i < core <= |bs| && i <= k < |bs| && Separated(bs, core)
    ensures ApartFrom(bs, i, i + 1)
    ensures Add(RowPart(bs, i, i + 1, k, norm), RowsPart(bs, i + 1, core, k, norm))
         == RowsPart(bs, i, core, k, norm)
  {
    SeparatedRow(bs, core, i);
    if k == i {
      SplitAtOwnRow(bs, i, core, norm);
    } else if k < core {
      SplitAfterRowCore(bs, i, core, k, norm);
    } else {
      SplitAfterRowOuter(bs, i, core, k, norm);
    }
  }

  /** Body i's own row holds all of its pulls from the bodies after it. */
  lemma SplitAtOwnRow(bs: seq<Body>, i: nat, core: nat, norm: Vector3 -> real)
    requires IsEuclideanLength(norm)
    requires i < core <= |bs| && Separated(bs, core) && ApartFrom(bs, i, i + 1)
    ensures Add(RowPart(bs, i, i + 1, i, norm), RowsPart(bs, i + 1, core, i, norm))
         == RowsPart(bs, i, core, i, norm)
  {
    var rest := PullSum(bs, i, i + 1, |bs|, norm);
    assert RowPart(bs, i, i + 1, i, norm) == rest;
    assert RowsPart(bs, i + 1, core, i, norm) == Zero;
    assert RowsPart(bs, i, core, i, norm) == Add(Zero, rest) by {
      assert PullSum(bs, i, i, i, norm) == Zero;
    }
    AddZero(rest);
  }

  /** For a later core body k, row i contributes the single pull of i on k,
      ahead of the pulls of the rows between i and k. */
  lemma SplitAfterRowCore(bs: seq<Body>, i: nat, core: nat, k: nat, norm: Vector3 -> real)
    requires IsEuclideanLength(norm)
    requires i < k < core <= |bs| && Separated(bs, core) && ApartFrom(bs, i, i + 1)
    ensures Add(RowPart(bs, i, i + 1, k, norm), RowsPart(bs, i + 1, core, k, norm))
         == RowsPart(bs, i, core, k, norm)
  {
    var tail := PullSum(bs, k, k + 1, |bs|, norm);
    var p := Pull(bs, i, k, norm);
    var sum := PullSum(bs, k, i + 1, k, norm);
    assert RowPart(bs, i, i + 1, k, norm) == p;
    assert RowsPart(bs, i + 1, core, k, norm) == Add(sum, tail);
    assert RowsPart(bs, i, core, k, norm) == Add(Add(p, sum), tail) by {
      assert PullSum(bs, k, i, k, norm) == Add(p, sum);
    }
    AddAssociates(p, sum, tail);
  }

  /** For a non-core body k, row i contributes the pull of i on k, ahead of
      the pulls of the later core rows. */
  lemma SplitAfterRowOuter(bs: seq<Body>, i: nat, core: nat, k: nat, norm: Vector3 -> real)
    requires IsEuclideanLength(norm)
    requires i < core <= k < |bs| && Separated(bs, core) && ApartFrom(bs, i, i + 1)
    ensures Add(RowPart(bs, i, i + 1, k, norm), RowsPart(bs, i + 1, core, k, norm))
         == RowsPart(bs, i, core, k, norm)
  {
    var p := Pull(bs, i, k, norm);
    var sum := PullSum(bs, k, i + 1, core, norm);
    assert RowPart(bs, i, i + 1, k, norm) == p;
    assert RowsPart(bs, i + 1, core, k, norm) == sum;
    assert RowsPart(bs, i, core, k, norm) == Add(p, sum) by {
      assert PullSum(bs, k, i, core, norm) == Add(p, sum);
    }
  }

  /** For an earlier body k, row i contributes nothing and nothing is
      pending: k's pairs with the bodies after it were all handled in row k. */
  lemma SplitBeforeRow(bs: seq<Body>, i: nat, core: nat, k: nat, norm: Vector3 -> real)
    requires IsEuclideanLength(norm)
    requires i < core <= |bs| && k < i && Separated(bs, core) && ApartFrom(bs, i, i + 1)
    ensures RowPart(bs, i, i + 1, k, norm) == Zero
    ensures RowsPart(bs, i + 1, core, k, norm) == Zero
    ensures RowsPart(bs, i, core, k, norm) == Zero
  {
  }

  lemma {:induction false} RowsEffect(bs: seq<Body>, i: nat, core: nat, k: nat, norm: Vector3 -> real)
    requires IsEuclideanLength(norm)
    requires i <= core <= |bs| && k < |bs| && Separated(bs, core)
    ensures Rows(bs, i, core, norm)[k].acceleration == Add(bs[k].acceleration, RowsPart(bs, i, core, k, norm))
    decreases core - i
  {
    if i == core {
      RowsDone(bs, core, norm);
      RowsPartEmpty(bs, core, k, norm);
      AddZero(bs[k].acceleration);
    } else {
      SeparatedRow(bs, core, i);
      var next := Row(bs, i, i + 1, norm);
      SeparatedKept(next, bs, core);
      RowsEffect(next, i + 1, core, k, norm);
      RowsEffectStep(bs, i, core, k, norm);
    }
  }

  lemma RowsDone(bs: seq<Body>, core: nat, norm: Vector3 -> real)
    requires IsEuclideanLength(norm)
    requires core <= |bs| && Separated(bs, core)
    ensures Rows(bs, core, core, norm) == bs
  {
  }

  /** Nothing is pending once every row is done. */
  lemma RowsPartEmpty(bs: seq<Body>, core: nat, k: nat, norm: Vector3 -> real)
    requires IsEuclideanLength(norm)
    requires core <= |bs| && k < |bs| && Separated(bs, core)
    ensures RowsPart(bs, core, core, k, norm) == Zero
  {
  }

  /** One outer iteration: if the rows from i + 1 on add their pending part
      to the result of row i, the rows from i on add theirs to bs. */
  lemma RowsEffectStep(bs: seq<Body>, i: nat, core: nat, k: nat, norm: Vector3 -> real)
    requires IsEuclideanLength(norm)
    requires i < core <= |bs| && k < |bs| && Separated(bs, core) && ApartFrom(bs, i, i + 1)
    requires Separated(Row(bs, i, i + 1, norm), core)
    requires Rows(Row(bs, i, i + 1, norm), i + 1, core, norm)[k].acceleration
          == Add(Row(bs, i, i + 1, norm)[k].acceleration, RowsPart(Row(bs, i, i + 1, norm), i + 1, core, k, norm))
    ensures Rows(bs, i, core, norm)[k].acceleration == Add(bs[k].acceleration, RowsPart(bs, i, core, k, norm))
  {
    var next := Row(bs, i, i + 1, norm);
    var a := bs[k].acceleration;
    var here := RowPart(bs, i, i + 1, k, norm);
    var later := RowsPart(bs, i + 1, core, k, norm);
    assert Rows(bs, i, core, norm)[k].acceleration == Add(next[k].acceleration, later) by {
      assert Rows(bs, i, core, norm) == Rows(next, i + 1, core, norm);
      RowsPartKept(next, bs, i + 1, core, k, norm);
    }
    assert next[k].acceleration == Add(a, here) by {
      RowEffect(bs, i, i + 1, k, norm);
    }
    if k < i {
      SplitBeforeRow(bs, i, core, k, norm);
      AddZero(a);
    } else {
      assert Add(here, later) == RowsPart(bs, i, core, k, norm) by {
        RowsPartSplit(bs, i, core, k, norm);
      }
      AddAssociates(a, here, later);
    }
  }

  /** The step's accumulation, written as nested loops over pairs, gives
      every body exactly its reference total pull: asteroid-asteroid pairs
      contribute nothing, and a non-core body is pulled only by core bodies. */
  lemma AccumulateIsTotalPull(bs: seq<Body>, core: nat, k: nat, norm: Vector3 -> real)
    requires IsEuclideanLength(norm)
    requires core <= |bs| && k < |bs| && Separated(bs, core)
    ensures Separated(ZeroAccelerations(bs), core)
    ensures Accumulate(ZeroAccelerations(bs), core, norm)[k].acceleration == TotalPull(bs, core, k, norm)
  {
    var zeroed := ZeroAccelerations(bs);
    SeparatedKept(zeroed, bs, core);
    RowsEffect(zeroed, 0, core, k, norm);
    var before := if k < core then k else core;
    PullSumKept(zeroed, bs, k, 0, before, norm);
    if k < core {
      PullSumKept(zeroed, bs, k, k + 1, |bs|, norm);
    }
  }

  /** One step, body by body: the acceleration is the body's total pull,
      the velocity grows by that pull times the time step, and the position
      moves by the new velocity times the time step. */
  lemma StepFollowsPulls(bs: seq<Body>, core: nat, timeStep: real, norm: Vector3 -> real, k: nat)
    requires IsEuclideanLength(norm)
    requires core <= |bs| && Separated(bs, core) && k < |bs|
    ensures |Step(bs, core, timeStep, norm)| == |bs|
    ensures Step(bs, core, timeStep, norm)[k].acceleration == TotalPull(bs, core, k, norm)
    ensures Step(bs, core, timeStep, norm)[k].velocity
         == Add(bs[k].velocity, Scale(TotalPull(bs, core, k, norm), timeStep))
    ensures Step(bs, core, timeStep, norm)[k].position
         == Add(bs[k].position, Scale(Step(bs, core, timeStep, norm)[k].velocity, timeStep))
  {
    var zeroed := ZeroAccelerations(bs);
    AccumulateIsTotalPull(bs, core, k, norm);
    var acc := Accumulate(zeroed, core, norm);
    assert acc[k] == zeroed[k].(acceleration := acc[k].acceleration);
    assert zeroed[k] == bs[k].(acceleration := Zero);
  }

  /** Two bodies of equal mass that are mirror images through the origin:
      opposite positions and opposite velocities. */
  ghost predicate Mirrored(bs: seq<Body>) {
    |bs| == 2 && bs[0].mass == bs[1].mass &&
    bs[1].position == Subtract(Zero, bs[0].position) &&
    bs[1].velocity == Subtract(Zero, bs[0].velocity)
  }

  /** Two core bodies of equal mass placed symmetrically about the origin
      stay mirror images after a step, so by induction after every step
      for as long as they do not meet at the origin. */
  lemma MirroredStep(bs: seq<Body>, timeStep: real, norm: Vector3 -> real)
    requires IsEuclideanLength(norm)
    requires Mirrored(bs) && bs[0].position != Zero
    ensures Separated(bs, 2)
    ensures Mirrored(Step(bs, 2, timeStep, norm))
  {
    var p0, p1 := bs[0].position, bs[1].position;
    assert p0 != p1;
    assert Apart(bs, 0, 1) && Apart(bs, 1, 0);
    assert Separated(bs, 2);
    var a0, a1 := Pull(bs, 1, 0, norm), Pull(bs, 0, 1, norm);
    assert TotalPull(bs, 2, 0, norm) == a0 by {
      assert PullSum(bs, 0, 2, 2, norm) == Zero;
      assert PullSum(bs, 0, 1, 2, norm) == Add(a0, Zero);
      AddZero(a0);
    }
    assert TotalPull(bs, 2, 1, norm) == a1 by {
      assert PullSum(bs, 1, 1, 1, norm) == Zero;
      assert PullSum(bs, 1, 0, 1, norm) == Add(a1, Zero);
      AddZero(a1);
    }
    PullsOpposite(bs, 0, 1, norm);
    StepFollowsPulls(bs, 2, timeStep, norm, 0);
    StepFollowsPulls(bs, 2, timeStep, norm, 1);
    StepKeepsMatter(bs, 2, timeStep, norm);
    MirroredKinematics(bs[0].position, bs[0].velocity, a0, timeStep);
  }

  /** Two bodies of equal mass pull each other with opposite accelerations. */
  lemma PullsOpposite(bs: seq<Body>, i: nat, j: nat, norm: Vector3 -> real)
    requires IsEuclideanLength(norm)
    requires i < j < |bs| && Apart(bs, i, j) && Apart(bs, j, i) && bs[i].mass == bs[j].mass
    ensures Pull(bs, i, j, norm) == Subtract(Zero, Pull(bs, j, i, norm))
  {
    PairStepSecond(bs, i, j, norm);
    var d := Subtract(bs[i].position, bs[j].position);
    LengthPositive(norm, d);
    var len := norm(d);
    var p := PartialAcceleration(d, len);
    var m := bs[i].mass;
    assert Pull(bs, j, i, norm) == Scale(p, m / len);
    assert Pull(bs, i, j, norm) == Scale(p, -m / len);
    NegateDivision(m, len);
    NegateScale(p, m / len);
  }

  lemma NegateScale(v: Vector3, s: real)
    ensures Scale(v, -s) == Subtract(Zero, Scale(v, s))
  {
    assert v.x * -s == 0.0 - v.x * s;
    assert v.y * -s == 0.0 - v.y * s;
    assert v.z * -s == 0.0 - v.z * s;
  }

  /** Semi-implicit Euler commutes with the reflection through the origin. */
  lemma MirroredKinematics(p: Vector3, v: Vector3, a: Vector3, timeStep: real)
    ensures var v' := Add(v, Scale(a, timeStep));
            var w' := Add(Subtract(Zero, v), Scale(Subtract(Zero, a), timeStep));
            w' == Subtract(Zero, v') &&
            Add(Subtract(Zero, p), Scale(w', timeStep)) == Subtract(Zero, Add(p, Scale(v', timeStep)))
  {
    var v' := Add(v, Scale(a, timeStep));
    var w' := Add(Subtract(Zero, v), Scale(Subtract(Zero, a), timeStep));
    assert (0.0 - a.x) * timeStep == -(a.x * timeStep);
    assert (0.0 - a.y) * timeStep == -(a.y * timeStep);
    assert (0.0 - a.z) * timeStep == -(a.z * timeStep);
    assert w' == Subtract(Zero, v');
    assert (0.0 - v'.x) * timeStep == -(v'.x * timeStep);
    assert (0.0 - v'.y) * timeStep == -(v'.y * timeStep);
    assert (0.0 - v'.z) * timeStep == -(v'.z * timeStep);
  }

  /* ---------------------------------------------------------------------- */
  /* Action and reaction                                                    */

  /** Sum over all bodies of mass times acceleration (the net force). */
  function NetForce(bs: seq<Body>): Vector3
  {
    if bs == [] then Zero
    else Add(NetForce(bs[..|bs| - 1]), Scale(bs[|bs| - 1].acceleration, bs[|bs| - 1].mass))
  }

  /** Sum over all bodies of mass times velocity. */
  function Momentum(bs: seq<Body>): Vector3
  {
    if bs == [] then Zero
    else Add(Momentum(bs[..|bs| - 1]), Scale(bs[|bs| - 1].velocity, bs[|bs| - 1].mass))
  }

  lemma {:induction false} NetForceUpdate(bs: seq<Body>, k: nat, b: Body)
    requires k < |bs|
    ensures Add(NetForce(bs[k := b]), Scale(bs[k].acceleration, bs[k].mass))
         == Add(NetForce(bs), Scale(b.acceleration, b.mass))
  {
    var n := |bs|;
    var u := bs[k := b];
    if k < n - 1 {
      assert u[..n - 1] == bs[..n - 1][k := b];
      NetForceUpdate(bs[..n - 1], k, b);
    } else {
      assert u[..n - 1] == bs[..n - 1];
    }
  }

  lemma NetForceZero(bs: seq<Body>)
    requires forall k :: 0 <= k < |bs| ==> bs[k].acceleration == Zero
    ensures NetForce(bs) == Zero
  {
    if bs != [] {
      NetForceZero(bs[..|bs| - 1]);
    }
  }

  /** mass(i) * delta(i) + mass(j) * delta(j) == 0 for every pair step. */
  lemma PairStepBalanced(bs: seq<Body>, i: nat, j: nat, norm: Vector3 -> real)
    requires IsEuclideanLength(norm)
    requires i < j < |bs| && Apart(bs, i, j)
    ensures NetForce(PairStep(bs, i, j, norm)) == NetForce(bs)
  {
    var mi, mj := bs[i].mass, bs[j].mass;
    var di, dj := DeltaOnFirst(bs, i, j, norm), DeltaOnSecond(bs, i, j, norm);
    var first := bs[i].(acceleration := Add(bs[i].acceleration, di));
    var afterI := bs[i := first];
    var second := bs[j].(acceleration := Add(bs[j].acceleration, dj));
    var r := afterI[j := second];
    NetForceUpdate(bs, i, first);
    NetForceUpdate(afterI, j, second);
    assert afterI[j] == bs[j];
    ScaleAddDistributes(bs[i].acceleration, di, mi);
    ScaleAddDistributes(bs[j].acceleration, dj, mj);
    PairDeltasCancel(bs, i, j, norm);
    Rebalance(NetForce(bs), NetForce(afterI), NetForce(r),
              Scale(bs[i].acceleration, mi), Scale(first.acceleration, mi),
              Scale(bs[j].acceleration, mj), Scale(second.acceleration, mj),
              Scale(di, mi), Scale(dj, mj));
  }

  /** Action equals reaction: mass(i) * delta(i) + mass(j) * delta(j) == 0. */
  lemma PairDeltasCancel(bs: seq<Body>, i: nat, j: nat, norm: Vector3 -> real)
    requires IsEuclideanLength(norm)
    requires i < |bs| && j < |bs| && Apart(bs, i, j)
    ensures Add(Scale(DeltaOnFirst(bs, i, j, norm), bs[i].mass),
                Scale(DeltaOnSecond(bs, i, j, norm), bs[j].mass)) == Zero
  {
    var d := Subtract(bs[i].position, bs[j].position);
    LengthPositive(norm, d);
    ScaledPairCancels(PartialAcceleration(d, norm(d)), bs[i].mass, bs[j].mass, norm(d));
  }

  lemma {:induction false} RowBalanced(bs: seq<Body>, i: nat, j: nat, norm: Vector3 -> real)
    requires IsEuclideanLength(norm)
    requires i < j <= |bs| && ApartFrom(bs, i, j)
    ensures NetForce(Row(bs, i, j, norm)) == NetForce(bs)
    decreases |bs| - j
  {
    if j < |bs| {
      assert Apart(bs, i, j);
      var next := PairStep(bs, i, j, norm);
      ApartFromKept(next, bs, i, j + 1);
      PairStepBalanced(bs, i, j, norm);
      RowBalanced(next, i, j + 1, norm);
    }
  }

  lemma {:induction false} RowsBalanced(bs: seq<Body>, i: nat, core: nat, norm: Vector3 -> real)
    requires IsEuclideanLength(norm)
    requires i <= core <= |bs| && Separated(bs, core)
    ensures NetForce(Rows(bs, i, core, norm)) == NetForce(bs)
    decreases core - i
  {
    if i < core {
      SeparatedRow(bs, core, i);
      var next := Row(bs, i, i + 1, norm);
      SeparatedKept(next, bs, core);
      RowBalanced(bs, i, i + 1, norm);
      RowsBalanced(next, i + 1, core, norm);
    }
  }

  /** After the accumulation loops the mass-weighted accelerations of all
      bodies cancel (Newton's third law holds pair by pair). */
  lemma NetForceVanishes(bs: seq<Body>, core: nat, norm: Vector3 -> real)
    requires IsEuclideanLength(norm)
    requires core <= |bs| && Separated(bs, core)
    ensures Separated(ZeroAccelerations(bs), core)
    ensures NetForce(Accumulate(ZeroAccelerations(bs), core, norm)) == Zero
  {
    var zeroed := ZeroAccelerations(bs);
    SeparatedKept(zeroed, bs, core);
    NetForceZero(zeroed);
    RowsBalanced(zeroed, 0, core, norm);
  }

  lemma {:induction false} MomentumIgnoresAcceleration(a: seq<Body>, b: seq<Body>)
    requires OnlyAccelerationsDiffer(a, b)
    ensures Momentum(a) == Momentum(b)
  {
    if a != [] {
      var n := |a|;
      assert a[n - 1] == b[n - 1].(acceleration := a[n - 1].acceleration);
      var a', b' := a[..n - 1], b[..n - 1];
      assert OnlyAccelerationsDiffer(a', b') by {
        forall k | 0 <= k < n - 1
          ensures a'[k] == b'[k].(acceleration := a'[k].acceleration)
        {
          assert a[k] == b[k].(acceleration := a[k].acceleration);
        }
      }
      MomentumIgnoresAcceleration(a', b');
    }
  }

  /** Integration changes the momentum by timeStep times the net force. */
  lemma {:induction false} MomentumAfterIntegrate(bs: seq<Body>, timeStep: real)
    ensures Momentum(IntegrateAll(bs, timeStep)) == Add(Momentum(bs), Scale(NetForce(bs), timeStep))
  {
    if bs != [] {
      var n := |bs|;
      var r := IntegrateAll(bs, timeStep);
      assert r[..n - 1] == IntegrateAll(bs[..n - 1], timeStep);
      MomentumAfterIntegrate(bs[..n - 1], timeStep);
      var b := bs[n - 1];
      var m := b.mass;
      ScaleAddDistributes(b.velocity, Scale(b.acceleration, timeStep), m);
      ScaleCommutes(b.acceleration, timeStep, m);
      ScaleAddDistributes(NetForce(bs[..n - 1]), Scale(b.acceleration, m), timeStep);
    }
  }

  /** One step conserves the total momentum of all bodies exactly. */
  lemma MomentumConserved(bs: seq<Body>, core: nat, timeStep: real, norm: Vector3 -> real)
    requires IsEuclideanLength(norm)
    requires core <= |bs| && Separated(bs, core)
    ensures Momentum(Step(bs, core, timeStep, norm)) == Momentum(bs)
  {
    var zeroed := ZeroAccelerations(bs);
    NetForceVanishes(bs, core, norm);
    var acc := Accumulate(zeroed, core, norm);
    MomentumAfterIntegrate(acc, timeStep);
    assert Scale(NetForce(acc), timeStep) == Zero;
    AddZero(Momentum(acc));
    MomentumIgnoresAcceleration(acc, zeroed);
    MomentumIgnoresAcceleration(zeroed, bs);
  }
}
