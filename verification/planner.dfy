/** Launch-geometry planning of `mluOpErfc`: from the element count held in
    the C `int` `element_num` to the task grid `k_dim`. */
module Planner {
  import opened Machine

  /** Elements one task handles per pass (`WORKLOAD` in erfc.h). */
  const WORKLOAD: nat := 4096

  /** Fixed x extent of the grid (`len_kdimX`). */
  const LANES: nat := 4

  /** Largest count the small-case shortcut applies to (16384). */
  const SMALL_LIMIT: nat := LANES * WORKLOAD

  /** `cnrtDim3_t`: three unsigned extents. */
  datatype Grid = Grid(x: Uint32, y: Uint32, z: Uint32)

  /** Number of elements a grid provides for when every task takes WORKLOAD. */
  function Capacity(g: Grid): nat {
    g.x * g.y * g.z * WORKLOAD
  }

  /** The ternary `a % b == 0 ? a / b : a / b + 1`; for the non-negative
      operands it is used on, C division agrees with Dafny's. The result is
      the ceiling of a / b: the least multiple of b at or above a. */
  function RoundUpDiv(a: nat, b: nat): (q: nat)
    requires b > 0
    ensures a <= q * b < a + b
  {
    if a % b == 0 then a / b else a / b + 1
  }

  /** Ceiling division has exactly one solution, so any q with
      a <= q * b < a + b is RoundUpDiv(a, b). */
  lemma RoundUpDivUnique(a: nat, b: nat, q: nat)
    requires b > 0
    requires a <= q * b < a + b
    ensures q == RoundUpDiv(a, b)
  {
    var r := RoundUpDiv(a, b);
    if q < r {
      MulMonotone(q + 1, r, b);
      assert false;
    } else if r < q {
      MulMonotone(r + 1, q, b);
      assert false;
    }
  }

  lemma MulMonotone(x: nat, y: nat, k: nat)
    requires x <= y
    ensures x * k <= y * k
  {
  }

  /** Ceiling division is monotone in its dividend. */
  lemma RoundUpDivMonotone(a: nat, a': nat, b: nat)
    requires b > 0 && a <= a'
    ensures RoundUpDiv(a, b) <= RoundUpDiv(a', b)
  {
    var q, q' := RoundUpDiv(a, b), RoundUpDiv(a', b);
    if q' < q {
      MulMonotone(q' + 1, q, b);
      assert false;
    }
  }

  /** Two nested round-up divisions equal one round-up division by the
      product of the divisors. */
  lemma NestedRoundUpDiv(n: nat, a: nat, b: nat)
    requires a > 0 && b > 0
    ensures a * b > 0
    ensures RoundUpDiv(RoundUpDiv(n, a), b) == RoundUpDiv(n, a * b)
  {
    var v := RoundUpDiv(n, a);
    var y := RoundUpDiv(v, b);
    assert n <= v * a < n + a;
    assert v <= y * b < v + b;
    // lower bound: n <= v * a <= (y * b) * a
    MulMonotone(v, y * b, a);
    assert y * b * a == y * (a * b);
    // upper bound: y * b <= v + b - 1, hence y * b * a <= v * a + (b - 1) * a
    MulMonotone(y * b, v + b - 1, a);
    assert (v + b - 1) * a == v * a + b * a - a;
    assert y * (a * b) < n + a * b;
    RoundUpDivUnique(n, a * b, y);
  }

  /** The y extent `mluOpErfc` chooses for `element_num`. A negative
      `element_num` (a narrowed count) falls into the small-case branch. */
  function PlanY(elementNum: Int32): (y: nat)
    ensures 2 <= y
    ensures elementNum <= SMALL_LIMIT ==> y == 2
  {
    if elementNum <= SMALL_LIMIT then 2
    else
      var validNum := RoundUpDiv(elementNum, WORKLOAD);
      RoundUpDiv(validNum, LANES)
  }

  /** Even INT_MAX needs only 131072 rows, so y always fits the unsigned
      grid field. */
  lemma PlanYBound(elementNum: Int32)
    ensures PlanY(elementNum) <= 131072
  {
    if SMALL_LIMIT < elementNum {
      NestedRoundUpDiv(elementNum, WORKLOAD, LANES);
      RoundUpDivMonotone(elementNum, INT_MAX, SMALL_LIMIT);
      assert RoundUpDiv(INT_MAX, SMALL_LIMIT) == 131072;
    }
  }

  /** The grid `k_dim` planned for `element_num`. */
  function Plan(elementNum: Int32): (g: Grid)
    ensures g.x == LANES && g.z == 1
  {
    PlanYBound(elementNum);
    Grid(LANES, PlanY(elementNum), 1)
  }

  /** Every grid extent is at least one, and y is at least two. */
  lemma PlanExtentsPositive(elementNum: Int32)
    ensures Plan(elementNum).x >= 1 && Plan(elementNum).y >= 2 && Plan(elementNum).z >= 1
  {
  }

  /** Above the shortcut, y is the single ceiling division of the count by
      LANES * WORKLOAD. */
  lemma {:induction false} PlanYClosedForm(elementNum: Int32)
    requires SMALL_LIMIT < elementNum
    ensures PlanY(elementNum) == RoundUpDiv(elementNum, SMALL_LIMIT)
  {
    var y := PlanY(elementNum);
    RoundUpDivUnique(elementNum, SMALL_LIMIT, y);
  }

  /** Coverage: the grid provides for every element of a non-negative count. */
  lemma PlanCovers(elementNum: Int32)
    requires 0 <= elementNum
    ensures elementNum <= Capacity(Plan(elementNum))
  {
  }

  /** Tightness above the shortcut: one row of tasks fewer would not cover
      the count. */
  lemma PlanTight(elementNum: Int32)
    requires SMALL_LIMIT < elementNum
    ensures Capacity(Plan(elementNum)) - LANES * WORKLOAD < elementNum
  {
  }

  /** y is the least extent of at least two that covers the count: no
      smaller k >= 2 provides for it, so below the shortcut two is kept
      and above it nothing larger than needed is chosen. */
  lemma PlanYIsLeastCover(elementNum: Int32, k: nat)
    requires 2 <= k < PlanY(elementNum)
    ensures k * SMALL_LIMIT < elementNum
  {
    var y := PlanY(elementNum);
    MulMonotone(k, y - 1, SMALL_LIMIT);
  }

  /** Monotonicity over the whole `int` domain, across the branch boundary:
      a larger count never gets a smaller y. */
  lemma PlanYMonotone(n: Int32, m: Int32)
    requires n <= m
    ensures PlanY(n) <= PlanY(m)
  {
    if SMALL_LIMIT < n {
      PlanYClosedForm(n);
      PlanYClosedForm(m);
      RoundUpDivMonotone(n, m, SMALL_LIMIT);
    }
  }

  /** Worked values: the shortcut for 0, 1 and 16384, and the two nested
      divisions for 16385 (validNum 5, y 2) and 100000 (validNum 25, y 7). */
  lemma PlanExamples()
    ensures Plan(0) == Grid(4, 2, 1) && Plan(1) == Grid(4, 2, 1)
    ensures Plan(SMALL_LIMIT) == Grid(4, 2, 1)
    ensures RoundUpDiv(16385, WORKLOAD) == 5 && Plan(16385) == Grid(4, 2, 1)
    ensures RoundUpDiv(100000, WORKLOAD) == 25 && Plan(100000) == Grid(4, 7, 1)
  {
    PlanYClosedForm(16385);
    PlanYClosedForm(100000);
  }
}
