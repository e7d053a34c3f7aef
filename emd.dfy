/**
 * The greedy one-dimensional Earth Mover's Distance of linfa-nn (src/emd.rs).
 *
 * Mass values are modelled as exact `real`s. The two inputs are flat
 * sequences of equal length; the difference `delta = seq2 - seq1` is then
 * cancelled greedily, bin by bin, against the nearest bin of opposite sign,
 * and every cancellation pays `moved mass * bin distance`.
 *
 * The functions Cancel, Scan and Pass are the reference definition of the
 * algorithm (one cancellation, the `j` loop and the `i` loop); the method
 * Emd is the in-place, array-based algorithm and is proved to compute
 * exactly GreedyCost.
 */
module Emd {

  function Abs(x: real): (r: real)
    ensures r >= 0.0 && (r == x || r == -x)
  {
    if x < 0.0 then -x else x
  }

  /** Element-wise difference `b - a`: the signed surplus or deficit of every bin. */
  function Subtract(a: seq<real>, b: seq<real>): (r: seq<real>)
    requires |a| == |b|
    ensures |r| == |a|
    ensures forall m :: 0 <= m < |r| ==> r[m] == b[m] - a[m]
  {
    if a == [] then [] else [b[0] - a[0]] + Subtract(a[1..], b[1..])
  }

  /** The working state of the algorithm: the difference array and the accumulated cost. */
  datatype State = State(delta: seq<real>, cost: real)

  /** The outcome of one cancellation attempt; `consumed` says that the entry at `i` was used up. */
  datatype Step = Step(delta: seq<real>, cost: real, consumed: bool)

  /** Strictly opposite signs: one entry is a surplus and the other a deficit. */
  predicate Opposite(x: real, y: real)
  {
    (x < 0.0 && y > 0.0) || (x > 0.0 && y < 0.0)
  }

  /** The source's sign test `x * y < 0` is exactly Opposite. */
  lemma OppositeIsNegativeProduct(x: real, y: real)
    ensures Opposite(x, y) <==> x * y < 0.0
  {
    if x < 0.0 && y > 0.0 {
      assert x * y < 0.0 * y;
    } else if x > 0.0 && y < 0.0 {
      assert x * y < x * 0.0;
    } else if x <= 0.0 && y <= 0.0 {
      assert x * y == (-x) * (-y);
    }
  }

  /** The work of moving `mass` over `j` bins: `mass` added `j` times. */
  function Work(mass: real, j: nat): (r: real)
    ensures mass >= 0.0 ==> r >= 0.0
  {
    if j == 0 then 0.0 else Work(mass, j - 1) + mass
  }

  /** Work is the product `mass * j` that the source computes. */
  lemma {:induction false} WorkIsProduct(mass: real, j: nat)
    ensures Work(mass, j) == mass * j as real
  {
    if j > 0 {
      WorkIsProduct(mass, j - 1);
      assert mass * j as real == mass * (j - 1) as real + mass;
    }
  }

  /**
   * One cancellation attempt between the current bin `i` and the partner bin
   * `k` at distance `j`. Nothing happens unless the two entries have
   * opposite signs. Otherwise the smaller magnitude is moved: its bin becomes
   * zero, the other bin keeps the signed residual, and the cost grows by the
   * work of moving the smaller magnitude over `j` bins. On a tie bin `i` is
   * the one used up.
   */
  function Cancel(delta: seq<real>, cost: real, i: nat, k: nat, j: nat): (r: Step)
    requires i < |delta| && k < |delta|
    ensures |r.delta| == |delta|
    ensures forall m :: 0 <= m < |delta| && m != i && m != k ==> r.delta[m] == delta[m]
    ensures r.cost >= cost
  {
    if Opposite(delta[i], delta[k]) then
      var res := delta[i] + delta[k];
      if Abs(delta[i]) <= Abs(delta[k]) then
        Step(delta[i := 0.0][k := res], cost + Work(Abs(delta[i]), j), true)
      else
        Step(delta[i := res][k := 0.0], cost + Work(Abs(delta[k]), j), false)
    else
      Step(delta, cost, false)
  }

  /**
   * The scan outward from bin `i`, at distances `j`, `j + 1`, ..., `|delta| - i - 1`:
   * first the left partner `i - j` (when it exists), then the right partner
   * `i + j` (when it exists). The scan stops as soon as bin `i` is consumed.
   */
  function Scan(delta: seq<real>, cost: real, i: nat, j: nat): (r: State)
    requires i < |delta| && 1 <= j
    ensures |r.delta| == |delta|
    ensures r.cost >= cost
    decreases |delta| - i - j
  {
    if j >= |delta| - i then
      State(delta, cost)
    else
      var left := Left(delta, cost, i, j);
      if left.consumed then
        State(left.delta, left.cost)
      else
        var right := Right(left.delta, left.cost, i, j);
        if right.consumed then State(right.delta, right.cost)
        else Scan(right.delta, right.cost, i, j + 1)
  }

  /** The left partner `i - j` is tried only when it exists. */
  function Left(delta: seq<real>, cost: real, i: nat, j: nat): (r: Step)
    requires i < |delta|
    ensures |r.delta| == |delta|
    ensures r.cost >= cost
  {
    if i >= j then Cancel(delta, cost, i, i - j, j) else Step(delta, cost, false)
  }

  /** The right partner `i + j` is tried only when it exists. */
  function Right(delta: seq<real>, cost: real, i: nat, j: nat): (r: Step)
    requires i < |delta|
    ensures |r.delta| == |delta|
    ensures r.cost >= cost
  {
    if i + j < |delta| then Cancel(delta, cost, i, i + j, j) else Step(delta, cost, false)
  }

  /** One round of Scan, spelled out for the loop proof of Emd. */
  lemma ScanUnfold(delta: seq<real>, cost: real, i: nat, j: nat)
    requires i < |delta| && 1 <= j < |delta| - i
    ensures var left := Left(delta, cost, i, j);
      var right := Right(left.delta, left.cost, i, j);
      Scan(delta, cost, i, j) ==
        if left.consumed then State(left.delta, left.cost)
        else if right.consumed then State(right.delta, right.cost)
        else Scan(right.delta, right.cost, i, j + 1)
  {
  }

  /** The outer loop over the bins `i`, `i + 1`, ..., `|delta| - 1`; zero bins are skipped. */
  function Pass(delta: seq<real>, cost: real, i: nat): (r: State)
    requires i <= |delta|
    ensures |r.delta| == |delta|
    ensures r.cost >= cost
    decreases |delta| - i
  {
    if i == |delta| then
      State(delta, cost)
    else if delta[i] != 0.0 then
      var s := Scan(delta, cost, i, 1);
      Pass(s.delta, s.cost, i + 1)
    else
      Pass(delta, cost, i + 1)
  }

  /** One round of Pass, spelled out for the loop proof of Emd. */
  lemma PassUnfold(delta: seq<real>, cost: real, i: nat)
    requires i < |delta|
    ensures Pass(delta, cost, i) ==
      if delta[i] != 0.0 then
        var s := Scan(delta, cost, i, 1);
        Pass(s.delta, s.cost, i + 1)
      else Pass(delta, cost, i + 1)
  {
  }

  /** The whole run on two histograms: the final difference array and the cost. */
  function Greedy(seq1: seq<real>, seq2: seq<real>): (r: State)
    requires |seq1| == |seq2|
    ensures |r.delta| == |seq1|
    ensures r.cost >= 0.0
  {
    Pass(Subtract(seq1, seq2), 0.0, 0)
  }

  /** The distance the library reports: the cost of the whole run, never negative. */
  function GreedyCost(seq1: seq<real>, seq2: seq<real>): (r: real)
    requires |seq1| == |seq2|
    ensures r >= 0.0
  {
    Greedy(seq1, seq2).cost
  }

  /**
   * One cancellation attempt performed in place on the difference array;
   * `consumed` reports that bin `i` was used up (the source's `break`).
   */
  method CancelInPlace(delta: array<real>, cost: real, i: nat, k: nat, j: nat)
    returns (newCost: real, consumed: bool)
    requires i < delta.Length && k < delta.Length
    modifies delta
    ensures Cancel(old(delta[..]), cost, i, k, j) == Step(delta[..], newCost, consumed)
    ensures newCost >= cost
  {
    ghost var before := delta[..];
    OppositeIsNegativeProduct(delta[i], delta[k]);
    WorkIsProduct(Abs(delta[i]), j);
    WorkIsProduct(Abs(delta[k]), j);
    newCost, consumed := cost, false;
    if delta[i] * delta[k] < 0.0 {
      var res := delta[i] + delta[k];
      if Abs(delta[i]) <= Abs(delta[k]) {
        newCost := cost + Abs(delta[i]) * j as real;
        delta[i] := 0.0;
        delta[k] := res;
        assert delta[..] == before[i := 0.0][k := res];
        consumed := true;
      } else {
        newCost := cost + Abs(delta[k]) * j as real;
        delta[i] := res;
        delta[k] := 0.0;
        assert delta[..] == before[i := res][k := 0.0];
      }
    }
  }

  /**
   * The `j` loop for one nonzero bin `i`, in place: left partner first,
   * then right partner, at growing distance, leaving the loop as soon as
   * bin `i` is consumed.
   */
  method ScanInPlace(delta: array<real>, cost: real, i: nat) returns (newCost: real)
    requires i < delta.Length
    modifies delta
    ensures Scan(old(delta[..]), cost, i, 1) == State(delta[..], newCost)
    ensures newCost >= cost
  {
    ghost var scanned := Scan(delta[..], cost, i, 1);
    newCost := cost;
    var j := 1;
    while j < delta.Length - i
      invariant 1 <= j <= delta.Length - i
      invariant Scan(delta[..], newCost, i, j) == scanned
      invariant newCost >= cost
    {
      ghost var d0, c0 := delta[..], newCost;
      var consumed := false;
      if i >= j {
        newCost, consumed := CancelInPlace(delta, newCost, i, i - j, j);
        assert Left(d0, c0, i, j) == Step(delta[..], newCost, consumed);
      } else {
        assert Left(d0, c0, i, j) == Step(d0, c0, false);
      }
      ghost var d1, c1 := delta[..], newCost;
      if consumed {
        ScanUnfold(d0, c0, i, j);
        break;
      }
      if i + j < delta.Length {
        newCost, consumed := CancelInPlace(delta, newCost, i, i + j, j);
        assert Right(d1, c1, i, j) == Step(delta[..], newCost, consumed);
      }
      ScanUnfold(d0, c0, i, j);
      if consumed {
        break;
      }
      j := j + 1;
    }
  }

  /**
   * The algorithm as the library runs it: the difference is copied into a
   * fresh array, which is then cancelled in place bin by bin while `cost`
   * accumulates. The result is the cost of the reference definition, and
   * the accumulator never goes below zero.
   */
  method Emd(seq1: seq<real>, seq2: seq<real>) returns (cost: real)
    requires |seq1| == |seq2|
    ensures cost == GreedyCost(seq1, seq2)
    ensures cost >= 0.0
  {
    var diff := Subtract(seq1, seq2);
    var delta := new real[|diff|](m requires 0 <= m < |diff| => diff[m]);
    assert delta[..] == diff;
    cost := 0.0;
    ghost var goal := Pass(diff, 0.0, 0);
    for i := 0 to delta.Length
      invariant Pass(delta[..], cost, i) == goal
      invariant cost >= 0.0
    {
      PassUnfold(delta[..], cost, i);
      if delta[i] != 0.0 {
        cost := ScanInPlace(delta, cost, i);
      }
    }
  }
}
