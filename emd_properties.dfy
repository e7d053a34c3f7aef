/**
 * What the greedy Earth Mover's Distance of module Emd guarantees:
 * every cancellation conserves the signed mass of the difference array,
 * touches two bins only, and pays exactly the moved mass times the bin
 * distance; over a whole run the cost is bounded below and above by the
 * total magnitude it removed; identical histograms cost nothing; two
 * histograms of equal total mass are drained completely; and the search for
 * a left partner never cancels anything.
 */
module EmdProperties {
  import opened Emd

  /** Total signed mass of a difference array. */
  function Sum(s: seq<real>): (r: real)
  {
    if s == [] then 0.0 else s[0] + Sum(s[1..])
  }

  /** Total magnitude of a difference array: the mass that still has to move. */
  function AbsSum(s: seq<real>): (r: real)
    ensures r >= 0.0
  {
    if s == [] then 0.0 else Abs(s[0]) + AbsSum(s[1..])
  }

  /** The smaller of two numbers. */
  function Min(x: real, y: real): (r: real)
    ensures r <= x && r <= y && (r == x || r == y)
  {
    if x <= y then x else y
  }

  /** Neither number is strictly on the other side of zero. */
  predicate SameSide(x: real, y: real)
  {
    (x >= 0.0 && y >= 0.0) || (x <= 0.0 && y <= 0.0)
  }

  ghost predicate ZeroBelow(d: seq<real>, i: nat)
    requires i <= |d|
  {
    forall m :: 0 <= m < i ==> d[m] == 0.0
  }

  // ---------------------------------------------------------------------
  // Sums over sequences

  lemma {:induction false} SumUpdate(s: seq<real>, p: nat, x: real)
    requires p < |s|
    ensures Sum(s[p := x]) == Sum(s) - s[p] + x
  {
    if p > 0 {
      assert s[p := x][1..] == s[1..][p - 1 := x];
      SumUpdate(s[1..], p - 1, x);
    }
  }

  lemma {:induction false} AbsSumUpdate(s: seq<real>, p: nat, x: real)
    requires p < |s|
    ensures AbsSum(s[p := x]) == AbsSum(s) - Abs(s[p]) + Abs(x)
  {
    if p > 0 {
      assert s[p := x][1..] == s[1..][p - 1 := x];
      AbsSumUpdate(s[1..], p - 1, x);
    }
  }

  /** The difference array carries the mass of `b` minus the mass of `a`. */
  lemma {:induction false} SumSubtract(a: seq<real>, b: seq<real>)
    requires |a| == |b|
    ensures Sum(Subtract(a, b)) == Sum(b) - Sum(a)
  {
    if a != [] {
      SumSubtract(a[1..], b[1..]);
    }
  }

  /** With no negative entry, the sum is at least any single entry. */
  lemma {:induction false} SumAtLeastEntry(s: seq<real>, p: nat)
    requires p < |s|
    requires forall m :: 0 <= m < |s| ==> s[m] >= 0.0
    ensures Sum(s) >= s[p]
  {
    if p == 0 {
      if |s| > 1 {
        SumAtLeastEntry(s[1..], 0);
      }
    } else {
      SumAtLeastEntry(s[1..], p - 1);
    }
  }

  /** With no positive entry, the sum is at most any single entry. */
  lemma {:induction false} SumAtMostEntry(s: seq<real>, p: nat)
    requires p < |s|
    requires forall m :: 0 <= m < |s| ==> s[m] <= 0.0
    ensures Sum(s) <= s[p]
  {
    if p == 0 {
      if |s| > 1 {
        SumAtMostEntry(s[1..], 0);
      }
    } else {
      SumAtMostEntry(s[1..], p - 1);
    }
  }

  /** A nonzero entry with every other entry on its side of zero makes the total mass nonzero. */
  lemma OneSidedSumNonZero(s: seq<real>, p: nat)
    requires p < |s| && s[p] != 0.0
    requires forall m :: 0 <= m < |s| ==> SameSide(s[p], s[m])
    ensures Sum(s) != 0.0
  {
    if s[p] > 0.0 {
      SumAtLeastEntry(s, p);
    } else {
      SumAtMostEntry(s, p);
    }
  }

  /** Moving any non-negative mass over at least one bin costs at least that mass. */
  lemma {:induction false} WorkAtLeastMass(mass: real, j: nat)
    requires mass >= 0.0 && j >= 1
    ensures Work(mass, j) >= mass
  {
    if j > 1 {
      WorkAtLeastMass(mass, j - 1);
    }
  }

  // ---------------------------------------------------------------------
  // One cancellation

  /**
   * A cancellation between bins `i` and `k` fires exactly when their entries
   * have opposite signs. It then conserves the signed mass, adds the smaller
   * magnitude times `j` to the cost, and removes twice that magnitude from
   * the array's total magnitude; the bin with the smaller magnitude becomes
   * zero and the other keeps the residual; `consumed` holds exactly when bin
   * `i` was the smaller one (ties included), and then bin `i` is zero.
   * Without opposite signs nothing changes.
   */
  lemma CancelStep(delta: seq<real>, cost: real, i: nat, k: nat, j: nat)
    requires i < |delta| && k < |delta| && i != k
    ensures var r := Cancel(delta, cost, i, k, j);
      var moved := Min(Abs(delta[i]), Abs(delta[k]));
      Sum(r.delta) == Sum(delta) &&
      (Opposite(delta[i], delta[k]) ==>
        r.cost == cost + Work(moved, j) &&
        AbsSum(r.delta) == AbsSum(delta) - 2.0 * moved &&
        (r.consumed <==> Abs(delta[i]) <= Abs(delta[k])) &&
        (r.consumed ==> r.delta[i] == 0.0 && r.delta[k] == delta[i] + delta[k]) &&
        (!r.consumed ==> r.delta[k] == 0.0 && r.delta[i] == delta[i] + delta[k])) &&
      (!Opposite(delta[i], delta[k]) ==> r == Step(delta, cost, false))
  {
    if Opposite(delta[i], delta[k]) {
      if Abs(delta[i]) <= Abs(delta[k]) {
        CancelConsumesBin(delta, cost, i, k, j);
      } else {
        CancelConsumesPartner(delta, cost, i, k, j);
      }
    }
  }

  /** The break branch: bin `i` has the smaller (or equal) magnitude and is used up. */
  lemma CancelConsumesBin(delta: seq<real>, cost: real, i: nat, k: nat, j: nat)
    requires i < |delta| && k < |delta| && i != k
    requires Opposite(delta[i], delta[k]) && Abs(delta[i]) <= Abs(delta[k])
    ensures var r := Cancel(delta, cost, i, k, j);
      r.consumed && r.delta[i] == 0.0 && r.delta[k] == delta[i] + delta[k] &&
      r.cost == cost + Work(Abs(delta[i]), j) &&
      Sum(r.delta) == Sum(delta) &&
      AbsSum(r.delta) == AbsSum(delta) - 2.0 * Abs(delta[i])
  {
    var x, y := delta[i], delta[k];
    ResidualMagnitude(x, y);
    var d1 := delta[i := 0.0];
    SumUpdate(delta, i, 0.0);
    SumUpdate(d1, k, x + y);
    AbsSumUpdate(delta, i, 0.0);
    AbsSumUpdate(d1, k, x + y);
  }

  /** The continue branch: the partner `k` has the smaller magnitude and is used up. */
  lemma CancelConsumesPartner(delta: seq<real>, cost: real, i: nat, k: nat, j: nat)
    requires i < |delta| && k < |delta| && i != k
    requires Opposite(delta[i], delta[k]) && Abs(delta[k]) < Abs(delta[i])
    ensures var r := Cancel(delta, cost, i, k, j);
      !r.consumed && r.delta[k] == 0.0 && r.delta[i] == delta[i] + delta[k] &&
      r.cost == cost + Work(Abs(delta[k]), j) &&
      Sum(r.delta) == Sum(delta) &&
      AbsSum(r.delta) == AbsSum(delta) - 2.0 * Abs(delta[k])
  {
    var x, y := delta[i], delta[k];
    ResidualMagnitude(x, y);
    var d1 := delta[i := x + y];
    SumUpdate(delta, i, x + y);
    SumUpdate(d1, k, 0.0);
    AbsSumUpdate(delta, i, x + y);
    AbsSumUpdate(d1, k, 0.0);
  }

  /** Without opposite signs a cancellation attempt changes nothing. */
  lemma CancelIdle(delta: seq<real>, cost: real, i: nat, k: nat, j: nat)
    requires i < |delta| && k < |delta|
    requires !Opposite(delta[i], delta[k])
    ensures Cancel(delta, cost, i, k, j) == Step(delta, cost, false)
  {
  }

  /** Adding two entries of opposite signs leaves the difference of their magnitudes. */
  lemma ResidualMagnitude(x: real, y: real)
    requires Opposite(x, y)
    ensures Abs(x + y) == if Abs(x) <= Abs(y) then Abs(y) - Abs(x) else Abs(x) - Abs(y)
    ensures Abs(x) < Abs(y) ==> SameSide(x + y, y)
    ensures Abs(y) < Abs(x) ==> SameSide(x + y, x)
  {
  }

  // ---------------------------------------------------------------------
  // Cost accounting over a stretch of the run

  /** The longest distance between two of the bins of `d`. */
  function Span(d: seq<real>): (r: nat)
  {
    if |d| == 0 then 0 else |d| - 1
  }

  /**
   * Going from `(d0, c0)` to `(d1, c1)` conserved the signed mass, did not
   * lower the cost and did not raise the total magnitude; and, as every moved
   * unit of mass removes two units of magnitude, one on each side, the cost
   * paid for the removed magnitude lies between one bin of distance per
   * unit moved and `Span(d0)` bins per unit moved.
   */
  ghost predicate Accounted(d0: seq<real>, c0: real, d1: seq<real>, c1: real)
  {
    var drop := AbsSum(d0) - AbsSum(d1);
    Sum(d1) == Sum(d0) && c0 <= c1 && 0.0 <= drop <= 2.0 * (c1 - c0) &&
    2.0 * (c1 - c0) <= Work(drop, Span(d0))
  }

  lemma {:induction false} WorkAdd(a: real, b: real, j: nat)
    ensures Work(a + b, j) == Work(a, j) + Work(b, j)
  {
    if j > 0 {
      WorkAdd(a, b, j - 1);
    }
  }

  lemma {:induction false} WorkMonotone(mass: real, j: nat, w: nat)
    requires mass >= 0.0 && j <= w
    ensures Work(mass, j) <= Work(mass, w)
    decreases w
  {
    if j < w {
      WorkMonotone(mass, j, w - 1);
    }
  }

  lemma AccountedTrans(d0: seq<real>, c0: real, d1: seq<real>, c1: real, d2: seq<real>, c2: real)
    requires |d0| == |d1|
    requires Accounted(d0, c0, d1, c1) && Accounted(d1, c1, d2, c2)
    ensures Accounted(d0, c0, d2, c2)
  {
    var a0, a1, a2 := AbsSum(d0), AbsSum(d1), AbsSum(d2);
    WorkAdd(a0 - a1, a1 - a2, Span(d0));
    assert (a0 - a1) + (a1 - a2) == a0 - a2;
  }

  lemma AccountedRefl(d: seq<real>, c: real)
    ensures Accounted(d, c, d, c)
  {
    WorkAdd(0.0, 0.0, Span(d));
  }

  /** Moving `moved` units over `j` bins, `1 <= j <= Span(d0)`, is accounted for. */
  lemma PayAccounted(d0: seq<real>, c0: real, d1: seq<real>, c1: real, moved: real, j: nat)
    requires moved >= 0.0 && 1 <= j <= Span(d0)
    requires Sum(d1) == Sum(d0) && c1 == c0 + Work(moved, j) && AbsSum(d1) == AbsSum(d0) - 2.0 * moved
    ensures Accounted(d0, c0, d1, c1)
  {
    WorkAtLeastMass(moved, j);
    WorkMonotone(moved, j, Span(d0));
    WorkAdd(moved, moved, Span(d0));
    assert AbsSum(d0) - AbsSum(d1) == moved + moved;
  }

  /** Each cancellation attempt at a distance `j` with `1 <= j <= Span(delta)` is accounted for. */
  lemma CancelAccounted(delta: seq<real>, cost: real, i: nat, k: nat, j: nat)
    requires i < |delta| && k < |delta| && i != k && 1 <= j <= Span(delta)
    ensures var r := Cancel(delta, cost, i, k, j);
      Accounted(delta, cost, r.delta, r.cost)
  {
    var r := Cancel(delta, cost, i, k, j);
    if Opposite(delta[i], delta[k]) {
      if Abs(delta[i]) <= Abs(delta[k]) {
        CancelConsumesBin(delta, cost, i, k, j);
        PayAccounted(delta, cost, r.delta, r.cost, Abs(delta[i]), j);
      } else {
        CancelConsumesPartner(delta, cost, i, k, j);
        PayAccounted(delta, cost, r.delta, r.cost, Abs(delta[k]), j);
      }
    } else {
      CancelIdle(delta, cost, i, k, j);
      AccountedRefl(delta, cost);
    }
  }

  lemma LeftAccounted(delta: seq<real>, cost: real, i: nat, j: nat)
    requires i < |delta| && 1 <= j
    ensures var r := Left(delta, cost, i, j);
      Accounted(delta, cost, r.delta, r.cost)
  {
    if i >= j {
      CancelAccounted(delta, cost, i, i - j, j);
    } else {
      AccountedRefl(delta, cost);
    }
  }

  lemma RightAccounted(delta: seq<real>, cost: real, i: nat, j: nat)
    requires i < |delta| && 1 <= j
    ensures var r := Right(delta, cost, i, j);
      Accounted(delta, cost, r.delta, r.cost)
  {
    if i + j < |delta| {
      CancelAccounted(delta, cost, i, i + j, j);
    } else {
      AccountedRefl(delta, cost);
    }
  }

  /** The scan of one bin is accounted for. */
  lemma {:induction false} ScanAccounted(delta: seq<real>, cost: real, i: nat, j: nat)
    requires i < |delta| && 1 <= j
    ensures var r := Scan(delta, cost, i, j);
      Accounted(delta, cost, r.delta, r.cost)
    decreases |delta| - i - j
  {
    if j >= |delta| - i {
      AccountedRefl(delta, cost);
    } else {
      var left := Left(delta, cost, i, j);
      LeftAccounted(delta, cost, i, j);
      if !left.consumed {
        var right := Right(left.delta, left.cost, i, j);
        RightAccounted(left.delta, left.cost, i, j);
        AccountedTrans(delta, cost, left.delta, left.cost, right.delta, right.cost);
        if !right.consumed {
          ScanAccounted(right.delta, right.cost, i, j + 1);
          var rest := Scan(right.delta, right.cost, i, j + 1);
          AccountedTrans(delta, cost, right.delta, right.cost, rest.delta, rest.cost);
        }
      }
    }
  }

  /** The outer loop from bin `i` on is accounted for. */
  lemma {:induction false} PassAccounted(delta: seq<real>, cost: real, i: nat)
    requires i <= |delta|
    ensures var r := Pass(delta, cost, i);
      Accounted(delta, cost, r.delta, r.cost)
    decreases |delta| - i
  {
    if i == |delta| {
      AccountedRefl(delta, cost);
    } else if delta[i] != 0.0 {
      var s := Scan(delta, cost, i, 1);
      ScanAccounted(delta, cost, i, 1);
      PassAccounted(s.delta, s.cost, i + 1);
      var r := Pass(s.delta, s.cost, i + 1);
      AccountedTrans(delta, cost, s.delta, s.cost, r.delta, r.cost);
    } else {
      PassAccounted(delta, cost, i + 1);
    }
  }

  /**
   * The whole run: the residual difference array still carries the mass
   * imbalance `Sum(seq2) - Sum(seq1)`, the cost is non-negative, and twice
   * the cost is at least the magnitude the run removed.
   */
  lemma GreedyAccounting(seq1: seq<real>, seq2: seq<real>)
    requires |seq1| == |seq2|
    ensures var g := Greedy(seq1, seq2);
      Sum(g.delta) == Sum(seq2) - Sum(seq1) && g.cost >= 0.0 &&
      Accounted(Subtract(seq1, seq2), 0.0, g.delta, g.cost)
  {
    var d := Subtract(seq1, seq2);
    PassAccounted(d, 0.0, 0);
    SumSubtract(seq1, seq2);
  }

  // ---------------------------------------------------------------------
  // Identical histograms

  /** On an all-zero difference array the guard `delta[i] != 0` never fires. */
  lemma {:induction false} PassOnZeros(delta: seq<real>, cost: real, i: nat)
    requires i <= |delta|
    requires forall m :: 0 <= m < |delta| ==> delta[m] == 0.0
    ensures Pass(delta, cost, i) == State(delta, cost)
    decreases |delta| - i
  {
    if i < |delta| {
      PassOnZeros(delta, cost, i + 1);
    }
  }

  lemma IdenticalCostZero(seq1: seq<real>)
    ensures GreedyCost(seq1, seq1) == 0.0
    ensures Greedy(seq1, seq1).delta == Subtract(seq1, seq1)
  {
    PassOnZeros(Subtract(seq1, seq1), 0.0, 0);
  }

  // ---------------------------------------------------------------------
  // Histograms of equal total mass

  /**
   * While every bin left of `i` is zero and the total signed mass is zero,
   * the scan of bin `i` leaves bin `i` zero too. The bins already visited to
   * the right of `i` (distances below `j`) are on the side of zero of bin `i`.
   */
  lemma {:induction false} ScanDrains(delta: seq<real>, cost: real, i: nat, j: nat)
    requires i < |delta| && 1 <= j
    requires Sum(delta) == 0.0 && ZeroBelow(delta, i)
    requires forall m :: i < m < |delta| && m < i + j ==> SameSide(delta[i], delta[m])
    ensures ZeroBelow(Scan(delta, cost, i, j).delta, i + 1)
    decreases |delta| - i - j
  {
    if j >= |delta| - i {
      if delta[i] != 0.0 {
        OneSidedSumNonZero(delta, i);
        assert false;
      }
    } else {
      ScanUnfold(delta, cost, i, j);
      LeftIdle(delta, cost, i, j);
      var right := Cancel(delta, cost, i, i + j, j);
      if !right.consumed {
        RightContinues(delta, cost, i, j);
        ScanDrains(right.delta, right.cost, i, j + 1);
      }
    }
  }

  /** With every bin left of `i` zero, the left partner never cancels. */
  lemma LeftIdle(delta: seq<real>, cost: real, i: nat, j: nat)
    requires i < |delta| && ZeroBelow(delta, i)
    ensures Left(delta, cost, i, j) == Step(delta, cost, false)
  {
  }

  /**
   * When the right partner does not consume bin `i`, the invariant of
   * ScanDrains holds one distance further: bin `i` keeps its side of zero
   * and the partner is left on that side (or at zero).
   */
  lemma RightContinues(delta: seq<real>, cost: real, i: nat, j: nat)
    requires i + j < |delta| && 1 <= j
    requires Sum(delta) == 0.0 && ZeroBelow(delta, i)
    requires forall m :: i < m < |delta| && m < i + j ==> SameSide(delta[i], delta[m])
    requires !Cancel(delta, cost, i, i + j, j).consumed
    ensures var r := Cancel(delta, cost, i, i + j, j);
      Sum(r.delta) == 0.0 && ZeroBelow(r.delta, i) &&
      forall m :: i < m < |delta| && m < i + j + 1 ==> SameSide(r.delta[i], r.delta[m])
  {
    var k := i + j;
    CancelStep(delta, cost, i, k, j);
    if Opposite(delta[i], delta[k]) {
      ResidualMagnitude(delta[i], delta[k]);
    }
  }

  lemma {:induction false} PassDrains(delta: seq<real>, cost: real, i: nat)
    requires i <= |delta|
    requires Sum(delta) == 0.0 && ZeroBelow(delta, i)
    ensures forall m :: 0 <= m < |delta| ==> Pass(delta, cost, i).delta[m] == 0.0
    decreases |delta| - i
  {
    if i < |delta| {
      if delta[i] != 0.0 {
        var s := Scan(delta, cost, i, 1);
        ScanDrains(delta, cost, i, 1);
        ScanAccounted(delta, cost, i, 1);
        PassDrains(s.delta, s.cost, i + 1);
      } else {
        PassDrains(delta, cost, i + 1);
      }
    }
  }

  /**
   * When both histograms carry the same total mass, the run drives every
   * entry of the difference array to zero, so twice the cost lies between
   * the initial total magnitude and `n - 1` times it (Work, see
   * WorkIsProduct), for `n` bins: every unit of mass moved at least one bin
   * and at most `n - 1` bins.
   */
  lemma EqualMassDrains(seq1: seq<real>, seq2: seq<real>)
    requires |seq1| == |seq2| && Sum(seq1) == Sum(seq2)
    ensures forall m :: 0 <= m < |seq1| ==> Greedy(seq1, seq2).delta[m] == 0.0
    ensures var total := AbsSum(Subtract(seq1, seq2));
      total <= 2.0 * GreedyCost(seq1, seq2) <= Work(total, Span(seq1))
  {
    var d := Subtract(seq1, seq2);
    var g := Greedy(seq1, seq2);
    assert g == Pass(d, 0.0, 0);
    SumSubtract(seq1, seq2);
    PassDrains(d, 0.0, 0);
    GreedyAccounting(seq1, seq2);
    AbsSumOfZeros(g.delta);
    assert AbsSum(d) - AbsSum(g.delta) == AbsSum(d);
    assert Span(d) == Span(seq1);
  }

  lemma {:induction false} AbsSumOfZeros(s: seq<real>)
    requires forall m :: 0 <= m < |s| ==> s[m] == 0.0
    ensures AbsSum(s) == 0.0
  {
    if s != [] {
      AbsSumOfZeros(s[1..]);
    }
  }

  // ---------------------------------------------------------------------
  // The left partner never cancels

  /**
   * The scan of bin `i` with the left-partner step taken out: only the
   * partners `i + j`, `i + j + 1`, ... are tried.
   */
  function ScanRight(delta: seq<real>, cost: real, i: nat, j: nat): (r: State)
    requires i < |delta| && 1 <= j
    ensures |r.delta| == |delta|
    ensures r.cost >= cost
    decreases |delta| - i - j
  {
    if j >= |delta| - i then
      State(delta, cost)
    else
      var right := Right(delta, cost, i, j);
      if right.consumed then State(right.delta, right.cost)
      else ScanRight(right.delta, right.cost, i, j + 1)
  }

  /** The outer loop over the bins, each nonzero bin scanned to the right only. */
  function PassRight(delta: seq<real>, cost: real, i: nat): (r: State)
    requires i <= |delta|
    ensures |r.delta| == |delta|
    ensures r.cost >= cost
    decreases |delta| - i
  {
    if i == |delta| then
      State(delta, cost)
    else if delta[i] != 0.0 then
      var s := ScanRight(delta, cost, i, 1);
      PassRight(s.delta, s.cost, i + 1)
    else
      PassRight(delta, cost, i + 1)
  }

  /**
   * The state the outer loop leaves behind for the bins below `i`: each of
   * them is zero, or no bin to its right is strictly on the other side of
   * zero.
   */
  ghost predicate Settled(d: seq<real>, i: nat)
    requires i <= |d|
  {
    forall m :: 0 <= m < i ==> d[m] == 0.0 || forall p :: m < p < |d| ==> SameSide(d[m], d[p])
  }

  /** Not having opposite signs is being on the same side of zero. */
  lemma NotOppositeIsSameSide(x: real, y: real)
    ensures !Opposite(x, y) <==> SameSide(x, y)
  {
  }

  /** Over settled bins, the left partner never has the opposite sign. */
  lemma SettledLeftIdle(delta: seq<real>, cost: real, i: nat, j: nat)
    requires i < |delta| && 1 <= j && Settled(delta, i)
    ensures Left(delta, cost, i, j) == Step(delta, cost, false)
  {
    if i >= j {
      var k := i - j;
      assert delta[k] == 0.0 || SameSide(delta[k], delta[i]);
    }
  }

  /**
   * A right step keeps the bins below `i` settled. If it fires, every bin
   * below `i` is zero, since a nonzero one would have both partners on
   * its side of zero.
   */
  lemma RightKeepsSettled(delta: seq<real>, cost: real, i: nat, j: nat)
    requires i + j < |delta| && 1 <= j && Settled(delta, i)
    ensures Settled(Right(delta, cost, i, j).delta, i)
  {
    var k := i + j;
    if Opposite(delta[i], delta[k]) {
      assert ZeroBelow(delta, i);
    }
  }

  /**
   * When the right partner does not use up bin `i`, bin `i` keeps its side
   * of zero and the partner ends on that side: the bins visited so far stay
   * on bin `i`'s side.
   */
  lemma RightKeepsSide(delta: seq<real>, cost: real, i: nat, j: nat)
    requires i + j < |delta| && 1 <= j
    requires forall p :: i < p < i + j ==> SameSide(delta[i], delta[p])
    requires !Right(delta, cost, i, j).consumed
    ensures var r := Right(delta, cost, i, j);
      forall p :: i < p < i + j + 1 ==> SameSide(r.delta[i], r.delta[p])
  {
    var k := i + j;
    CancelStep(delta, cost, i, k, j);
    if Opposite(delta[i], delta[k]) {
      ResidualMagnitude(delta[i], delta[k]);
    }
  }

  /**
   * Over settled bins the scan of bin `i` is its right-only scan, and
   * afterwards the bins through `i` are settled.
   */
  lemma {:induction false} ScanIsRightOnly(delta: seq<real>, cost: real, i: nat, j: nat)
    requires i < |delta| && 1 <= j && Settled(delta, i)
    requires forall p :: i < p < |delta| && p < i + j ==> SameSide(delta[i], delta[p])
    ensures Scan(delta, cost, i, j) == ScanRight(delta, cost, i, j)
    ensures Settled(Scan(delta, cost, i, j).delta, i + 1)
    decreases |delta| - i - j
  {
    if j < |delta| - i {
      ScanUnfold(delta, cost, i, j);
      SettledLeftIdle(delta, cost, i, j);
      var right := Right(delta, cost, i, j);
      RightKeepsSettled(delta, cost, i, j);
      if right.consumed {
        CancelStep(delta, cost, i, i + j, j);
      } else {
        RightKeepsSide(delta, cost, i, j);
        ScanIsRightOnly(right.delta, right.cost, i, j + 1);
      }
    }
  }

  /** Over settled bins, the outer loop is its right-only version. */
  lemma {:induction false} PassIsRightOnly(delta: seq<real>, cost: real, i: nat)
    requires i <= |delta| && Settled(delta, i)
    ensures Pass(delta, cost, i) == PassRight(delta, cost, i)
    decreases |delta| - i
  {
    if i < |delta| {
      if delta[i] != 0.0 {
        var s := Scan(delta, cost, i, 1);
        ScanIsRightOnly(delta, cost, i, 1);
        PassIsRightOnly(s.delta, s.cost, i + 1);
      } else {
        PassIsRightOnly(delta, cost, i + 1);
      }
    }
  }

  /**
   * For every pair of histograms, the run equals the run that only ever
   * looks to the right: the left-partner step never cancels anything.
   */
  lemma LeftBranchDead(seq1: seq<real>, seq2: seq<real>)
    requires |seq1| == |seq2|
    ensures Greedy(seq1, seq2) == PassRight(Subtract(seq1, seq2), 0.0, 0)
  {
    PassIsRightOnly(Subtract(seq1, seq2), 0.0, 0);
  }
}
