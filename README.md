# Greedy one-dimensional Earth Mover's Distance (linfa-nn `emd`)

This project models the Earth Mover's Distance of `linfa-nn` and proves facts about it. The distance works on two histograms over ordered bins. It works as follows:

1. `subtract` forms the signed difference `delta = seq2 - seq1`.
2. `emd` walks the bins in increasing order. Every nonzero bin `i` is matched against the nearest bin of opposite sign. At distance `j = 1, 2, ...` it first tries the left partner `i - j`, then the right partner `i + j`.
3. When the two entries have opposite signs, the smaller magnitude is moved. The cost grows by that magnitude times `j`. The bin with the smaller magnitude becomes zero, and the other bin keeps the signed residual.
4. When bin `i` is the one that is used up (ties included), the scan of bin `i` stops.

All arithmetic is exact: the generic float type `F` is modelled as `real`.

The model is in three modules:

- `Emd` (`emd.dfy`) holds the model itself.
  - `Subtract` models `subtract`.
  - The reference definition of `emd` is built from four functions:
    - `Cancel` is one cancellation attempt;
    - `Left` and `Right` try the partner on each side;
    - `Scan` is the `j` loop with its `break`;
    - `Pass` is the `i` loop with its skip of zero bins.
  - `Greedy` / `GreedyCost` run that definition from the start.
  - The method `Emd` is the in-place algorithm over an `array<real>`, with the `i` loop, the nested `j` loop and the early exit. It is split into:
    - `CancelInPlace`, one cancellation;
    - `ScanInPlace`, the `j` loop.
  - `Emd` is proved to return exactly `GreedyCost`.
  - The source multiplies in two places: the sign test `delta[i] * delta[k] < 0` and the cost term `|x| * j`. The model states both without multiplication:
    - `Opposite` replaces the sign test;
    - `Work` (repeated addition) replaces the cost term.
  - `OppositeIsNegativeProduct` and `WorkIsProduct` show that each replacement equals the source's expression. The method evaluates the source's own expressions.
- `EmdProperties` (`emd_properties.dfy`) proves what the algorithm guarantees:
  - per cancellation, mass conservation, the locality of the change and the exact cost;
  - over a whole run, a cost/magnitude accounting;
  - zero cost for identical inputs;
  - complete draining when both histograms carry the same total mass;
  - for every input, the left-partner search never cancels anything.
- `EmdTests` (`emd_tests.dfy`) proves the library's test vectors `case_0` to `case_6` about the reference definition, and one unequal-mass example. Because `Emd` is proved to return `GreedyCost`, the test results hold for the method as well.

Four facts about what the code does that a reader may not expect:

- The difference array is driven to all zeros only when the two histograms have equal total mass.
  - `EqualMassDrains` proves this case.
  - `UnequalMassResidual` shows that the surplus otherwise stays in the array.
- The cost is non-negative for all equal-length inputs, not only for equal-mass ones (`GreedyCost`).
- The right-hand guard `k < delta.len()` (`emd.rs:40`) is always true inside the `j` loop, because `j < len - i`. The model keeps the test anyway.
- The left-hand branch (`emd.rs:21-37`) never fires, for any input. After the scan of a bin, either that bin is zero or no bin to its right is on the other side of zero. So a nonzero left partner never has the opposite sign, and the whole run equals a run that only looks right (`LeftBranchDead`). With equal total mass the statement is even simpler: every bin below the scanned bin is already zero (`LeftIdle`, used by `ScanDrains`).

## Model

| member | source | states |
|---|---|---|
| `Emd.Subtract` | algorithms/linfa-nn/src/emd.rs:4-11 | The result has the inputs' length, and entry `m` is `b[m] - a[m]`, for every `m`. |
| `Emd.OppositeIsNegativeProduct` | algorithms/linfa-nn/src/emd.rs:24 | The sign test `delta[i] * delta[k] < 0` holds exactly when the two entries have strictly opposite signs (`Opposite`), in both directions. |
| `Emd.Work` | algorithms/linfa-nn/src/emd.rs:27 | The work of moving a non-negative mass over `j` bins is non-negative. |
| `Emd.WorkIsProduct` | algorithms/linfa-nn/src/emd.rs:27 | The work `Work(mass, j)` of a cancellation equals `mass * j`, the product the source adds with `F::from(j)`. |
| `Emd.Cancel` | algorithms/linfa-nn/src/emd.rs:24-51 | One cancellation attempt, used by both the left branch (`emd.rs:24-35`) and the right branch (`emd.rs:40-51`). It keeps the array's length, leaves every bin other than `i` and `k` unchanged, and never lowers the cost. Its full effect is stated by `CancelStep`. |
| `Emd.Left` | algorithms/linfa-nn/src/emd.rs:21-37 | The left-partner step keeps the array's length and never lowers the cost. Its accounting is `LeftAccounted`. That it is idle is shown by `LeftIdle` (bins below `i` zero) and by `SettledLeftIdle` (any run). |
| `Emd.Right` | algorithms/linfa-nn/src/emd.rs:38-52 | The right-partner step keeps the array's length and never lowers the cost. Its accounting is `RightAccounted`, and the invariant it keeps is `RightContinues` / `RightKeepsSide`. |
| `Emd.Scan` | algorithms/linfa-nn/src/emd.rs:19-53 | The `j` loop with its `break` keeps the array's length and never lowers the cost. What the scan achieves is stated by `ScanAccounted`, `ScanDrains` and `ScanIsRightOnly`. |
| `Emd.Pass` | algorithms/linfa-nn/src/emd.rs:17-55 | The `i` loop, which skips zero bins, keeps the array's length and never lowers the cost. What it achieves is stated by `PassAccounted`, `PassDrains`, `PassOnZeros` and `PassIsRightOnly`. |
| `Emd.Greedy` | algorithms/linfa-nn/src/emd.rs:13-57 | The whole run, from the difference array and a zero cost, keeps the number of bins and ends with a non-negative cost. Its meaning is stated by `GreedyAccounting`, `EqualMassDrains` and `LeftBranchDead`. |
| `Emd.GreedyCost` | algorithms/linfa-nn/src/emd.rs:13-57 | The reported distance is at least zero, for every pair of equal-length inputs. |
| `Emd.CancelInPlace` | algorithms/linfa-nn/src/emd.rs:24-51 | Performs one cancellation in place, using the source's product sign test and `abs * j` cost. The new array, cost and `break` flag are exactly those of `Cancel` on the old array. The cost does not decrease. |
| `Emd.ScanInPlace` | algorithms/linfa-nn/src/emd.rs:19-53 | Runs the `j` loop in place, left partner first (only when `i >= j`), then the right partner (only when `i + j < len`), leaving the loop when bin `i` is consumed. The final array and cost are those of `Scan` from `j = 1`. Every index is in bounds, and the cost does not decrease. |
| `Emd.Emd` | algorithms/linfa-nn/src/emd.rs:13-57 | The in-place algorithm on a fresh copy of the difference array returns exactly `GreedyCost(seq1, seq2)`, and the result is non-negative. |
| `EmdProperties.SumSubtract` | algorithms/linfa-nn/src/emd.rs:4-11 | The signed total of the difference array is `Sum(b) - Sum(a)`. |
| `EmdProperties.CancelStep` | algorithms/linfa-nn/src/emd.rs:24-35 | A cancellation conserves the signed total. It fires exactly when the signs are opposite, and then it: adds exactly `min(abs(delta[i]), abs(delta[k])) * j` to the cost; lowers the total magnitude by twice that minimum; sets `consumed` exactly when `abs(delta[i]) <= abs(delta[k])`; zeroes the smaller bin and leaves `delta[i] + delta[k]` in the other. Otherwise nothing changes. |
| `EmdProperties.CancelConsumesBin` | algorithms/linfa-nn/src/emd.rs:26-30 | The `break` branch: bin `i` becomes zero, bin `k` holds the residual, the cost grows by `abs(delta[i]) * j`, the total is conserved and the magnitude drops by `2 * abs(delta[i])`. |
| `EmdProperties.CancelConsumesPartner` | algorithms/linfa-nn/src/emd.rs:31-35 | The other branch: bin `k` becomes zero, bin `i` holds the residual, the cost grows by `abs(delta[k]) * j`, the total is conserved, the magnitude drops by `2 * abs(delta[k])`, and the scan goes on. |
| `EmdProperties.CancelIdle` | algorithms/linfa-nn/src/emd.rs:24 | Without opposite signs, the array and the cost are unchanged and bin `i` is not consumed. |
| `EmdProperties.ResidualMagnitude` | algorithms/linfa-nn/src/emd.rs:25 | The residual `delta[i] + delta[k]` of two opposite entries has magnitude equal to the difference of their magnitudes, and it keeps the sign of the larger one. |
| `EmdProperties.CancelAccounted` | algorithms/linfa-nn/src/emd.rs:24-35 | Any cancellation at a distance `1 <= j <= n - 1` is accounted: the total is conserved and the cost does not decrease. Twice the added cost lies between the removed magnitude and `n - 1` times it. |
| `EmdProperties.LeftAccounted` | algorithms/linfa-nn/src/emd.rs:21-36 | The left-partner step, guarded by `i >= j`, is accounted in the same sense. |
| `EmdProperties.RightAccounted` | algorithms/linfa-nn/src/emd.rs:38-52 | The right-partner step, guarded by `i + j < len`, is accounted in the same sense. |
| `EmdProperties.ScanAccounted` | algorithms/linfa-nn/src/emd.rs:19-53 | The whole scan of one bin is accounted from its start to its end. |
| `EmdProperties.PassAccounted` | algorithms/linfa-nn/src/emd.rs:17-55 | The loop over the bins from `i` on is accounted. |
| `EmdProperties.GreedyAccounting` | algorithms/linfa-nn/src/emd.rs:13-57 | The residual array's total is `Sum(seq2) - Sum(seq1)`, the cost is non-negative, and the run from the initial difference array is accounted. |
| `EmdProperties.PassOnZeros` | algorithms/linfa-nn/src/emd.rs:17-18 | On an all-zero difference array, the guard `delta[i] != 0` never fires, and neither the array nor the cost changes. |
| `EmdProperties.IdenticalCostZero` | algorithms/linfa-nn/src/emd.rs:14-18 | Identical inputs cost exactly zero, and the difference array is left untouched. |
| `EmdProperties.LeftIdle` | algorithms/linfa-nn/src/emd.rs:21-36 | When every bin below `i` is zero, the left-partner step changes nothing and never breaks. |
| `EmdProperties.RightContinues` | algorithms/linfa-nn/src/emd.rs:38-52 | In a zero-total array whose bins below `i` are zero, a right step that does not consume bin `i` keeps both facts. Afterwards every bin from `i + 1` to `i + j` lies on the same side of zero as bin `i`. |
| `EmdProperties.ScanDrains` | algorithms/linfa-nn/src/emd.rs:19-53 | In a zero-total array whose bins below `i` are zero, the scan of bin `i` leaves every bin from `0` through `i` at zero. |
| `EmdProperties.PassDrains` | algorithms/linfa-nn/src/emd.rs:17-55 | In such an array, the loop over the bins from `i` on leaves every bin at zero. |
| `EmdProperties.EqualMassDrains` | algorithms/linfa-nn/src/emd.rs:13-57 | With equal total mass, every entry of the final difference array is zero. Twice the cost lies between the initial total magnitude and `n - 1` times it. |
| `EmdProperties.SettledLeftIdle` | algorithms/linfa-nn/src/emd.rs:21-37 | Suppose every bin below `i` is zero or has no bin to its right on the other side of zero. Then the left-partner step changes nothing and never breaks. |
| `EmdProperties.RightKeepsSettled` | algorithms/linfa-nn/src/emd.rs:38-52 | A right step keeps that condition on the bins below `i`. |
| `EmdProperties.RightKeepsSide` | algorithms/linfa-nn/src/emd.rs:38-52 | A right step that does not use up bin `i` leaves bin `i` and every bin visited so far, through `i + j`, on one side of zero. |
| `EmdProperties.ScanIsRightOnly` | algorithms/linfa-nn/src/emd.rs:19-53 | Under that condition, the scan of bin `i` equals the scan that tries right partners only, and afterwards the condition holds for the bins through `i`. |
| `EmdProperties.PassIsRightOnly` | algorithms/linfa-nn/src/emd.rs:17-55 | Under that condition, the `i` loop equals the loop whose scans try right partners only. |
| `EmdProperties.LeftBranchDead` | algorithms/linfa-nn/src/emd.rs:13-57 | For every pair of equal-length inputs, the run (array and cost) equals the right-only run: the left-partner branch never cancels anything. |
| `EmdTests.Case0` | algorithms/linfa-nn/src/emd.rs:65-71 | `[0.1, 0.3, 0, 0, 0.6]` against `[0.1, 0.7, 0, 0.2, 0]` costs exactly 1.4. |
| `EmdTests.Case1` | algorithms/linfa-nn/src/emd.rs:73-79 | `[0, 0.8, 0, 0, 0, 0.1, 0.1]` against `[0.1, 0.1, 0, 0.7, 0, 0, 0.1]` costs exactly 1.5. |
| `EmdTests.Case2` | algorithms/linfa-nn/src/emd.rs:81-87 | `[2, 1, 0, 0, 3, 0, 4]` against `[0, 5, 3, 0, 2, 0, 0]` costs 22. |
| `EmdTests.Case3` | algorithms/linfa-nn/src/emd.rs:89-95 | `[2, 1, 0, 0, 3, 0, 0]` against `[0, 2, 1, 0, 3, 0, 0]` costs 3. |
| `EmdTests.Case4` | algorithms/linfa-nn/src/emd.rs:97-103 | `[2, 1, 0, 0, 3, 0, 0]` against `[0, 2, 1, 0, 0, 3, 0]` costs 6. |
| `EmdTests.Case5` | algorithms/linfa-nn/src/emd.rs:105-111 | `[2, 1, 0, 0, 3, 0, 0]` against `[0, 0, 2, 1, 0, 0, 3]` costs 12. |
| `EmdTests.Case6` | algorithms/linfa-nn/src/emd.rs:113-119 | `[0.2, 0.1, 0, 0, 0.3, 0, 0]` against `[0, 0.2, 0.1, 0, 0, 0.3, 0]` costs exactly 0.6, which meets the source's tolerance check. |
| `EmdTests.UnequalMassResidual` | algorithms/linfa-nn/src/emd.rs:17-55 | With unequal total mass, `[1, 0, 0]` against `[0, 2, 0]` costs 1 and leaves the surplus `[0, 1, 0]` in the difference array. |

## Left out

- IEEE floating point: rounding in the product sign test, in the exact `!= 0` test and in the cost sums is not modelled; all arithmetic is exact over `real`.
- The tolerance comparison of `case_6` (`result - 0.6 < 10e-10`) is replaced by the exact result 0.6, which satisfies it.
- The `ndarray` machinery: the `Dimension` generics, the `into_shape(...).unwrap()` flattening (`emd.rs:15`) and `Zip`. Inputs are flat sequences. Equal length is a precondition of `Subtract`, `Greedy` and `Emd`; the source has no error value for a mismatch, because `Zip` panics.
- `F::from(j).unwrap()`: the conversion of the distance `j` into the numeric type is taken to be exact and never to fail.
- The distance adapter `linfa_nn::distance::EMD`, used by the clustering benchmark, is not part of this model.
- The k-means example: model fitting, random number generation, `.npy` output and printing are left out as external libraries and I/O.
- The Criterion benchmark, its random data and its timing are left out.
- Concurrency and thread-safety are not modelled: the model is sequential, and the algorithm has no shared state.
- Optimality and symmetry: no claim is made that the greedy cost equals the optimal one-dimensional EMD or is symmetric in its arguments, as the code promises neither.
- Homogeneity under positive scaling, `cost(s * a, s * b) == s * cost(a, b)`, is not proved; the code neither states nor tests it.
