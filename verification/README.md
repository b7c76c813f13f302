# Rocket-equation fuel counter (Advent of Code 2019, day 1) in Dafny

This project models the fuel arithmetic of `day_1/src/main.rs`. Each module
of the spacecraft has a mass. Its fuel is the mass divided by three, rounded
toward zero, minus two (`calculate_fuel`). In part two the fuel itself needs fuel, and that
fuel needs fuel, until the next increment would be negative
(`calculate_fuel_recursive`). `main` sums the per-module fuel over the list of
masses for each part. It also checks both functions against the four worked
examples of the puzzle text (masses 12, 14, 1969 and 100756).

Files and modules:

- `rust_int.dfy` (`RustInt`): Rust's `i32` range and its `/`. Rust's `/`
  rounds toward zero. Dafny's `/` on `int` is Euclidean.
- `sums.dfy` (`Sums`): the left-to-right sum of a sequence, as Rust's
  `iter().sum()` computes it, and its algebra.
- `fuel.dfy` (`Fuel`): `CalculateFuel`, `CalculateFuelRecursive`, the chain of
  increments the recursion adds up, a loop form of the recursion, and the
  `i32` overflow analysis.
- `report.dfy` (`Report`): the two parts as a `FuelMode`, the per-module fuel
  lists and their totals, and the self-check report rows.

All arithmetic is on unbounded `int`. The `i32` range is a predicate,
`RustInt.InI32`. Lemmas say which computations stay inside it.

Where the documentation and the code differ, the model follows the code:

- The comments say "divide by three, round down" (main.rs:10-11 and 111). The
  code uses `i32` division, which rounds toward zero. The two agree for every
  non-negative mass and differ for negative masses that are not multiples of
  three. For example, `calculate_fuel(-1)` is `-2`, while rounding down would give `-3`.
- `calculate_fuel_recursive` returns a negative argument unchanged. It does not
  clamp it to zero. `main` reaches this case for every mass from 0 to 5: their
  first increment `calculate_fuel(m)` is -2 or -1, and that negative value is
  the module's part-two fuel (-1 for mass 3). The puzzle text says a mass that
  would need negative fuel is treated as needing none (main.rs:31-32). Part
  one counts the same negative values.
- `calculate_fuel_recursive` called directly on `i32::MAX` would overflow on its
  outermost addition, the one Rust evaluates last; every inner level fits (`Fuel.RecursionOverflowsOnLargestI32`). `main` only calls it
  on the output of `calculate_fuel`, which is at most 715827880. On that
  path, every value the recursion computes fits in `i32`
  (`Fuel.PartTwoModuleFitsI32`).

## Model

| member | source | states |
|---|---|---|
| RustInt.TruncDiv | day_1/src/main.rs:97-97 | Rust's `/` by a positive divisor: the quotient rounded toward zero. For a non-negative dividend it is the largest `q` with `d*q <= a`. For a negative one it is the smallest `q` with `a <= d*q`. |
| RustInt.TruncDivAgreesWithEuclidean | day_1/src/main.rs:97-97 | Rust's truncating quotient equals Dafny's Euclidean quotient exactly when the dividend is non-negative or a multiple of the divisor. |
| Fuel.CalculateFuel | day_1/src/main.rs:96-98 | For a mass `m >= 0` the fuel `f` satisfies `3(f+2) <= m < 3(f+3)`, which is floor division. For `m < 0` it satisfies `3(f+1) < m <= 3(f+2)`, which rounds toward zero. |
| Fuel.CalculateFuelIsFloorFormula | day_1/src/main.rs:111-111 | For every non-negative mass the code gives the documented `floor(mass / 3) - 2`. |
| Fuel.CalculateFuelNegativeRoundsTowardZero | day_1/src/main.rs:96-98 | For a negative mass that is not a multiple of three, the code's fuel is one more than the floor formula. |
| Fuel.CalculateFuelDecreases | day_1/src/main.rs:100-104 | The recursion terminates. On a non-negative argument the next increment is strictly smaller. On a negative argument the next increment is negative. |
| Fuel.CalculateFuelRecursive | day_1/src/main.rs:100-104 | A negative argument comes back unchanged, not clamped. A non-negative argument `f` gives a total between `f` and `3f/2`. |
| Fuel.BaseCaseExactlyUpToFive | day_1/src/main.rs:101-102 | The base case (next increment negative) applies exactly to the arguments `<= 5`, every negative one included. There the result is the argument itself. |
| Fuel.ZeroIncrementIsAdded | day_1/src/main.rs:102-103 | For 6, 7 and 8 the increment is 0. That increment is still added, the recursion runs once more on 0, and the result is the argument. |
| Fuel.RecursiveAddsNothingIffAtMostEight | day_1/src/main.rs:100-104 | The recursion returns exactly its argument if and only if the argument is at most 8. |
| Fuel.RecursiveAtLeastArgument | day_1/src/main.rs:100-104 | The recursion never returns less than its argument, because every added increment is non-negative. |
| Fuel.FuelChain | day_1/src/main.rs:100-104 | The increments the recursion visits, in order. The chain starts at the argument, and each later entry is the non-negative fuel for the entry before it. The fuel for the last entry is negative. |
| Fuel.FuelChainUnique | day_1/src/main.rs:100-104 | Any sequence that starts at `f` and has the chain property is exactly the chain the recursion visits from `f`, so the declarative description fixes the increments. |
| Fuel.ChainSumsToRecursive | day_1/src/main.rs:100-104 | The recursion's result is the sum of its chain of increments. |
| Fuel.ChainOf654 | day_1/src/main.rs:41-43 | The fuel 654 for mass 1969 needs 216, 70, 21 and 5 more, giving 966. |
| Fuel.ChainOf33583 | day_1/src/main.rs:44-45 | The fuel 33583 for mass 100756 needs 11192, 3728, 1240, 411, 135, 43, 12 and 2 more, giving 50346. |
| Fuel.CalculateFuelIterative | day_1/src/main.rs:100-104 | A loop that adds increments until the next one is negative returns the same total as the recursion, on every argument. |
| Fuel.CalculateFuelStaysInI32 | day_1/src/main.rs:96-98 | `calculate_fuel` on an `i32` cannot overflow. Its result lies between -715827884 and 715827880. |
| Fuel.RecursionFitsI32BelowTwoThirds | day_1/src/main.rs:100-104 | From `i32::MIN` up to two thirds of `i32::MAX`, every argument, increment and partial sum the recursion computes is an `i32`. |
| Fuel.PartTwoModuleFitsI32 | day_1/src/main.rs:142-142 | `calculate_fuel_recursive(calculate_fuel(m))` does not overflow for any `i32` mass. |
| Fuel.OnlyOutermostAdditionOverflows | day_1/src/main.rs:100-104 | For any `i32` argument whose first increment already takes it past `i32::MAX`, every inner level of the recursion stays in `i32` and only the outermost addition overflows. |
| Fuel.RecursionOverflowsOnLargestI32 | day_1/src/main.rs:100-104 | Called directly on `i32::MAX`, every inner level of the recursion (from `calculate_fuel(i32::MAX)` on) stays in `i32`, but the outermost addition, which is evaluated last, leaves the `i32` range. |
| Sums.Sum | day_1/src/main.rs:133-133 | The total of `iter().sum()`: it starts at zero and adds the entries from the left. If every entry is non-negative, the total is at least each entry. |
| Sums.SumFromFront | day_1/src/main.rs:133-133 | Adding from the front gives the same total as adding from the back. |
| Sums.SumConcat | day_1/src/main.rs:133-133 | The sum of two sequences joined together is the sum of their sums. |
| Sums.SumPointwise | day_1/src/main.rs:150-150 | If one sequence is entrywise at most another of the same length, its sum is at most the other's. The sums are equal exactly when every entry is equal. |
| Report.ModuleFuel | day_1/src/main.rs:142-142 | The per-module fuel of either part. It is negative exactly for masses up to 5, and part two never counts less than the first increment `calculate_fuel(m)`. |
| Report.ModuleFuelCountsChain | day_1/src/main.rs:149-149 | Part one counts the first entry of the module's fuel chain. Part two counts the sum of the whole chain. |
| Report.SmallModulePartTwoFuelUnclamped | day_1/src/main.rs:142-142 | For masses 0 to 5, part two's fuel is the negative first increment, unclamped: -2 for masses 0 to 2 and -1 for masses 3 to 5. |
| Report.FuelPerMass | day_1/src/main.rs:132-132 | The per-module fuel list has one entry per mass, in the same order. Each entry is that mass's fuel in the chosen part. |
| Report.FuelTotal | day_1/src/main.rs:150-150 | The sum of the per-module fuels. It is non-negative whenever every mass exceeds 5. |
| Report.FuelTotalRunning | day_1/src/main.rs:133-133 | The total is the running total of the modules in input order. It is 0 for no modules, and each further module adds its own fuel to the total of the ones before it. |
| Report.FuelPerMassConcat | day_1/src/main.rs:132-132 | The fuel list of two mass lists joined together is their two fuel lists joined together. |
| Report.FuelTotalConcat | day_1/src/main.rs:133-133 | The total over two lists of masses joined together is the sum of their separate totals. |
| Report.FuelTotalPermutation | day_1/src/main.rs:132-133 | Reordering the masses changes neither total. |
| Report.ModuleFuelRecursiveAtLeastNonRecursive | day_1/src/main.rs:149-149 | A module's part-two fuel is at least its part-one fuel. The two are equal exactly when its mass is at most 32. |
| Report.PartTwoTotalAtLeastPartOne | day_1/src/main.rs:132-150 | The part-two total is at least the part-one total. They are equal exactly when no mass exceeds 32. |
| Report.SelfCheck | day_1/src/main.rs:123-146 | The self-check pairs inputs with expected results as `zip` does, stopping at the shorter list. Each row records the computed fuel and passes exactly when it equals the expected value. |
| Report.WorkedExamplesPartOne | day_1/src/main.rs:119-120 | Masses 12, 14, 1969 and 100756 need 2, 2, 654 and 33583 fuel. |
| Report.WorkedExamplesPartTwo | day_1/src/main.rs:138-142 | With fuel for fuel counted, the same masses need 2, 2, 966 and 50346. |
| Report.SelfCheckPasses | day_1/src/main.rs:140-146 | Both self-check reports have four rows, and every row passes. |
| Report.ExampleTotals | day_1/src/main.rs:149-150 | With the four example masses as input, part one totals 34241 and part two totals 51316. |

## Left out

- File loading and line splitting (`lines_from_file`, `parse_inputs`) and their panics on a missing file or an unreadable line. This is I/O, so the masses enter the model as a sequence.
- `strings_to_ints`: it only wraps the standard library's `str::parse::<i32>` followed by `unwrap`. That code is not part of this model. Parse failure is a panic in the source.
- The PASS/FAIL printing and report formatting in `main`. `Report.SelfCheck` keeps the data each printed line carries, but no text is produced.
- `day_1/script.rs`: it duplicates part one through `f64` division and `floor`. Floating point is not modelled, and the integer version in main.rs covers the same results for non-negative masses.
- Overflow of the two totals: they are sums over unbounded `int`. The `i32` overflow of `iter().sum()` in `main` panics in debug builds and wraps in release builds, which depends on the build and is not modelled.
- The i32 subtraction `calc - result` in the self-check is modelled on unbounded `int`. It cannot overflow for the values involved.
