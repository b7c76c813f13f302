/**
 The fuel formula of the rocket equation and its fuel-for-fuel recursion
 (day_1/src/main.rs, `calculate_fuel` and `calculate_fuel_recursive`).

 Both functions work on unbounded integers; the lemmas at the end of the
 module say when the values they compute fit in Rust's `i32`.
 */
module Fuel {
  import opened RustInt
  import opened Sums

  /** `calculate_fuel`: the mass divided by three, rounded toward zero, minus two.
      For a non-negative mass this is the documented "divide by three, round
      down, subtract two"; for a negative mass the quotient is rounded up. */
  function CalculateFuel(mass: int): (fuel: int)
    ensures mass >= 0 ==> 3 * (fuel + 2) <= mass < 3 * (fuel + 3)
    ensures mass < 0 ==> 3 * (fuel + 1) < mass <= 3 * (fuel + 2)
  {
    TruncDiv(mass, 3) - 2
  }

  /** `calculate_fuel_recursive`: the given fuel plus the fuel it needs, plus the
      fuel that fuel needs, and so on; the recursion stops at the first negative
      increment, which is dropped. A zero increment is still added, and a
      negative argument is returned as it is, not clamped to zero. */
  function CalculateFuelRecursive(fuelMass: int): (total: int)
    ensures fuelMass < 0 ==> total == fuelMass
    ensures fuelMass >= 0 ==> fuelMass <= total && 2 * total <= 3 * fuelMass
    decreases fuelMass
  {
    var next := CalculateFuel(fuelMass);
    if next < 0 then fuelMass else fuelMass + CalculateFuelRecursive(next)
  }

  /** The increments `calculate_fuel_recursive` adds up, in order: the argument
      itself, then each further application of `calculate_fuel` while it is
      not negative. */
  function FuelChain(fuelMass: int): (chain: seq<int>)
    ensures |chain| >= 1 && chain[0] == fuelMass
    ensures IsFuelChain(chain)
    decreases fuelMass
  {
    var next := CalculateFuel(fuelMass);
    if next < 0 then [fuelMass] else [fuelMass] + FuelChain(next)
  }

  /** Each entry after the first is the fuel for the one before and is not
      negative, and the fuel for the last entry is negative. */
  predicate IsFuelChain(chain: seq<int>) {
    && |chain| >= 1
    && (forall i :: 1 <= i < |chain| ==> chain[i] == CalculateFuel(chain[i - 1]) && chain[i] >= 0)
    && CalculateFuel(chain[|chain| - 1]) < 0
  }

  /** For a non-negative mass the truncating formula is the documented
      `floor(mass / 3) - 2` (Dafny's `/` rounds down on non-negative operands). */
  lemma CalculateFuelIsFloorFormula(mass: int)
    requires mass >= 0
    ensures CalculateFuel(mass) == mass / 3 - 2
  {
  }

  /** For a negative mass that is not a multiple of three the code's result is
      one more than the floor formula: the code rounds toward zero. */
  lemma CalculateFuelNegativeRoundsTowardZero(mass: int)
    requires mass < 0 && mass % 3 != 0
    ensures CalculateFuel(mass) == mass / 3 - 1
  {
    TruncDivAgreesWithEuclidean(mass, 3);
  }

  /** Why the recursion stops: on a non-negative argument the next increment is
      strictly smaller, and on a negative argument it is negative, so the
      recursion ends at once. */
  lemma CalculateFuelDecreases(f: int)
    ensures f >= 0 ==> CalculateFuel(f) < f
    ensures f < 0 ==> CalculateFuel(f) < 0
  {
  }

  /** The base case is taken exactly for the arguments up to five, every
      negative argument included. */
  lemma BaseCaseExactlyUpToFive(f: int)
    ensures CalculateFuel(f) < 0 <==> f <= 5
    ensures f <= 5 ==> CalculateFuelRecursive(f) == f
  {
  }

  /** A zero increment is added, not treated as the stopping point: for 6, 7 and
      8 the increment is 0, the recursion runs once more on 0, and 0 is added. */
  lemma ZeroIncrementIsAdded(f: int)
    requires 6 <= f <= 8
    ensures CalculateFuel(f) == 0
    ensures FuelChain(f) == [f, 0]
    ensures CalculateFuelRecursive(f) == f
  {
  }

  /** The recursion adds nothing beyond its argument exactly when the argument is
      at most eight; from nine on the first increment is positive. */
  lemma RecursiveAddsNothingIffAtMostEight(f: int)
    ensures CalculateFuelRecursive(f) == f <==> f <= 8
  {
    if f > 8 {
      var next := CalculateFuel(f);
      assert next >= 1;
      assert CalculateFuelRecursive(next) >= next;
    }
  }

  /** The recursion never returns less than its argument. */
  lemma RecursiveAtLeastArgument(f: int)
    ensures CalculateFuelRecursive(f) >= f
  {
  }

  /** The chain is the independent account of the recursion: the recursion
      returns the sum of the chain's entries. */
  lemma {:induction false} ChainSumsToRecursive(f: int)
    ensures Sum(FuelChain(f)) == CalculateFuelRecursive(f)
    decreases if f < 0 then 0 else f
  {
    var next := CalculateFuel(f);
    if next >= 0 {
      ChainSumsToRecursive(next);
      assert FuelChain(f) == [f] + FuelChain(next);
      SumConcat([f], FuelChain(next));
      assert [f][..0] == [];
    }
  }

  /** `IsFuelChain` is a complete description: the only chain that starts at
      `f` is the one the recursion visits. */
  lemma {:induction false} FuelChainUnique(f: int, chain: seq<int>)
    requires IsFuelChain(chain) && chain[0] == f
    ensures chain == FuelChain(f)
    decreases |chain|
  {
    if |chain| > 1 {
      var rest := chain[1..];
      assert IsFuelChain(rest) by {
        forall i | 1 <= i < |rest|
          ensures rest[i] == CalculateFuel(rest[i - 1]) && rest[i] >= 0
        {
          assert rest[i] == chain[i + 1] && rest[i - 1] == chain[i];
        }
      }
      FuelChainUnique(chain[1], rest);
      assert chain == [f] + rest;
    }
  }

  /** One level of the recursion, for the worked examples below. */
  lemma Unfold(f: int, next: int)
    requires CalculateFuel(f) == next >= 0
    ensures FuelChain(f) == [f] + FuelChain(next)
    ensures CalculateFuelRecursive(f) == f + CalculateFuelRecursive(next)
  {
  }

  /** The worked example of the puzzle text: the fuel for mass 1969 is 654, and
      654 needs 216, then 70, 21 and 5, for 966 in all. */
  lemma ChainOf654()
    ensures FuelChain(654) == [654, 216, 70, 21, 5]
    ensures CalculateFuelRecursive(654) == 966
  {
    assert FuelChain(5) == [5] && CalculateFuelRecursive(5) == 5;
    Unfold(21, 5);
    Unfold(70, 21);
    Unfold(216, 70);
    Unfold(654, 216);
  }

  /** The second worked example: 33583 needs 11192, 3728, 1240, 411, 135, 43, 12
      and 2 more, for 50346 in all. */
  lemma ChainOf33583()
    ensures FuelChain(33583) == [33583, 11192, 3728, 1240, 411, 135, 43, 12, 2]
    ensures CalculateFuelRecursive(33583) == 50346
  {
    assert FuelChain(2) == [2] && CalculateFuelRecursive(2) == 2;
    Unfold(12, 2);
    Unfold(43, 12);
    Unfold(135, 43);
    Unfold(411, 135);
    Unfold(1240, 411);
    Unfold(3728, 1240);
    Unfold(11192, 3728);
    Unfold(33583, 11192);
  }

  /** The fuel-for-fuel recursion as a loop: each pass adds the current
      increment and computes the next one, until it is negative. */
  method CalculateFuelIterative(fuelMass: int) returns (total: int)
    ensures total == CalculateFuelRecursive(fuelMass)
  {
    total := fuelMass;
    var next := CalculateFuel(fuelMass);
    while next >= 0
      invariant total + (if next >= 0 then CalculateFuelRecursive(next) else 0)
                == CalculateFuelRecursive(fuelMass)
      decreases next
    {
      total := total + next;
      next := CalculateFuel(next);
    }
  }

  // ---------------------------------------------------------------------------
  // The i32 range
  // ---------------------------------------------------------------------------

  /** `calculate_fuel` on an `i32` cannot overflow: the quotient lies within a
      third of the range and two less than it is still an `i32`. */
  lemma CalculateFuelStaysInI32(mass: int)
    requires InI32(mass)
    ensures InI32(TruncDiv(mass, 3)) && InI32(CalculateFuel(mass))
    ensures -715827884 <= CalculateFuel(mass) <= 715827880
  {
  }

  /** Every value `calculate_fuel_recursive` computes on its way, at every level
      of the recursion, is an `i32`: the argument, the next increment, and the
      sum it returns. */
  ghost predicate RecursionFitsI32(fuelMass: int)
    decreases if fuelMass < 0 then 0 else fuelMass
  {
    var next := CalculateFuel(fuelMass);
    && InI32(fuelMass)
    && InI32(next)
    && (next >= 0 ==>
          && InI32(fuelMass + CalculateFuelRecursive(next))
          && RecursionFitsI32(next))
  }

  /** The recursion stays within `i32` on every argument up to two thirds of the
      largest `i32`, because the total is at most one and a half times the
      argument. */
  lemma {:induction false} RecursionFitsI32BelowTwoThirds(fuelMass: int)
    requires I32Min <= fuelMass && 3 * fuelMass <= 2 * I32Max
    ensures RecursionFitsI32(fuelMass)
    decreases if fuelMass < 0 then 0 else fuelMass
  {
    CalculateFuelStaysInI32(fuelMass);
    var next := CalculateFuel(fuelMass);
    if next >= 0 {
      RecursionFitsI32BelowTwoThirds(next);
    }
  }

  /** The per-module computation of part two, `calculate_fuel_recursive(calculate_fuel(m))`,
      never overflows for an `i32` mass. */
  lemma PartTwoModuleFitsI32(mass: int)
    requires InI32(mass)
    ensures RecursionFitsI32(CalculateFuel(mass))
    ensures InI32(CalculateFuelRecursive(CalculateFuel(mass)))
  {
    CalculateFuelStaysInI32(mass);
    RecursionFitsI32BelowTwoThirds(CalculateFuel(mass));
  }

  /** An `i32` argument whose first increment already takes it past the largest
      `i32` overflows on the outermost addition only: every inner level of the
      recursion fits, because the increment is at most a third of the range. */
  lemma OnlyOutermostAdditionOverflows(fuelMass: int)
    requires InI32(fuelMass)
    requires fuelMass + CalculateFuel(fuelMass) > I32Max
    ensures RecursionFitsI32(CalculateFuel(fuelMass))
    ensures !InI32(fuelMass + CalculateFuelRecursive(CalculateFuel(fuelMass)))
    ensures !RecursionFitsI32(fuelMass)
  {
    PartTwoModuleFitsI32(fuelMass);
    RecursiveAtLeastArgument(CalculateFuel(fuelMass));
  }

  /** Called directly on the largest `i32`, the recursion would overflow. Every
      inner level fits, but the outermost addition, which Rust evaluates last,
      exceeds the range. */
  lemma RecursionOverflowsOnLargestI32()
    ensures RecursionFitsI32(CalculateFuel(I32Max))
    ensures !InI32(I32Max + CalculateFuelRecursive(CalculateFuel(I32Max)))
    ensures !RecursionFitsI32(I32Max)
  {
    assert CalculateFuel(I32Max) == 715827880;
    OnlyOutermostAdditionOverflows(I32Max);
  }
}
