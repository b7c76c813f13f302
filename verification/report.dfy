/**
 The computations in `main` of day_1/src/main.rs: the per-module fuel of
 part one and part two, their totals over the list of masses, and the
 self-check of both against the four worked examples of the puzzle text.
 Reading the input file and printing the report are not modelled; the
 masses arrive as a sequence and the report is the data it would print.
 */
module Report {
  import opened Fuel
  import opened Sums

  /** Part one counts the fuel for each module; part two also counts the fuel
      for that fuel. */
  datatype FuelMode = NonRecursive | Recursive

  /** The fuel `main` computes for one module in the given part:
      `calculate_fuel(m)`, or `calculate_fuel_recursive(calculate_fuel(m))`.
      In either part the fuel is negative exactly for the masses up to five,
      and part two never counts less than the module's first increment. */
  function ModuleFuel(mode: FuelMode, mass: int): (fuel: int)
    ensures fuel < 0 <==> mass <= 5
    ensures fuel >= CalculateFuel(mass)
  {
    BaseCaseExactlyUpToFive(CalculateFuel(mass));
    RecursiveAtLeastArgument(CalculateFuel(mass));
    match mode
    case NonRecursive => CalculateFuel(mass)
    case Recursive => CalculateFuelRecursive(CalculateFuel(mass))
  }

  /** Part one counts the first entry of a module's fuel chain, part two counts
      the whole chain. */
  lemma ModuleFuelCountsChain(mode: FuelMode, mass: int)
    ensures mode == NonRecursive ==> ModuleFuel(mode, mass) == FuelChain(CalculateFuel(mass))[0]
    ensures mode == Recursive ==> ModuleFuel(mode, mass) == Sum(FuelChain(CalculateFuel(mass)))
  {
    ChainSumsToRecursive(CalculateFuel(mass));
  }

  /** `fuel_per_mass` and `fuel_per_mass_recursive`: the fuel of each module, in
      the order of the masses. */
  function FuelPerMass(masses: seq<int>, mode: FuelMode): (fuels: seq<int>)
    ensures |fuels| == |masses|
    ensures forall i :: 0 <= i < |masses| ==> fuels[i] == ModuleFuel(mode, masses[i])
  {
    if |masses| == 0 then []
    else [ModuleFuel(mode, masses[0])] + FuelPerMass(masses[1..], mode)
  }

  /** `fuel_total` and `fuel_total_recursive`: the sum of the per-module fuels.
      When every module is heavier than five, no fuel is negative, so neither is
      the total. */
  function FuelTotal(masses: seq<int>, mode: FuelMode): (total: int)
    ensures (forall i :: 0 <= i < |masses| ==> masses[i] > 5) ==> total >= 0
  {
    var fuels := FuelPerMass(masses, mode);
    assert (forall i :: 0 <= i < |masses| ==> masses[i] > 5) ==>
             forall i :: 0 <= i < |fuels| ==> fuels[i] >= 0;
    Sum(fuels)
  }

  /** The total is the running total of `iter().sum()`: zero for no modules, and
      each further module adds its own fuel to the total of the modules before
      it. */
  lemma FuelTotalRunning(masses: seq<int>, mode: FuelMode)
    ensures |masses| == 0 ==> FuelTotal(masses, mode) == 0
    ensures |masses| > 0 ==>
      FuelTotal(masses, mode)
        == FuelTotal(masses[..|masses| - 1], mode) + ModuleFuel(mode, masses[|masses| - 1])
  {
    if |masses| > 0 {
      var n := |masses| - 1;
      assert masses == masses[..n] + [masses[n]];
      FuelTotalConcat(masses[..n], [masses[n]], mode);
      assert Sum([ModuleFuel(mode, masses[n])]) == ModuleFuel(mode, masses[n]) by {
        SumFromFront([ModuleFuel(mode, masses[n])]);
      }
    }
  }

  /** The per-module fuels of two lists joined together are the two lists of
      fuels joined together. */
  lemma {:induction false} FuelPerMassConcat(a: seq<int>, b: seq<int>, mode: FuelMode)
    ensures FuelPerMass(a + b, mode) == FuelPerMass(a, mode) + FuelPerMass(b, mode)
    decreases |a|
  {
    if |a| == 0 {
      assert a + b == b;
    } else {
      assert (a + b)[1..] == a[1..] + b;
      FuelPerMassConcat(a[1..], b, mode);
    }
  }

  /** Totals over two lists of modules add up. */
  lemma FuelTotalConcat(a: seq<int>, b: seq<int>, mode: FuelMode)
    ensures FuelTotal(a + b, mode) == FuelTotal(a, mode) + FuelTotal(b, mode)
  {
    FuelPerMassConcat(a, b, mode);
    SumConcat(FuelPerMass(a, mode), FuelPerMass(b, mode));
  }

  /** The order of the masses in the input file does not change either total. */
  lemma {:induction false} FuelTotalPermutation(a: seq<int>, b: seq<int>, mode: FuelMode)
    requires multiset(a) == multiset(b)
    ensures FuelTotal(a, mode) == FuelTotal(b, mode)
    decreases |a|
  {
    if |a| == 0 {
      assert |b| == |multiset(b)| == 0;
    } else {
      var n := |a| - 1;
      var x := a[n];
      assert a == a[..n] + [x];
      assert x in multiset(b);
      var j :| 0 <= j < |b| && b[j] == x;
      var rest := b[..j] + b[j + 1..];
      assert b == b[..j] + [x] + b[j + 1..];
      assert multiset(a[..n]) == multiset(rest) by {
        assert multiset(a) == multiset(a[..n]) + multiset{x};
        assert multiset(b) == multiset(b[..j]) + multiset{x} + multiset(b[j + 1..]);
        assert multiset(rest) == multiset(b[..j]) + multiset(b[j + 1..]);
        assert multiset(a[..n]) == multiset(a) - multiset{x};
        assert multiset(rest) == multiset(b) - multiset{x};
      }
      FuelTotalPermutation(a[..n], rest, mode);
      FuelTotalConcat(a[..n], [x], mode);
      FuelTotalConcat(b[..j] + [x], b[j + 1..], mode);
      FuelTotalConcat(b[..j], [x], mode);
      FuelTotalConcat(b[..j], b[j + 1..], mode);
    }
  }

  /** One module needs at least as much fuel in part two as in part one, and
      exactly as much when its mass is at most 32, whose fuel (at most 8) needs
      no positive fuel of its own. */
  lemma ModuleFuelRecursiveAtLeastNonRecursive(mass: int)
    ensures ModuleFuel(Recursive, mass) >= ModuleFuel(NonRecursive, mass)
    ensures ModuleFuel(Recursive, mass) == ModuleFuel(NonRecursive, mass) <==> mass <= 32
  {
    var fuel := CalculateFuel(mass);
    RecursiveAtLeastArgument(fuel);
    RecursiveAddsNothingIffAtMostEight(fuel);
  }

  /** A module of mass 0 to 5 gets negative fuel in part two as in part one:
      its first increment is already negative, and `calculate_fuel_recursive`
      returns it without clamping it to zero. */
  lemma SmallModulePartTwoFuelUnclamped(mass: int)
    requires 0 <= mass <= 5
    ensures ModuleFuel(Recursive, mass) == CalculateFuel(mass) == (if mass < 3 then -2 else -1)
  {
  }

  /** The part-two total is never below the part-one total, and they coincide
      exactly when no module is heavier than 32. */
  lemma PartTwoTotalAtLeastPartOne(masses: seq<int>)
    ensures FuelTotal(masses, Recursive) >= FuelTotal(masses, NonRecursive)
    ensures FuelTotal(masses, Recursive) == FuelTotal(masses, NonRecursive)
            <==> forall i :: 0 <= i < |masses| ==> masses[i] <= 32
  {
    var one := FuelPerMass(masses, NonRecursive);
    var two := FuelPerMass(masses, Recursive);
    forall i | 0 <= i < |masses|
      ensures one[i] <= two[i] && (one[i] == two[i] <==> masses[i] <= 32)
    {
      ModuleFuelRecursiveAtLeastNonRecursive(masses[i]);
    }
    SumPointwise(one, two);
  }

  // ---------------------------------------------------------------------------
  // The self-check against the worked examples
  // ---------------------------------------------------------------------------

  /** The example masses and their expected fuel, in part one and part two. */
  const TestCaseInputs: seq<int> := [12, 14, 1969, 100756]
  const TestCaseResults: seq<int> := [2, 2, 654, 33583]
  const TestCaseResultsRecursive: seq<int> := [2, 2, 966, 50346]

  function ExpectedResults(mode: FuelMode): seq<int> {
    match mode
    case NonRecursive => TestCaseResults
    case Recursive => TestCaseResultsRecursive
  }

  /** One line of the self-check report: the mass, the expected fuel, the fuel
      computed, and whether they agree. */
  datatype CheckRow = CheckRow(input: int, expected: int, actual: int, pass: bool)

  /** The self-check loop of one part: inputs and expected results are paired
      up as `zip` does, stopping at the shorter list, and a row passes when the
      difference of computed and expected fuel is zero. */
  function SelfCheck(mode: FuelMode, inputs: seq<int>, expected: seq<int>): (rows: seq<CheckRow>)
    ensures |rows| == if |inputs| <= |expected| then |inputs| else |expected|
    ensures forall i :: 0 <= i < |rows| ==>
      && rows[i].input == inputs[i]
      && rows[i].expected == expected[i]
      && rows[i].actual == ModuleFuel(mode, inputs[i])
      && (rows[i].pass <==> ModuleFuel(mode, inputs[i]) == expected[i])
  {
    if |inputs| == 0 || |expected| == 0 then []
    else
      var actual := ModuleFuel(mode, inputs[0]);
      [CheckRow(inputs[0], expected[0], actual, actual - expected[0] == 0)]
        + SelfCheck(mode, inputs[1..], expected[1..])
  }

  /** The four worked examples of part one agree with the code. */
  lemma WorkedExamplesPartOne()
    ensures FuelPerMass(TestCaseInputs, NonRecursive) == TestCaseResults
  {
    var one := FuelPerMass(TestCaseInputs, NonRecursive);
    assert one[0] == CalculateFuel(12) == 2;
    assert one[1] == CalculateFuel(14) == 2;
    assert one[2] == CalculateFuel(1969) == 654;
    assert one[3] == CalculateFuel(100756) == 33583;
  }

  /** The per-module fuel of a four-module list, for the worked examples. */
  lemma FuelPerMassOfFour(mode: FuelMode, a: int, b: int, c: int, d: int)
    ensures FuelPerMass([a, b, c, d], mode)
            == [ModuleFuel(mode, a), ModuleFuel(mode, b), ModuleFuel(mode, c), ModuleFuel(mode, d)]
  {
  }

  /** Part-two fuel of one module from its first increment and the
      recursion's total on it, for the worked examples. */
  lemma PartTwoFromIncrement(mass: int, fuel: int, total: int)
    requires CalculateFuel(mass) == fuel && CalculateFuelRecursive(fuel) == total
    ensures ModuleFuel(Recursive, mass) == total
  {
  }

  /** The four worked examples of part two agree with the code. */
  lemma WorkedExamplesPartTwo()
    ensures FuelPerMass(TestCaseInputs, Recursive) == TestCaseResultsRecursive
  {
    assert CalculateFuel(12) == 2 && CalculateFuel(14) == 2 && CalculateFuelRecursive(2) == 2;
    assert CalculateFuel(1969) == 654 && CalculateFuel(100756) == 33583;
    ChainOf654();
    ChainOf33583();
    PartTwoFromIncrement(12, 2, 2);
    PartTwoFromIncrement(14, 2, 2);
    PartTwoFromIncrement(1969, 654, 966);
    PartTwoFromIncrement(100756, 33583, 50346);
    FuelPerMassOfFour(Recursive, 12, 14, 1969, 100756);
  }

  /** Every line of both self-check reports says PASS. */
  lemma SelfCheckPasses(mode: FuelMode)
    ensures |SelfCheck(mode, TestCaseInputs, ExpectedResults(mode))| == 4
    ensures forall row :: row in SelfCheck(mode, TestCaseInputs, ExpectedResults(mode)) ==> row.pass
  {
    WorkedExamplesPartOne();
    WorkedExamplesPartTwo();
    var rows := SelfCheck(mode, TestCaseInputs, ExpectedResults(mode));
    forall row | row in rows
      ensures row.pass
    {
      var i :| 0 <= i < |rows| && rows[i] == row;
      assert FuelPerMass(TestCaseInputs, mode)[i] == ExpectedResults(mode)[i];
    }
  }

  /** With the four example masses as the input file, part one totals 34241
      and part two 51316. */
  lemma ExampleTotals()
    ensures FuelTotal(TestCaseInputs, NonRecursive) == 34241
    ensures FuelTotal(TestCaseInputs, Recursive) == 51316
  {
    WorkedExamplesPartOne();
    WorkedExamplesPartTwo();
    SumOfFour(2, 2, 654, 33583);
    SumOfFour(2, 2, 966, 50346);
  }
}
