/** The driver's scenario, evaluated in exact arithmetic: alleles A (0.954)
    and a (0.046) in a population of 1612, observed genotype counts
    1469, 138 and 5, tested at one degree of freedom and p = 0.05. */
module WorkedExample {
  import opened Wrappers
  import opened FrequencyExpansion
  import opened ChiSquared

  /** A critical-value table in the layout the lookup expects: the header row
      holds the quantiles 1 - p after a leading label column, and row k holds
      the values for k degrees of freedom after the label k. */
  const Table: seq<seq<real>> := [
    [0.0, 0.90, 0.95, 0.99],
    [1.0, 2.706, 3.841, 6.635],
    [2.0, 4.605, 5.991, 9.210]
  ]

  const PopulationSize: real := 1612.0

  /** The expected counts: each genotype frequency times the population size. */
  const Expected: seq<real> := [1467.106992, 141.482016, 3.410992]

  const Observed: seq<real> := [1469.0, 138.0, 5.0]

  /** The expansion of the driver's frequencies 0.954 and 0.046 gives
      0.954^2, 2 * 0.954 * 0.046 and 0.046^2 in key order. */
  lemma DriverFrequencies()
    ensures forall k :: k in Expansion([0.954, 0.046]).keys ==> k in Expansion([0.954, 0.046]).entries
    ensures Values(Expansion([0.954, 0.046])) == [0.910116, 0.087768, 0.002116]
  {
    var p, q := 0.954, 0.046;
    BinomialValues(p, q);
    assert p * p == 0.910116 && 2.0 * p * q == 0.087768 && q * q == 0.002116;
  }

  /** The driver's expected counts are those frequencies times the population size. */
  lemma DriverExpectedCounts()
    ensures Expected == seq(3, i requires 0 <= i < 3 => [0.910116, 0.087768, 0.002116][i] * PopulationSize)
  {
  }

  /** At one degree of freedom and p = 0.05 the table gives the critical value 3.841. */
  lemma DriverCriticalValue()
    ensures CellExists(Table, 1, 0.05)
    ensures CriticalValueLookup(Table, 1, 0.05) == Some(3.841)
  {
    CriticalValueFound(Table, 1, 0.05, 2);
  }

  /** The statistic for the driver's counts is about 0.83. */
  lemma DriverStatistic()
    ensures NonZero(Expected)
    ensures 0.82 < ChiSum(Expected, Observed) < 0.83
  {
    var t0, t1, t2 := Term(1467.106992, 1469.0), Term(141.482016, 138.0), Term(3.410992, 5.0);
    assert [1467.106992][..0] == [] && [1469.0][..0] == [];
    assert ChiSum([1467.106992], [1469.0]) == t0;
    assert [1467.106992, 141.482016][..1] == [1467.106992] && [1469.0, 138.0][..1] == [1469.0];
    assert ChiSum([1467.106992, 141.482016], [1469.0, 138.0]) == t0 + t1;
    assert Expected[..2] == [1467.106992, 141.482016] && Observed[..2] == [1469.0, 138.0];
    assert ChiSum(Expected, Observed) == t0 + t1 + t2;
    assert 0.0024 < t0 < 0.0025;
    assert 0.0856 < t1 < 0.0858;
    assert 0.7402 < t2 < 0.7403;
  }

  /** The statistic stays below the critical value, so the equilibrium
      hypothesis is kept. */
  lemma DriverScenario()
    ensures NonZero(Expected) && CellExists(Table, 1, 0.05)
    ensures RejectNullHypothesis(Expected, Observed, Table, 1, 0.05) == Success(false)
  {
    DriverCriticalValue();
    DriverStatistic();
  }
}
