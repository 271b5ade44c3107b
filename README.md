# Hardy-Weinberg equilibrium core, modelled in Dafny

This project models the computational core of `hardy_weinberg.py`, a small
Hardy-Weinberg equilibrium checker.

- **Alleles.** An `Allele` is an immutable record of index, symbol, dominance
  and frequency, with the source's defaults 0, "", 1 and 0. `to_dict` exports
  it as a four-entry dictionary.
- **Frequency expansion.** `_polynomial_expansion` squares a vector of allele
  frequencies term by term. Two nested loops visit every index pair `(i, j)`
  in row-major order. A `combos` list records each visited pair and its
  mirror, so exactly the pairs `i <= j` are inserted into an insertion-ordered
  dictionary: `v[i]^2` on the diagonal and `2 v[i] v[j]` off it. The model
  keeps the nested loops, the `combos` list and the dictionary. The dictionary
  is the `Dict` datatype: a key order plus a key-value map, which is how a
  Python dict behaves.
- **Genotypes and genes.** Both are classes with fields, as in the source.
  - Their property setters ignore the value they are given and recompute
    from the alleles.
  - `genotype_id` is the sum of the allele indices.
  - `is_homozygote` checks every index against the first one and stops at
    the first that differs.
  - A gene's genotype list is rebuilt from the expansion of its allele
    frequencies: one fresh `Genotype` per dictionary entry, in dictionary
    order.
  - Building a `Gene` raises `ValueError` unless `(p + q)^2 == 1` for the
    first two allele frequencies. This is modelled as a `Result`.
- **Goodness of fit.**
  - `chi_squared_test` accumulates `(1/e)(e - o)^2` over paired counts and
    raises `ValueError` on a length mismatch.
  - The selection logic of `chi_square_critical_value` runs over a table
    given as `seq<seq<real>>`. It picks the last header column equal to
    `1 - p` and returns `rows[dof][col]` only when that column index is
    non-zero and `0 <= dof < len(rows)`.
  - `reject_null_hypothesis` compares the statistic with the critical value.
    When there is no critical value, the comparison with `None` raises
    Python 3's `TypeError`, which is modelled as an error result. Its message
    names `int` for empty data, where the statistic is still the int 0, and
    `float` otherwise.

Arithmetic is over Dafny's exact `real`.

Modules:

| file | module | contents |
|---|---|---|
| `wrappers.dfy` | `Wrappers`, `Errors` | `Option`, `Result`, the two exception kinds, the reasons they are raised for and the message of each |
| `alleles.dfy` | `Alleles` | the allele record and `to_dict` |
| `expansion.dfy` | `FrequencyExpansion` | the dictionary, the expansion loop and its properties |
| `genetics.dfy` | `Genetics` | the `Genotype` and `Gene` classes, the frequency check, Hardy-Weinberg proportions |
| `chisquared.dfy` | `ChiSquared` | statistic, critical-value selection, decision |
| `example.dfy` | `WorkedExample` | the source's own example: alleles 0.954 / 0.046, population 1612, counts 1469 / 138 / 5 |

The worked example's figures, as the code computes them:

- **Genotype frequencies.** The expansion of `[0.954, 0.046]` gives
  `0.954^2 = 0.910116`, `2 * 0.954 * 0.046 = 0.087768` and
  `0.046^2 = 0.002116` (`WorkedExample.DriverFrequencies`).
- **Expected counts.** With a population of 1612 they are 1467.106992,
  141.482016 and 3.410992.
- **Statistic and decision.** The statistic is about 0.83 and the decision
  is `False` (`WorkedExample.DriverStatistic`,
  `WorkedExample.DriverScenario`).

Two points of behaviour worth knowing:

- **Which alleles are expanded and checked.** A `Gene` expands over all of
  its alleles, not only the first two, but checks only the first two
  frequencies.
- **When derived fields are recomputed.** They are recomputed only when
  their setters run, i.e. in the constructors. They are not recomputed when
  the alleles change later.

## Model

| member | source | states |
|---|---|---|
| `Alleles.ToDict` | hardy_weinberg.py:9-15 | the export has exactly the keys index, name, dominance, frequency, holding the index, the symbol (under "name"), the dominance and the frequency |
| `Alleles.ToDictInjective` | hardy_weinberg.py:9-15 | two alleles export the same dictionary iff they are the same allele |
| `Alleles.Frequencies` | hardy_weinberg.py:65 | the frequency list has one entry per allele, the i-th being the i-th allele's frequency |
| `FrequencyExpansion.PutKeepsValid` | hardy_weinberg.py:85-88 | `d[k] = v` keeps a well-formed dictionary well-formed, maps k to v, keeps every other key and value, and appends k to the key order exactly when k is new |
| `FrequencyExpansion.VisitLogMembers` | hardy_weinberg.py:82-91 | after the visits up to (i, j), `combos` holds exactly the visited pairs and their mirrors |
| `FrequencyExpansion.SeenBelowDiagonal` | hardy_weinberg.py:84-87 | at visit (i, j), the pair is already in `combos` exactly when j < i, so a pair is inserted iff it lies on or above the diagonal |
| `FrequencyExpansion.InsertStep` | hardy_weinberg.py:84-88 | a visit on or above the diagonal extends the dictionary of the pairs inserted so far by that pair and its coefficient |
| `FrequencyExpansion.InsertSquare` | hardy_weinberg.py:84-85 | the visit of a diagonal pair (i, i) inserts v[i] v[i] and yields the expansion of the pairs inserted so far |
| `FrequencyExpansion.InsertProduct` | hardy_weinberg.py:87-88 | the visit of a pair (i, j), i < j, inserts 2 v[i] v[j] and yields the expansion of the pairs inserted so far |
| `FrequencyExpansion.InsertNothing` | hardy_weinberg.py:84-88 | a visit below the diagonal inserts nothing |
| `FrequencyExpansion.InsertedRows` | hardy_weinberg.py:82-91 | once every row has been visited, the inserted keys are the rows of the upper triangle in order |
| `FrequencyExpansion.ExpandRow` | hardy_weinberg.py:83-91 | one pass of the inner loop advances `combos` and the dictionary from the state before row idx1 to the state before row idx1 + 1 |
| `FrequencyExpansion.PolynomialExpansion` | hardy_weinberg.py:73-92 | the nested loops return exactly the dictionary `Expansion(values)`: the upper-triangle pairs in row-major order, each with its coefficient |
| `FrequencyExpansion.ExpansionPairsShape` | hardy_weinberg.py:79-91 | the keys are exactly the pairs with 0 <= i <= j < n, in strictly increasing row-major order, each once, n(n+1)/2 of them, and no mirror (j, i) with i < j ever appears |
| `FrequencyExpansion.ExpansionValid` | hardy_weinberg.py:82-91 | the expansion is a well-formed dictionary: no key repeats, and exactly the listed keys are mapped |
| `FrequencyExpansion.ExpansionCoefficients` | hardy_weinberg.py:84-88 | the expansion is well-formed, and every key (i, j) has i <= j < n and maps to v[i] v[i] on the diagonal and 2 v[i] v[j] off it |
| `FrequencyExpansion.ExpansionKeyAt` | hardy_weinberg.py:68-69 | the t-th key of the expansion is an upper-triangle pair present in the dictionary with its coefficient, so looking it up cannot fail |
| `FrequencyExpansion.RowsTotalIsSquare` | hardy_weinberg.py:84-88 | the coefficients of rows i .. n-1 add up to (v[i] + ... + v[n-1])^2 |
| `FrequencyExpansion.ExpansionTotalByRows` | hardy_weinberg.py:84-88 | summing the dictionary along its key order is summing the coefficients row by row |
| `FrequencyExpansion.ExpansionTotalIsSquare` | hardy_weinberg.py:84-88 | the values of the expansion add up to the square of the sum of the inputs |
| `FrequencyExpansion.PairsOfTwo` | hardy_weinberg.py:79-91 | two values give the keys (0,0), (0,1), (1,1) in that order |
| `FrequencyExpansion.CoefficientsOfTwo` | hardy_weinberg.py:84-88 | for two values p, q the coefficient map covers exactly the three keys, with p^2, 2pq, q^2 |
| `FrequencyExpansion.BinomialExpansion` | hardy_weinberg.py:84-88 | the expansion of [p, q] is the dictionary (0,0) -> p^2, (0,1) -> 2pq, (1,1) -> q^2, in that order |
| `FrequencyExpansion.BinomialValues` | hardy_weinberg.py:84-88 | the genotype frequencies of [p, q] in key order are [p^2, 2pq, q^2] |
| `FrequencyExpansion.BinomialExpansionSymmetric` | hardy_weinberg.py:84-88 | swapping p and q keeps the keys, swaps the homozygote values, keeps the heterozygote value and keeps the multiset of values |
| `Genetics.PairIndexSum` | hardy_weinberg.py:42-46 | for two alleles the genotype id is the sum of their indices |
| `Genetics.PairHomozygote` | hardy_weinberg.py:29-36 | two alleles are homozygous iff their indices are equal |
| `Genetics.GenotypeIdCollides` | hardy_weinberg.py:42-46 | the id is ambiguous: heterozygotes with indices (0, 3) and (1, 2) both get id 3 |
| `Genetics.Genotype.SetGenotypeId` | hardy_weinberg.py:42-46 | whatever value is passed, the id becomes the sum of the allele indices |
| `Genetics.Genotype.SetIsHomozygote` | hardy_weinberg.py:29-36 | whatever value is passed, the flag becomes true iff every allele index equals the first one |
| `Genetics.Genotype.constructor` | hardy_weinberg.py:18-23 | the alleles and both frequencies (by default 0) are stored, and the id and flag are derived from the alleles whatever id is passed |
| `Genetics.Genotype.ForPair` | hardy_weinberg.py:70 | the genotype built for (a1, a2) with frequency f is fresh, has alleles [a1, a2], id a1.index + a2.index, homozygous iff the indices are equal, expected frequency f and observed frequency 0 |
| `Genetics.Gene.SetGenotypes` | hardy_weinberg.py:62-71 | whatever list is passed, the genotypes become fresh, pairwise distinct objects, one per expansion key (i, j) in key order, with alleles (alleles[i], alleles[j]), that key's coefficient and observed frequency 0 |
| `Genetics.Gene.constructor` | hardy_weinberg.py:49-52 | the alleles and population size are stored, and the genotype argument (by default empty) is replaced by the derived genotypes: fresh, pairwise distinct, one per expansion key |
| `Genetics.Gene.Create` | hardy_weinberg.py:49-56 | building a gene fails with the ValueError and its message exactly when (p + q)^2 != 1 for the first two frequencies; otherwise it yields a fresh gene whose genotypes are fresh, pairwise distinct and derived from the expansion |
| `Genetics.SquaredSumCheck` | hardy_weinberg.py:55 | the squared check accepts exactly p + q = 1 or p + q = -1; for non-negative frequencies, exactly p + q = 1 |
| `Genetics.HardyWeinbergTotal` | hardy_weinberg.py:84-88 | when the frequencies add up to 1 or -1 (their sum squared is 1), the genotype frequencies of the expansion add up to exactly 1 |
| `Genetics.TwoAlleleCheck` | hardy_weinberg.py:54-55 | for two alleles, the gene's check is exactly that the squared frequency sum is 1 |
| `ChiSquared.ChiSquaredTest` | hardy_weinberg.py:111-118 | fails with the size-mismatch ValueError, carrying the source's message, exactly when the lengths differ; otherwise returns the sum of (1/e)(e - o)^2 over the pairs |
| `ChiSquared.TermOfEqual` | hardy_weinberg.py:117 | a pair with o = e contributes 0 |
| `ChiSquared.TermPositive` | hardy_weinberg.py:117 | with e > 0, a pair with o != e contributes strictly more than 0 |
| `ChiSquared.TermSign` | hardy_weinberg.py:117 | with e > 0, a term is non-negative, and it is 0 iff o = e |
| `ChiSquared.ChiSumOfEqualIsZero` | hardy_weinberg.py:111-118 | the statistic of a perfect fit is 0 |
| `ChiSquared.ChiSumSign` | hardy_weinberg.py:111-118 | with positive expected counts, the statistic is non-negative and is 0 iff observed equals expected |
| `ChiSquared.ChiSumExamples` | hardy_weinberg.py:117 | a perfect fit gives 0, and expected [100, 50] with observed [90, 60] gives 1 + 2 = 3 |
| `ChiSquared.LastMatch` | hardy_weinberg.py:104-106 | the result is a column holding x with no later column holding x, and it is absent iff no column holds x |
| `ChiSquared.LastMatchIsLast` | hardy_weinberg.py:104-106 | the last column holding x is what the scan finds |
| `ChiSquared.ChiSquareCriticalValue` | hardy_weinberg.py:103-109 | the header scan returns the lookup's value: the cell in row dof of the last column equal to 1 - p (p by default 0.05), or nothing |
| `ChiSquared.CriticalValueFound` | hardy_weinberg.py:103-109 | with c the last header column equal to 1 - p, a value exists iff c != 0 and 0 <= dof < len(rows), and then it is rows[dof][c] |
| `ChiSquared.CriticalValueMissing` | hardy_weinberg.py:103-109 | with no header column equal to 1 - p, there is no value |
| `ChiSquared.ColumnZeroIsMiss` | hardy_weinberg.py:107 | a match found only in column 0 counts as a miss, because the index 0 is falsy |
| `ChiSquared.DofZeroReadsHeader` | hardy_weinberg.py:107-108 | with dof = 0 the lookup reads the header row, so a hit returns 1 - p itself |
| `ChiSquared.RejectNullHypothesis` | hardy_weinberg.py:120-127 | a length mismatch is the ValueError; a missing critical value is the TypeError of comparing the statistic with `None`, its left operand an int for empty data and a float otherwise; otherwise the result is true iff the statistic is strictly greater than the critical value; p defaults to 0.05 |
| `ChiSquared.RejectionMessages` | hardy_weinberg.py:112-125 | a length mismatch carries the message "[ERROR] The observed and expected data sets are not of the same size."; a missing critical value carries Python's message for `int > None` when the data are empty (the statistic is still the int 0 of line 112) and for `float > None` otherwise |
| `ChiSquared.PerfectFitIsKept` | hardy_weinberg.py:120-127 | a perfect fit is never rejected against a non-negative critical value |
| `ChiSquared.RejectionMeansMisfit` | hardy_weinberg.py:120-127 | with positive expected counts, a rejection means some observed count differs from its expected count |
| `WorkedExample.DriverFrequencies` | hardy_weinberg.py:132-137 | the example's frequencies 0.954 and 0.046 give genotype frequencies 0.910116, 0.087768, 0.002116 in key order |
| `WorkedExample.DriverExpectedCounts` | hardy_weinberg.py:139-142 | the expected counts are those frequencies times the population size 1612 |
| `WorkedExample.DriverCriticalValue` | hardy_weinberg.py:103-109 | at one degree of freedom and p = 0.05 the example table gives 3.841 |
| `WorkedExample.DriverStatistic` | hardy_weinberg.py:111-118 | the example's statistic lies strictly between 0.82 and 0.83 |
| `WorkedExample.DriverScenario` | hardy_weinberg.py:146 | the example's call to `reject_null_hypothesis` returns False |

## Left out

- **Reading the table file.** Reading `chi_square_critical_values.txt`,
  splitting it into rows and fields and parsing the fields with `float`
  (hardy_weinberg.py:96-101) is file I/O. The table is a parameter instead.
  The file itself is not part of this model. `WorkedExample.Table` is an
  illustrative table in the layout the code expects: a label column, then a
  header of quantiles, then row k for k degrees of freedom.
- **Output.** The `print` calls (hardy_weinberg.py:123-124) are left out.
  So is the output part of the `__main__` driver; only its computation is
  modelled, in `WorkedExample`.
- **Floating-point rounding.** The model works on exact reals, so it does
  not cover IEEE-754 rounding of the exact-equality tests at
  hardy_weinberg.py:55 and :105. Frequencies that add to 1 in real numbers
  may not pass the float test, and the reverse.
- **`ChiSquared.ChiSquaredTest`: division by zero.** An expected count of 0
  (a `ZeroDivisionError` in the source) is excluded by a precondition.
- **`IndexError` cases** are excluded by preconditions:
  - `Genetics.Gene.Create` needs at least two alleles.
  - `Genetics.Genotype.SetIsHomozygote` and the `Genotype` constructor need
    at least one allele.
  - `ChiSquared.CriticalValueLookup` and its callers need a non-empty table
    whose selected row is long enough (`CellExists`).
- **Unused allele fields.** `symbol` and `dominance` are carried by the
  record and its export but take part in no computation.
- **Recomputing derived fields after construction.** Python setters would
  run again if a caller reassigned `alleles` and then the derived property.
  The model recomputes them only where the source does, in the
  constructors.
- **`FrequencyExpansion.Total`: missing keys.** It counts a listed key that
  is missing from the map as 0. That case never arises for a well-formed
  dictionary (see `ExpansionValid`).
- **`ChiSquared.ChiSquaredTest`: int versus float.** The statistic is a
  `real` in every case. The empty data's int result `0` (hardy_weinberg.py:112)
  is the real 0. `ChiSquared.StatisticType` keeps only the Python type,
  because the `TypeError` message names it.
