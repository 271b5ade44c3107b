/** The derived-field classes `Genotype` and `Gene`: a genotype's identity key
    and homozygosity are recomputed from its alleles by its setters, and a
    gene's genotype list is rebuilt from the expansion of its allele frequencies. */
module Genetics {
  import opened Wrappers
  import opened Errors
  import opened Alleles
  import opened FrequencyExpansion

  /** The sum of the allele indices, accumulated from the left. */
  function IndexSum(alleles: seq<Allele>): int
  {
    if alleles == [] then 0 else IndexSum(alleles[..|alleles| - 1]) + alleles[|alleles| - 1].index
  }

  /** Every allele carries the index of the first one. */
  predicate AllSameIndex(alleles: seq<Allele>)
    requires |alleles| > 0
  {
    forall i :: 0 <= i < |alleles| ==> alleles[i].index == alleles[0].index
  }

  /** For an allele pair the identity key is the sum of the two indices. */
  lemma PairIndexSum(a: Allele, b: Allele)
    ensures IndexSum([a, b]) == a.index + b.index
  {
    assert [a, b][..1] == [a];
    assert [a][..0] == [];
    assert IndexSum([a]) == IndexSum([]) + a.index;
    assert IndexSum([a, b]) == IndexSum([a]) + b.index;
  }

  /** For an allele pair, homozygous means the two indices are equal. */
  lemma PairHomozygote(a: Allele, b: Allele)
    ensures AllSameIndex([a, b]) <==> a.index == b.index
  {
    if AllSameIndex([a, b]) {
      assert [a, b][1].index == [a, b][0].index;
    }
  }

  /** The key is ambiguous: the heterozygotes (0, 3) and (1, 2) share the key 3. */
  lemma GenotypeIdCollides(a0: Allele, a1: Allele, a2: Allele, a3: Allele)
    requires a0.index == 0 && a1.index == 1 && a2.index == 2 && a3.index == 3
    ensures IndexSum([a0, a3]) == IndexSum([a1, a2]) == 3
    ensures !AllSameIndex([a0, a3]) && !AllSameIndex([a1, a2])
  {
    PairIndexSum(a0, a3);
    PairIndexSum(a1, a2);
    PairHomozygote(a0, a3);
    PairHomozygote(a1, a2);
  }

  /** No object occurs twice in the list. */
  predicate Distinct(gs: seq<Genotype>)
  {
    forall a, b :: 0 <= a < b < |gs| ==> gs[a] != gs[b]
  }

  /** One allele combination with its derived key and homozygosity and its
      expected and observed frequencies. */
  class Genotype {
    var alleles: seq<Allele>
    var genotypeId: int
    var isHomozygote: bool
    var expFrequency: real
    var obsFrequency: real

    /** The derived fields agree with the alleles. */
    ghost predicate Valid()
      reads this
    {
      |alleles| > 0 && genotypeId == IndexSum(alleles) && isHomozygote == AllSameIndex(alleles)
    }

    /** The genotype id and homozygote flag given here are ignored: both setters recompute. */
    constructor (alleles: seq<Allele>, genotypeId: int := 0, expFrequency: real := 0.0, obsFrequency: real := 0.0)
      requires |alleles| > 0
      ensures Valid()
      ensures this.alleles == alleles
      ensures this.expFrequency == expFrequency && this.obsFrequency == obsFrequency
    {
      this.alleles := alleles;
      this.expFrequency := expFrequency;
      this.obsFrequency := obsFrequency;
      new;
      SetGenotypeId(genotypeId);
      SetIsHomozygote(true);
    }

    /** The `genotype_id` setter: ignores its argument and sums the allele indices. */
    method SetGenotypeId(value: int)
      modifies this`genotypeId
      ensures genotypeId == IndexSum(alleles)
    {
      genotypeId := 0;
      for i := 0 to |alleles|
        invariant genotypeId == IndexSum(alleles[..i])
      {
        assert alleles[..i + 1][..i] == alleles[..i];
        genotypeId := genotypeId + alleles[i].index;
      }
      assert alleles[..|alleles|] == alleles;
    }

    /** The `is_homozygote` setter: ignores its argument and checks every index
        against the first one, stopping at the first that differs. */
    method SetIsHomozygote(value: bool)
      requires |alleles| > 0
      modifies this`isHomozygote
      ensures isHomozygote == AllSameIndex(alleles)
    {
      isHomozygote := true;
      var initIdx := alleles[0].index;
      for i := 1 to |alleles|
        invariant isHomozygote
        invariant forall k :: 0 <= k < i ==> alleles[k].index == initIdx
      {
        if alleles[i].index != initIdx {
          isHomozygote := false;
          break;
        }
      }
    }

    /** `Genotype((a1, a2), exp_frequency = f)`, as a gene builds it. */
    static method ForPair(a1: Allele, a2: Allele, f: real) returns (g: Genotype)
      ensures fresh(g) && g.DerivedFor(a1, a2, f)
    {
      g := new Genotype([a1, a2], expFrequency := f);
      PairIndexSum(a1, a2);
      PairHomozygote(a1, a2);
    }

    /** This genotype is the one a gene with these alleles derives for the
        expansion key (i, j): alleles (alleles[i], alleles[j]) and the
        coefficient of (i, j) in the expansion of the allele frequencies. */
    ghost predicate DerivedAt(alleles: seq<Allele>, key: Pair)
      reads this
    {
      key.0 < |alleles| && key.1 < |alleles| &&
      DerivedFor(alleles[key.0], alleles[key.1], Coefficient(Frequencies(alleles), key))
    }

    /** This genotype is the one a gene derives for the allele pair (a1, a2)
        with expected frequency f: key, homozygosity, frequencies and all. */
    ghost predicate DerivedFor(a1: Allele, a2: Allele, f: real)
      reads this
    {
      && alleles == [a1, a2]
      && genotypeId == a1.index + a2.index
      && isHomozygote == (a1.index == a2.index)
      && expFrequency == f
      && obsFrequency == 0.0
    }
  }

  /** A locus with its alleles, population size and derived genotypes. */
  class Gene {
    var alleles: seq<Allele>
    var popsize: int
    var genotypes: seq<Genotype>

    /** The genotypes are one per expansion pair (i, j), in expansion order,
        each with alleles (alleles[i], alleles[j]) and that pair's coefficient,
        and no two entries are the same object. */
    ghost predicate DerivedGenotypes()
      reads this, genotypes
    {
      var pairs := ExpansionPairs(|alleles|);
      && |genotypes| == |pairs|
      && (forall k :: 0 <= k < |genotypes| ==> genotypes[k].DerivedAt(alleles, pairs[k]))
      && Distinct(genotypes)
    }

    /** The `genotypes` setter: ignores its argument and builds a fresh list
        from the expansion of the allele frequencies. */
    method SetGenotypes(value: seq<Genotype>)
      modifies this`genotypes
      ensures DerivedGenotypes()
      ensures forall g :: g in genotypes ==> fresh(g)
    {
      var gs: seq<Genotype> := [];
      var alleleFrequencies := Frequencies(alleles);
      var p := PolynomialExpansion(alleleFrequencies);
      for i := 0 to |p.keys|
        invariant |gs| == i
        invariant forall g :: g in gs ==> fresh(g)
        invariant Distinct(gs)
        invariant forall k :: 0 <= k < i ==> gs[k].DerivedAt(alleles, p.keys[k])
      {
        ExpansionKeyAt(alleleFrequencies, i);
        var (a1Idx, a2Idx) := p.keys[i];
        var freq := p.entries[(a1Idx, a2Idx)];
        var g := Genotype.ForPair(alleles[a1Idx], alleles[a2Idx], freq);
        gs := gs + [g];
      }
      genotypes := gs;
    }

    /** Assigns the alleles and the population size and derives the genotypes;
        the genotype list argument is ignored. */
    constructor (alleles: seq<Allele>, popsize: int, genotypes: seq<Genotype> := [])
      ensures this.alleles == alleles && this.popsize == popsize
      ensures DerivedGenotypes()
      ensures forall g :: g in this.genotypes ==> fresh(g)
    {
      this.alleles := alleles;
      this.popsize := popsize;
      new;
      SetGenotypes(genotypes);
    }

    /** `Gene(alleles, popsize, genotypes)`: builds the gene, then rejects it
        with a ValueError unless (p + q)^2 == 1 for the first two frequencies. */
    static method Create(alleles: seq<Allele>, popsize: int, genotypes: seq<Genotype> := []) returns (r: Result<Gene, Error>)
      requires |alleles| >= 2
      ensures r.Failure? <==> SquaredSum(alleles[0].frequency, alleles[1].frequency) != 1.0
      ensures r.Failure? ==> r.error == ValueError(FrequencySum)
      ensures r.Failure? ==> Message(r.error.reason) == "[ERROR] The sum of all genotype frequencies must equal 1."
      ensures r.Success? ==> fresh(r.value) && r.value.alleles == alleles && r.value.popsize == popsize
      ensures r.Success? ==> r.value.DerivedGenotypes()
      ensures r.Success? ==> forall g :: g in r.value.genotypes ==> fresh(g)
    {
      var gene := new Gene(alleles, popsize, genotypes);
      var p, q := gene.alleles[0], gene.alleles[1];
      if (p.frequency + q.frequency) * (p.frequency + q.frequency) != 1.0 {
        return Failure(ValueError(FrequencySum));
      }
      return Success(gene);
    }
  }

  /** The quantity `Gene` checks: the square of the sum of two frequencies. */
  function SquaredSum(p: real, q: real): real
  {
    (p + q) * (p + q)
  }

  lemma ZeroProduct(x: real, y: real)
    requires x * y == 0.0
    ensures x == 0.0 || y == 0.0
  {
    if x != 0.0 {
      assert y == (x * y) / x;
    }
  }

  /** The squared check accepts a sum of -1 as well as 1; for frequencies,
      which are non-negative, it is the same as p + q == 1. */
  lemma SquaredSumCheck(p: real, q: real)
    ensures SquaredSum(p, q) == 1.0 <==> (p + q == 1.0 || p + q == -1.0)
    ensures p >= 0.0 && q >= 0.0 ==> (SquaredSum(p, q) == 1.0 <==> p + q == 1.0)
  {
    var s := p + q;
    assert s * s - 1.0 == (s - 1.0) * (s + 1.0);
    if s * s == 1.0 {
      ZeroProduct(s - 1.0, s + 1.0);
    }
  }

  /** Hardy-Weinberg proportions: when the allele frequencies add up to 1 (or
      -1), the genotype frequencies of their expansion add up to exactly 1. */
  lemma HardyWeinbergTotal(v: seq<real>)
    requires Sum(v, 0) * Sum(v, 0) == 1.0
    ensures Total(Expansion(v)) == 1.0
  {
    ExpansionTotalIsSquare(v);
  }

  /** For a two-allele gene, the check `Gene` makes is exactly the premise of
      `HardyWeinbergTotal` for its allele frequencies. */
  lemma TwoAlleleCheck(alleles: seq<Allele>)
    requires |alleles| == 2
    ensures SquaredSum(alleles[0].frequency, alleles[1].frequency) == Sum(Frequencies(alleles), 0) * Sum(Frequencies(alleles), 0)
  {
    var fs := Frequencies(alleles);
    SumOfTwo(fs);
    SameSquare(Sum(fs, 0), alleles[0].frequency + alleles[1].frequency);
  }

  lemma SameSquare(x: real, y: real)
    requires x == y
    ensures x * x == y * y
  {
  }
}
