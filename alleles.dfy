/** One allele variant at a locus: a plain record, never changed after construction. */
module Alleles {

  /** `Allele(index=0, symbol="", dominance=1, frequency=0)`, defaults and all. */
  datatype Allele = Allele(index: int := 0, symbol: string := "", dominance: int := 1, frequency: real := 0.0)

  /** A value of the dictionary `to_dict` exports. */
  datatype Field = IntField(i: int) | TextField(s: string) | RealField(r: real)

  /** `to_dict`: the record as a key-value mapping; the symbol is exported under "name". */
  function ToDict(a: Allele): (d: map<string, Field>)
    ensures d.Keys == {"index", "name", "dominance", "frequency"}
    ensures d["index"] == IntField(a.index) && d["name"] == TextField(a.symbol)
    ensures d["dominance"] == IntField(a.dominance) && d["frequency"] == RealField(a.frequency)
  {
    map["index" := IntField(a.index), "name" := TextField(a.symbol),
        "dominance" := IntField(a.dominance), "frequency" := RealField(a.frequency)]
  }

  /** The export loses nothing: two alleles with the same dictionary are the same allele. */
  lemma ToDictInjective(a: Allele, b: Allele)
    ensures ToDict(a) == ToDict(b) <==> a == b
  {
    if ToDict(a) == ToDict(b) {
      assert ToDict(a)["index"] == ToDict(b)["index"];
      assert ToDict(a)["name"] == ToDict(b)["name"];
      assert ToDict(a)["dominance"] == ToDict(b)["dominance"];
      assert ToDict(a)["frequency"] == ToDict(b)["frequency"];
    }
  }

  /** `[a.frequency for a in alleles]`. */
  function Frequencies(alleles: seq<Allele>): (fs: seq<real>)
    ensures |fs| == |alleles|
    ensures forall i :: 0 <= i < |alleles| ==> fs[i] == alleles[i].frequency
  {
    seq(|alleles|, i requires 0 <= i < |alleles| => alleles[i].frequency)
  }
}
