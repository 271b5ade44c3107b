/** `_polynomial_expansion`: the square (v[0] + ... + v[n-1])^2 of a frequency
    vector, written as one coefficient per unordered index pair (i, j), i <= j,
    in an insertion-ordered dictionary. */
module FrequencyExpansion {

  /** An index pair, the key type of the expansion's dictionary. */
  type Pair = (nat, nat)

  /** An insertion-ordered dictionary from pairs to reals, as a Python dict is:
      `keys` is the insertion order and `entries` the key-value mapping. */
  datatype Dict = Dict(keys: seq<Pair>, entries: map<Pair, real>) {

    /** Every key is listed once, and exactly the mapped keys are listed. */
    ghost predicate Valid() {
      && (forall a, b :: 0 <= a < b < |keys| ==> keys[a] != keys[b])
      && (forall k :: k in entries <==> k in keys)
    }

    /** `d[k] = v`: a new key goes to the end of the order, a present key keeps its place. */
    function Put(k: Pair, v: real): Dict
    {
      if k in entries then Dict(keys, entries[k := v]) else Dict(keys + [k], entries[k := v])
    }
  }

  /** The values of a dictionary in key order (`list(d.values())`). */
  function Values(d: Dict): (vs: seq<real>)
    requires forall k :: k in d.keys ==> k in d.entries
    ensures |vs| == |d.keys|
    ensures forall i :: 0 <= i < |vs| ==> vs[i] == d.entries[d.keys[i]]
  {
    seq(|d.keys|, i requires 0 <= i < |d.keys| => d.entries[d.keys[i]])
  }

  /** The pairs (i, c), lo <= c < n, by increasing c: part of one row of the triangle. */
  function Row(i: nat, lo: nat, n: nat): (r: seq<Pair>)
    decreases n - lo
  {
    if lo >= n then [] else [(i, lo)] + Row(i, lo + 1, n)
  }

  /** Rows i .. n-1 of the upper triangle, row after row. */
  function Rows(i: nat, n: nat): (r: seq<Pair>)
    decreases n - i
  {
    if i >= n then [] else Row(i, i, n) + Rows(i + 1, n)
  }

  lemma {:induction false} RowMembers(i: nat, lo: nat, n: nat)
    ensures forall k :: k in Row(i, lo, n) <==> k.0 == i && lo <= k.1 < n
    ensures |Row(i, lo, n)| == if lo <= n then n - lo else 0
    decreases n - lo
  {
    if lo < n {
      var rest := Row(i, lo + 1, n);
      assert Row(i, lo, n) == [(i, lo)] + rest;
      RowMembers(i, lo + 1, n);
      forall k: Pair ensures k in [(i, lo)] + rest <==> k.0 == i && lo <= k.1 < n {
        assert k in [(i, lo)] + rest <==> k == (i, lo) || k in rest;
      }
    }
  }

  lemma {:induction false} RowsMembers(i: nat, n: nat)
    ensures forall k :: k in Rows(i, n) <==> i <= k.0 <= k.1 < n
    decreases n - i
  {
    if i < n {
      var row, rest := Row(i, i, n), Rows(i + 1, n);
      assert Rows(i, n) == row + rest;
      RowMembers(i, i, n);
      RowsMembers(i + 1, n);
      forall k: Pair ensures k in row + rest <==> i <= k.0 <= k.1 < n {
        assert k in row + rest <==> k in row || k in rest;
      }
    }
  }

  /** The keys of the expansion of n values, in the order they are inserted. */
  function ExpansionPairs(n: nat): seq<Pair>
  {
    Rows(0, n)
  }

  /** The coefficient of pair k: v[i]^2 on the diagonal, 2 v[i] v[j] off it. */
  function Coefficient(v: seq<real>, k: Pair): real
    requires k.0 < |v| && k.1 < |v|
  {
    if k.0 == k.1 then v[k.0] * v[k.1] else 2.0 * v[k.0] * v[k.1]
  }

  /** The dictionary `_polynomial_expansion(v)` returns. */
  function Expansion(v: seq<real>): Dict
  {
    var ps := ExpansionPairs(|v|);
    Dict(ps, Coefficients(v, ps))
  }

  /** The coefficient of every key of ks (all of them are in range in every use). */
  function Coefficients(v: seq<real>, ks: seq<Pair>): map<Pair, real>
  {
    map k | k in ks && k.0 < |v| && k.1 < |v| :: Coefficient(v, k)
  }

  /** Pair a comes before pair b in row-major order. */
  predicate Before(a: Pair, b: Pair)
  {
    a.0 < b.0 || (a.0 == b.0 && a.1 < b.1)
  }

  ghost predicate RowMajor(s: seq<Pair>)
  {
    forall a, b :: 0 <= a < b < |s| ==> Before(s[a], s[b])
  }

  /** The pairs the loop has recorded in `combos` once it has visited every
      (r, c) with r < i, and (i, c) with c < j: each visited pair and its mirror. */
  predicate Visited(k: Pair, i: nat, j: nat, n: nat)
  {
    k.0 < n && k.1 < n && (k.0 < i || k.1 < i || (k.0 == i && k.1 < j) || (k.1 == i && k.0 < j))
  }

  /** The list `combos` after those visits, in the order the loop appends to it. */
  function VisitLog(i: nat, j: nat, n: nat): seq<Pair>
    decreases i, j
  {
    if j == 0 then (if i == 0 then [] else VisitLog(i - 1, n, n))
    else VisitLog(i, j - 1, n) + [(i, j - 1), (j - 1, i)]
  }

  lemma {:induction false} VisitLogMembers(i: nat, j: nat, n: nat)
    requires i <= n && j <= n && (i < n || j == 0)
    ensures forall k :: k in VisitLog(i, j, n) <==> Visited(k, i, j, n)
    decreases i, j
  {
    if j == 0 {
      if i > 0 {
        VisitLogMembers(i - 1, n, n);
      }
    } else {
      VisitLogMembers(i, j - 1, n);
    }
  }

  /** The keys inserted after those visits, in insertion order: (i, c) is
      inserted when it is visited and c >= i. */
  function Inserted(i: nat, j: nat, n: nat): seq<Pair>
    decreases i, j
  {
    if j == 0 then (if i == 0 then [] else Inserted(i - 1, n, n))
    else Inserted(i, j - 1, n) + (if i <= j - 1 then [(i, j - 1)] else [])
  }

  lemma {:induction false} InsertedMembers(i: nat, j: nat, n: nat)
    requires i <= n && j <= n && (i < n || j == 0)
    ensures forall k :: k in Inserted(i, j, n) ==> k.0 <= k.1 < n && Before(k, (i, j))
    decreases i, j
  {
    if j == 0 {
      if i > 0 {
        InsertedMembers(i - 1, n, n);
      }
    } else {
      InsertedMembers(i, j - 1, n);
    }
  }

  /** Nothing is inserted in row i before the diagonal. */
  lemma {:induction false} InsertedBelowDiagonal(i: nat, j: nat, n: nat)
    requires j <= i
    ensures Inserted(i, j, n) == Inserted(i, 0, n)
  {
    if j > 0 {
      InsertedBelowDiagonal(i, j - 1, n);
    }
  }

  /** From the diagonal on, row i is inserted in the order `Row` lists it. */
  lemma {:induction false} InsertedAlongRow(i: nat, j: nat, n: nat)
    requires i <= j <= n
    ensures Inserted(i, j, n) + Row(i, j, n) == Inserted(i, 0, n) + Row(i, i, n)
    decreases j - i
  {
    if j == i {
      InsertedBelowDiagonal(i, i, n);
    } else {
      InsertedAlongRow(i, j - 1, n);
      assert Row(i, j - 1, n) == [(i, j - 1)] + Row(i, j, n);
      assert Inserted(i, j, n) == Inserted(i, j - 1, n) + [(i, j - 1)];
    }
  }

  /** Once rows 0 .. i-1 are done, the pairs still to come are rows i .. n-1. */
  lemma {:induction false} InsertedRows(i: nat, n: nat)
    requires i <= n
    ensures Inserted(i, 0, n) + Rows(i, n) == ExpansionPairs(n)
  {
    if i > 0 {
      InsertedRows(i - 1, n);
      InsertedAlongRow(i - 1, n, n);
      assert Row(i - 1, n, n) == [];
      assert Inserted(i, 0, n) == Inserted(i - 1, 0, n) + Row(i - 1, i - 1, n);
      assert Rows(i - 1, n) == Row(i - 1, i - 1, n) + Rows(i, n);
      assert Inserted(i, 0, n) + Rows(i, n) == Inserted(i - 1, 0, n) + (Row(i - 1, i - 1, n) + Rows(i, n));
    }
  }

  /** Inserting the coefficient of a new key keeps the dictionary the expansion of its keys. */
  lemma PutCoefficient(v: seq<real>, ks: seq<Pair>, k: Pair)
    requires k.0 < |v| && k.1 < |v| && k !in ks
    ensures Dict(ks, Coefficients(v, ks)).Put(k, Coefficient(v, k)) == Dict(ks + [k], Coefficients(v, ks + [k]))
  {
    assert k !in Coefficients(v, ks);
    assert Coefficients(v, ks)[k := Coefficient(v, k)] == Coefficients(v, ks + [k]);
  }

  /** At visit (i, j) the pair is already in `combos` exactly when it lies below the diagonal. */
  lemma SeenBelowDiagonal(i: nat, j: nat, n: nat)
    requires i < n && j < n
    ensures (i, j) in VisitLog(i, j, n) <==> j < i
  {
    VisitLogMembers(i, j, n);
  }

  /** A visit on or above the diagonal inserts the pair with its coefficient. */
  lemma InsertStep(v: seq<real>, i: nat, j: nat)
    requires i <= j < |v|
    ensures Dict(Inserted(i, j, |v|), Coefficients(v, Inserted(i, j, |v|))).Put((i, j), Coefficient(v, (i, j)))
         == Dict(Inserted(i, j + 1, |v|), Coefficients(v, Inserted(i, j + 1, |v|)))
  {
    var n := |v|;
    InsertedMembers(i, j, n);
    assert (i, j) !in Inserted(i, j, n);
    assert Inserted(i, j + 1, n) == Inserted(i, j, n) + [(i, j)];
    PutCoefficient(v, Inserted(i, j, n), (i, j));
  }

  /** The visit of a diagonal pair (i, i) inserts v[i]^2. */
  lemma InsertSquare(v: seq<real>, i: nat, j: nat)
    requires i == j < |v|
    ensures Dict(Inserted(i, j, |v|), Coefficients(v, Inserted(i, j, |v|))).Put((i, j), v[i] * v[j])
         == Dict(Inserted(i, j + 1, |v|), Coefficients(v, Inserted(i, j + 1, |v|)))
  {
    InsertStep(v, i, j);
    assert Coefficient(v, (i, j)) == v[i] * v[j];
  }

  /** The visit of a pair (i, j) above the diagonal inserts 2 v[i] v[j]. */
  lemma InsertProduct(v: seq<real>, i: nat, j: nat)
    requires i < j < |v|
    ensures Dict(Inserted(i, j, |v|), Coefficients(v, Inserted(i, j, |v|))).Put((i, j), 2.0 * v[i] * v[j])
         == Dict(Inserted(i, j + 1, |v|), Coefficients(v, Inserted(i, j + 1, |v|)))
  {
    InsertStep(v, i, j);
    assert Coefficient(v, (i, j)) == 2.0 * v[i] * v[j];
  }

  /** The visit of a pair (i, j) below the diagonal inserts nothing. */
  lemma InsertNothing(i: nat, j: nat, n: nat)
    requires j < i
    ensures Inserted(i, j + 1, n) == Inserted(i, j, n)
  {
  }

  /** The nested loops of `_polynomial_expansion`: every (idx1, idx2) is visited
      in row-major order, a pair is inserted only if neither it nor its mirror
      was visited before, and both are then recorded in `combos`. */
  method PolynomialExpansion(values: seq<real>) returns (result: Dict)
    ensures result == Expansion(values)
  {
    var n := |values|;
    var combos: seq<Pair> := [];
    result := Dict([], map[]);
    for idx1 := 0 to n
      invariant combos == VisitLog(idx1, 0, n)
      invariant result == Dict(Inserted(idx1, 0, n), Coefficients(values, Inserted(idx1, 0, n)))
    {
      combos, result := ExpandRow(values, idx1, combos, result);
    }
    InsertedRows(n, n);
  }

  /** One pass of the inner loop of `_polynomial_expansion`, for row idx1. */
  method ExpandRow(values: seq<real>, idx1: nat, combos0: seq<Pair>, result0: Dict) returns (combos: seq<Pair>, result: Dict)
    requires idx1 < |values|
    requires combos0 == VisitLog(idx1, 0, |values|)
    requires result0 == Dict(Inserted(idx1, 0, |values|), Coefficients(values, Inserted(idx1, 0, |values|)))
    ensures combos == VisitLog(idx1 + 1, 0, |values|)
    ensures result == Dict(Inserted(idx1 + 1, 0, |values|), Coefficients(values, Inserted(idx1 + 1, 0, |values|)))
  {
    var n := |values|;
    combos, result := combos0, result0;
    for idx2 := 0 to n
      invariant combos == VisitLog(idx1, idx2, n)
      invariant result == Dict(Inserted(idx1, idx2, n), Coefficients(values, Inserted(idx1, idx2, n)))
    {
      SeenBelowDiagonal(idx1, idx2, n);
      if (idx1, idx2) !in combos && idx1 == idx2 {
        InsertSquare(values, idx1, idx2);
        result := result.Put((idx1, idx2), values[idx1] * values[idx2]);
      } else if (idx1, idx2) !in combos {
        InsertProduct(values, idx1, idx2);
        result := result.Put((idx1, idx2), 2.0 * values[idx1] * values[idx2]);
      } else {
        InsertNothing(idx1, idx2, n);
      }
      combos := combos + [(idx1, idx2), (idx2, idx1)];
    }
  }

  // ---------------------------------------------------------------------
  // Properties of the dictionary and of the expansion

  /** `d[k] = v` keeps a well-formed dictionary well-formed, maps k to v, leaves
      every other key alone, and appends k to the order exactly when it is new. */
  lemma PutKeepsValid(d: Dict, k: Pair, v: real)
    requires d.Valid()
    ensures d.Put(k, v).Valid()
    ensures k in d.Put(k, v).entries && d.Put(k, v).entries[k] == v
    ensures forall k' :: k' != k ==> (k' in d.Put(k, v).entries <==> k' in d.entries)
    ensures forall k' :: k' != k && k' in d.entries ==> d.Put(k, v).entries[k'] == d.entries[k']
    ensures |d.Put(k, v).keys| == if k in d.entries then |d.keys| else |d.keys| + 1
    ensures d.Put(k, v).keys[..|d.keys|] == d.keys
  {
    var r := d.Put(k, v);
    if k !in d.entries {
      assert r.keys == d.keys + [k];
      forall a, b | 0 <= a < b < |r.keys| ensures r.keys[a] != r.keys[b] {
        if b == |d.keys| {
          assert r.keys[a] == d.keys[a];
        }
      }
    }
  }

  lemma {:induction false} SortedConcat(s: seq<Pair>, t: seq<Pair>)
    requires RowMajor(s) && RowMajor(t)
    requires forall x, y :: x in s && y in t ==> Before(x, y)
    ensures RowMajor(s + t)
  {
    forall a, b | 0 <= a < b < |s + t| ensures Before((s + t)[a], (s + t)[b]) {
      if b < |s| {
        assert (s + t)[a] == s[a] && (s + t)[b] == s[b];
      } else if a >= |s| {
        assert (s + t)[a] == t[a - |s|] && (s + t)[b] == t[b - |s|];
      } else {
        assert (s + t)[a] == s[a] && (s + t)[b] == t[b - |s|];
        assert s[a] in s && t[b - |s|] in t;
      }
    }
  }

  lemma {:induction false} RowSorted(i: nat, lo: nat, n: nat)
    ensures RowMajor(Row(i, lo, n))
    decreases n - lo
  {
    if lo < n {
      RowSorted(i, lo + 1, n);
      RowMembers(i, lo + 1, n);
      SortedConcat([(i, lo)], Row(i, lo + 1, n));
    }
  }

  lemma {:induction false} RowsSorted(i: nat, n: nat)
    ensures RowMajor(Rows(i, n))
    decreases n - i
  {
    if i < n {
      RowSorted(i, i, n);
      RowsSorted(i + 1, n);
      RowMembers(i, i, n);
      RowsMembers(i + 1, n);
      SortedConcat(Row(i, i, n), Rows(i + 1, n));
    }
  }

  /** 0 + 1 + ... + m. */
  function TriangleNumber(m: nat): nat
  {
    if m == 0 then 0 else m + TriangleNumber(m - 1)
  }

  lemma {:induction false} TriangleFormula(m: nat)
    ensures 2 * TriangleNumber(m) == m * (m + 1)
  {
    if m > 0 {
      TriangleFormula(m - 1);
      assert m * (m + 1) == (m - 1) * m + 2 * m;
    }
  }

  lemma {:induction false} RowsCount(i: nat, n: nat)
    requires i <= n
    ensures |Rows(i, n)| == TriangleNumber(n - i)
    decreases n - i
  {
    if i < n {
      var row, rest := Row(i, i, n), Rows(i + 1, n);
      assert Rows(i, n) == row + rest;
      RowsCount(i + 1, n);
      RowMembers(i, i, n);
    }
  }

  /** The keys of the expansion of n values: exactly the pairs (i, j) with
      0 <= i <= j < n, in strictly increasing row-major order (so each once),
      n(n+1)/2 of them, and never the mirror (j, i) of a pair with i < j. */
  lemma ExpansionPairsShape(n: nat)
    ensures forall k :: k in ExpansionPairs(n) <==> k.0 <= k.1 < n
    ensures RowMajor(ExpansionPairs(n))
    ensures forall a, b :: 0 <= a < b < |ExpansionPairs(n)| ==> ExpansionPairs(n)[a] != ExpansionPairs(n)[b]
    ensures |ExpansionPairs(n)| == n * (n + 1) / 2
    ensures forall i: nat, j: nat :: i < j ==> (j, i) !in ExpansionPairs(n)
  {
    RowsMembers(0, n);
    RowsSorted(0, n);
    RowsCount(0, n);
    TriangleFormula(n);
  }

  /** The t-th key of the expansion lies in the upper triangle and maps to its coefficient. */
  lemma ExpansionKeyAt(v: seq<real>, t: nat)
    requires t < |ExpansionPairs(|v|)|
    ensures var k := ExpansionPairs(|v|)[t];
      k.0 <= k.1 < |v| && k in Expansion(v).entries && Expansion(v).entries[k] == Coefficient(v, k)
  {
    var ps := ExpansionPairs(|v|);
    var k := ps[t];
    RowsMembers(0, |v|);
    assert k in ps;
  }

  /** The expansion is a well-formed dictionary whose every key carries its coefficient. */
  lemma ExpansionCoefficients(v: seq<real>)
    ensures Expansion(v).Valid()
    ensures forall k :: k in Expansion(v).entries ==>
      k.0 <= k.1 < |v| &&
      Expansion(v).entries[k] == (if k.0 == k.1 then v[k.0] * v[k.1] else 2.0 * v[k.0] * v[k.1])
  {
    ExpansionPairsShape(|v|);
    ExpansionValid(v);
  }

  lemma ExpansionValid(v: seq<real>)
    ensures Expansion(v).Valid()
  {
    ExpansionPairsShape(|v|);
  }

  /** Sum of v[lo ..]. */
  function Sum(v: seq<real>, lo: nat): real
    decreases |v| - lo
  {
    if lo >= |v| then 0.0 else v[lo] + Sum(v, lo + 1)
  }

  /** Sum of the values of the keys ks, in order (a key m lacks counts 0). */
  function EntrySum(ks: seq<Pair>, m: map<Pair, real>): real
  {
    if ks == [] then 0.0 else (if ks[0] in m then m[ks[0]] else 0.0) + EntrySum(ks[1..], m)
  }

  /** `sum(d.values())`. */
  function Total(d: Dict): real
  {
    EntrySum(d.keys, d.entries)
  }

  lemma {:induction false} EntrySumConcat(s: seq<Pair>, t: seq<Pair>, m: map<Pair, real>)
    ensures EntrySum(s + t, m) == EntrySum(s, m) + EntrySum(t, m)
  {
    if s != [] {
      assert (s + t)[0] == s[0];
      assert (s + t)[1..] == s[1..] + t;
      EntrySumConcat(s[1..], t, m);
    } else {
      assert s + t == t;
    }
  }

  /** The coefficients of row i from column lo on, added up along the row. */
  function RowTotal(v: seq<real>, i: nat, lo: nat): real
    requires i < |v|
    decreases |v| - lo
  {
    if lo >= |v| then 0.0 else Coefficient(v, (i, lo)) + RowTotal(v, i, lo + 1)
  }

  /** The coefficients of rows i .. n-1, added up row by row. */
  function RowsTotal(v: seq<real>, i: nat): real
    decreases |v| - i
  {
    if i >= |v| then 0.0 else RowTotal(v, i, i) + RowsTotal(v, i + 1)
  }

  lemma SquareOfSum(a: real, s: real)
    ensures (a + s) * (a + s) == a * a + 2.0 * a * s + s * s
  {
  }

  lemma Distribute(a: real, b: real, s: real)
    ensures 2.0 * a * b + 2.0 * a * s == 2.0 * a * (b + s)
  {
  }

  /** The off-diagonal part of row i from column lo on is 2 v[i] (v[lo] + ... + v[n-1]). */
  lemma {:induction false} RowTotalOffDiagonal(v: seq<real>, i: nat, lo: nat)
    requires i < lo
    requires i < |v|
    ensures RowTotal(v, i, lo) == 2.0 * v[i] * Sum(v, lo)
    decreases |v| - lo
  {
    if lo < |v| {
      RowTotalOffDiagonal(v, i, lo + 1);
      Distribute(v[i], v[lo], Sum(v, lo + 1));
    }
  }

  /** Rows i .. n-1 add up to (v[i] + ... + v[n-1])^2. */
  lemma {:induction false} RowsTotalIsSquare(v: seq<real>, i: nat)
    ensures RowsTotal(v, i) == Sum(v, i) * Sum(v, i)
    decreases |v| - i
  {
    if i < |v| {
      RowsTotalIsSquare(v, i + 1);
      RowTotalOffDiagonal(v, i, i + 1);
      SquareOfSum(v[i], Sum(v, i + 1));
    }
  }

  /** m holds the coefficient of every pair of the upper triangle of v. */
  ghost predicate HoldsCoefficients(v: seq<real>, m: map<Pair, real>)
  {
    forall k: Pair :: k.0 <= k.1 < |v| ==> k in m && m[k] == Coefficient(v, k)
  }

  /** Adding up the values of m along a row gives that row's coefficients. */
  lemma {:induction false} EntrySumRow(v: seq<real>, m: map<Pair, real>, i: nat, lo: nat)
    requires HoldsCoefficients(v, m)
    requires i <= lo && i < |v|
    ensures EntrySum(Row(i, lo, |v|), m) == RowTotal(v, i, lo)
    decreases |v| - lo
  {
    if lo < |v| {
      var row, rest := Row(i, lo, |v|), Row(i, lo + 1, |v|);
      EntrySumRow(v, m, i, lo + 1);
      assert row == [(i, lo)] + rest;
      assert row[1..] == rest;
      var k: Pair := (i, lo);
      assert k in m && m[k] == Coefficient(v, k);
    }
  }

  lemma {:induction false} EntrySumRows(v: seq<real>, m: map<Pair, real>, i: nat)
    requires HoldsCoefficients(v, m)
    ensures EntrySum(Rows(i, |v|), m) == RowsTotal(v, i)
    decreases |v| - i
  {
    if i < |v| {
      var row, rest := Row(i, i, |v|), Rows(i + 1, |v|);
      assert Rows(i, |v|) == row + rest;
      EntrySumRows(v, m, i + 1);
      EntrySumRow(v, m, i, i);
      EntrySumConcat(row, rest, m);
    }
  }

  /** The coefficients add up to the square of the sum of the values. */
  lemma ExpansionTotalIsSquare(v: seq<real>)
    ensures Total(Expansion(v)) == Sum(v, 0) * Sum(v, 0)
  {
    RowsTotalIsSquare(v, 0);
    ExpansionTotalByRows(v);
  }

  /** The total of the expansion, added up row by row. */
  lemma ExpansionTotalByRows(v: seq<real>)
    ensures Total(Expansion(v)) == RowsTotal(v, 0)
  {
    ExpansionHoldsCoefficients(v);
    EntrySumRows(v, Expansion(v).entries, 0);
  }

  lemma ExpansionHoldsCoefficients(v: seq<real>)
    ensures HoldsCoefficients(v, Expansion(v).entries)
  {
    var ps := ExpansionPairs(|v|);
    RowsMembers(0, |v|);
    forall k: Pair | k.0 <= k.1 < |v|
      ensures k in Coefficients(v, ps) && Coefficients(v, ps)[k] == Coefficient(v, k)
    {
      assert k in ps;
    }
  }

  /** The three keys of a two-value expansion. */
  lemma PairsOfTwo()
    ensures ExpansionPairs(2) == [(0, 0), (0, 1), (1, 1)]
  {
    assert Row(0, 2, 2) == [] && Row(1, 2, 2) == [] && Rows(2, 2) == [];
    assert Row(0, 0, 2) == [(0, 0), (0, 1)];
    assert Rows(1, 2) == [(1, 1)];
  }

  /** Two values p, q give the Hardy-Weinberg terms p^2, 2pq, q^2 at (0,0), (0,1), (1,1). */
  lemma BinomialExpansion(p: real, q: real)
    ensures Expansion([p, q]) == Dict([(0, 0), (0, 1), (1, 1)], map[(0, 0) := p * p, (0, 1) := 2.0 * p * q, (1, 1) := q * q])
  {
    PairsOfTwo();
    CoefficientsOfTwo(p, q);
    MapOfThree(Coefficients([p, q], [(0, 0), (0, 1), (1, 1)]), p * p, 2.0 * p * q, q * q);
  }

  lemma CoefficientsOfTwo(p: real, q: real)
    ensures var c := Coefficients([p, q], [(0, 0), (0, 1), (1, 1)]);
      && (forall k :: k in c <==> k == (0, 0) || k == (0, 1) || k == (1, 1))
      && c[(0, 0)] == p * p && c[(0, 1)] == 2.0 * p * q && c[(1, 1)] == q * q
  {
    var v := [p, q];
    assert v[0] == p && v[1] == q;
  }

  /** A map on exactly the three keys of a two-value expansion, given its values. */
  lemma MapOfThree(c: map<Pair, real>, x: real, y: real, z: real)
    requires forall k :: k in c <==> k == (0, 0) || k == (0, 1) || k == (1, 1)
    requires c[(0, 0)] == x && c[(0, 1)] == y && c[(1, 1)] == z
    ensures c == map[(0, 0) := x, (0, 1) := y, (1, 1) := z]
  {
  }

  /** The genotype frequencies of two values, in key order. */
  lemma BinomialValues(p: real, q: real)
    ensures forall k :: k in Expansion([p, q]).keys ==> k in Expansion([p, q]).entries
    ensures Values(Expansion([p, q])) == [p * p, 2.0 * p * q, q * q]
  {
    BinomialExpansion(p, q);
    var d := Expansion([p, q]);
    assert Values(d) == [d.entries[(0, 0)], d.entries[(0, 1)], d.entries[(1, 1)]];
  }

  /** The sum of two values. */
  lemma SumOfTwo(v: seq<real>)
    requires |v| == 2
    ensures Sum(v, 0) == v[0] + v[1]
  {
    assert Sum(v, 2) == 0.0;
  }

  /** Swapping p and q swaps the two homozygote terms and keeps the heterozygote
      term, so both orders give the same multiset of genotype frequencies. */
  lemma BinomialExpansionSymmetric(p: real, q: real)
    ensures Expansion([p, q]).keys == Expansion([q, p]).keys
    ensures forall k :: k in Expansion([p, q]).keys ==> k in Expansion([p, q]).entries && k in Expansion([q, p]).entries
    ensures var a, b := Values(Expansion([p, q])), Values(Expansion([q, p]));
      |a| == 3 && |b| == 3 && a[0] == b[2] && a[1] == b[1] && a[2] == b[0]
    ensures multiset(Values(Expansion([p, q]))) == multiset(Values(Expansion([q, p])))
  {
    BinomialValues(p, q);
    BinomialValues(q, p);
    var a, b := Values(Expansion([p, q])), Values(Expansion([q, p]));
    assert 2.0 * p * q == 2.0 * q * p;
    Reversed3(a, b);
  }

  /** Three elements in reverse order are the same multiset. */
  lemma Reversed3<T>(a: seq<T>, b: seq<T>)
    requires |a| == 3 && |b| == 3 && a[0] == b[2] && a[1] == b[1] && a[2] == b[0]
    ensures multiset(a) == multiset(b)
  {
    assert a == [a[0]] + [a[1]] + [a[2]];
    assert b == [a[2]] + [a[1]] + [a[0]];
  }
}
