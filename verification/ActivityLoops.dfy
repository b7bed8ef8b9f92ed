/** The enumerating loops of the activity estimation, proved against the truth-table reference. */
module ActivityLoops {
  import opened Bits
  import opened TruthTables

  // ----- the bit tests -----

  lemma {:induction false} QuotientIs(k: nat, d: nat, q: nat, r: nat)
    requires d > 0 && r < d && k == d * q + r
    ensures k / d == q
  {
    var x := k / d - q;
    assert k == d * (k / d) + k % d;
    assert d * x == r - k % d;
    Multiple(d, x);
  }

  lemma {:induction false} Multiple(d: int, x: int)
    requires d > 0
    ensures x >= 1 ==> d * x >= d
    ensures x <= -1 ==> d * x <= 0 - d
  {
  }

  lemma {:induction false} HalfFirst(k: nat, d: nat)
    requires d > 0
    ensures k / (2 * d) == (k / 2) / d
  {
    var h := k / 2;
    assert h == d * (h / d) + h % d;
    QuotientIs(k, 2 * d, h / d, 2 * (h % d) + k % 2);
  }

  /** The test of bit `l` by a mask of one shifted `l` times. */
  predicate Masked(k: nat, place: nat)
    requires place > 0
  {
    (k / place) % 2 == 1
  }

  lemma {:induction false} MaskedBit(k: nat, l: nat)
    ensures Masked(k, Pow2(l)) == Bit(k, l)
  {
    if l > 0 {
      MaskedBit(k / 2, l - 1);
      HalfFirst(k, Pow2(l - 1));
    }
  }

  // ----- static probability -----

  lemma {:induction false} ProductUpTo(s: seq<real>, l: nat)
    requires l < |s|
    ensures Product(s[..l + 1]) == Product(s[..l]) * s[l]
  {
    assert s[..l + 1][..l] == s[..l];
  }

  /** The factors of one input combination, multiplied up. */
  method CombinationProbability(p: seq<real>, k: nat) returns (probVal: real)
    ensures probVal == Term(p, k)
  {
    hide Product;
    var place := 1;
    probVal := 1.0;
    ghost var s := Factors(p, k);
    EmptyProduct(s);
    for l := 0 to |p|
      invariant place == Pow2(l) && probVal == Product(s[..l])
    {
      MaskedBit(k, l);
      ProductUpTo(s, l);
      if Masked(k, place) {
        probVal := probVal * p[l];
      } else {
        probVal := probVal * (1.0 - p[l]);
      }
      place := place * 2;
    }
    assert s[..|p|] == s;
  }

  lemma {:induction false} EmptyProduct(s: seq<real>)
    ensures Product(s[..0]) == 1.0
  {
  }

  /** The probability of the function, by enumeration of its on-set. */
  method StaticProbability(f: seq<bool>, p: seq<real>) returns (totalProb: real)
    requires TableOf(f, |p|)
    ensures totalProb == Prob(f, p)
  {
    hide Term;
    totalProb := 0.0;
    for k := 0 to |f|
      invariant totalProb == Total(f, TermFn(p), k)
    {
      if f[k] {
        var probVal := CombinationProbability(p, k);
        totalProb := totalProb + probVal;
      }
    }
  }

  // ----- the Boolean difference -----

  /** What the first `l` bits of `i` contribute to the index with bit `j` skipped. */
  function Spread(i: nat, j: nat, l: nat): nat {
    if l == 0 then 0 else Spread(i, j, l - 1) + if Bit(i, l - 1) then Pow2(if l - 1 < j then l - 1 else l) else 0
  }

  /** What the first `l` bits of `i` are worth. */
  function LowPart(i: nat, l: nat): nat {
    if l == 0 then 0 else LowPart(i, l - 1) + if Bit(i, l - 1) then Pow2(l - 1) else 0
  }

  lemma {:induction false} LowPartStep(i: nat, l: nat)
    requires l > 0
    ensures LowPart(i, l) == i % 2 + 2 * LowPart(i / 2, l - 1)
  {
    if l > 1 { LowPartStep(i, l - 1); }
  }

  lemma {:induction false} LowPartAll(i: nat, l: nat)
    requires i < Pow2(l)
    ensures LowPart(i, l) == i
  {
    if l > 0 {
      LowPartStep(i, l);
      LowPartAll(i / 2, l - 1);
    }
  }

  lemma {:induction false} SpreadFromZero(i: nat, l: nat)
    ensures Spread(i, 0, l) == 2 * LowPart(i, l)
  {
    if l > 0 { SpreadFromZero(i, l - 1); }
  }

  lemma {:induction false} SpreadStep(i: nat, j: nat, l: nat)
    requires j > 0 && l > 0
    ensures Spread(i, j, l) == i % 2 + 2 * Spread(i / 2, j - 1, l - 1)
  {
    if l > 1 { SpreadStep(i, j, l - 1); }
  }

  /** All bits spread out are the index with a zero inserted. */
  lemma {:induction false} SpreadIsInsert(i: nat, j: nat, l: nat)
    requires i < Pow2(l) && j <= l
    ensures Spread(i, j, l) == Insert(i, j)
  {
    if j == 0 {
      SpreadFromZero(i, l);
      LowPartAll(i, l);
    } else {
      SpreadStep(i, j, l);
      SpreadIsInsert(i / 2, j - 1, l - 1);
    }
  }

  /** The index of the entry with input `j` at zero: bit by bit, skipping column `j`. */
  method ZeroIndex(i: nat, n: nat, j: nat) returns (index: nat)
    requires j < n && i < Pow2(n - 1)
    ensures index == Insert(i, j)
  {
    var place, indexPlus := 1, 1;
    index := 0;
    for l := 0 to n - 1
      invariant place == Pow2(l) && indexPlus == Pow2(if l <= j then l else l + 1) && index == Spread(i, j, l)
    {
      if l == j { indexPlus := indexPlus * 2; }
      MaskedBit(i, l);
      if Masked(i, place) { index := index + indexPlus; }
      place := place * 2;
      indexPlus := indexPlus * 2;
    }
    SpreadIsInsert(i, j, n - 1);
  }

  /** boolean_difference */
  method BooleanDifference(f: seq<bool>, n: nat, j: nat) returns (d: array<bool>)
    requires TableOf(f, n) && j < n && n > 1
    ensures fresh(d) && d[..] == Difference(f, n, j)
  {
    var skip := PowerOfTwo(j);
    var size := PowerOfTwo(n - 1);
    d := new bool[size](_ => false);
    for i := 0 to size
      invariant forall k :: 0 <= k < i ==> d[k] == Difference(f, n, j)[k]
    {
      var index := ZeroIndex(i, n, j);
      InsertBound(i, j, n);
      assert index == WithBit(i, j, false) && index + skip == WithBit(i, j, true);
      d[i] := f[index] != f[index + skip];
      assert Cofactor(f, n, j, false)[i] == f[index] && Cofactor(f, n, j, true)[i] == f[index + skip];
    }
  }

  method PowerOfTwo(n: nat) returns (r: nat)
    ensures r == Pow2(n)
  {
    r := 1;
    for i := 0 to n
      invariant r == Pow2(i)
    {
      r := r * 2;
    }
  }

  // ----- the density weight -----

  /** The factors of one combination of the other inputs; the index skips input `j`. */
  method OtherInputsProbability(p: seq<real>, j: nat, i: nat) returns (probVal: real)
    requires j < |p|
    ensures probVal == Term(Without(p, j), i)
  {
    hide Product;
    var place, index := 1, -1;
    probVal := 1.0;
    ghost var s := Factors(Without(p, j), i);
    EmptyProduct(s);
    for l := 0 to |p| - 1
      invariant place == Pow2(l) && index == (if l <= j then l else l + 1) - 1 && probVal == Product(s[..l])
    {
      if l == j { index := index + 2; } else { index := index + 1; }
      MaskedBit(i, l);
      ProductUpTo(s, l);
      if Masked(i, place) {
        probVal := probVal * p[index];
      } else {
        probVal := probVal * (1.0 - p[index]);
      }
      place := place * 2;
    }
    assert s[..|p| - 1] == s;
  }

  /** calc_density: what input `j` contributes to the density of the function. The assertion before the clamp holds,
      and the clamp changes nothing. */
  method InputDensity(f: seq<bool>, p: seq<real>, j: nat, d: array<bool>, density: real) returns (r: real)
    requires TableOf(f, |p|) && j < |p| && Probabilities(p) && d[..] == Difference(f, |p|, j)
    ensures r == Prob(Sensitive(f, |p|, j), p) * density
  {
    hide Term;
    ghost var q, g := Without(p, j), d[..];
    var totalProb := 0.0;
    for i := 0 to d.Length
      invariant totalProb == Total(g, TermFn(q), i)
    {
      if d[i] {
        var probVal := OtherInputsProbability(p, j, i);
        totalProb := totalProb + probVal;
      }
    }
    assert Probabilities(q);
    ProbBounded(g, q);
    DifferenceWeight(f, p, j);
    assert totalProb == Prob(g, q) <= 1.0;
    if totalProb > 1.0 { totalProb := 1.0; }
    r := totalProb * density;
  }
}
