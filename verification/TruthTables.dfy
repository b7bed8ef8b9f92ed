/** Truth tables under independent input probabilities: the reference the enumerating loops are proved against.
    Entry `k` of a table is the function at the inputs given by the bits of `k`, bit 0 for input 0. */
module TruthTables {
  import opened Bits

  predicate Bit(k: nat, l: nat) {
    if l == 0 then k % 2 == 1 else Bit(k / 2, l - 1)
  }

  /** `n` inputs need 2^n entries. */
  predicate TableOf(f: seq<bool>, n: nat) {
    |f| == Pow2(n)
  }

  function Even(f: seq<bool>): (r: seq<bool>)
    ensures |r| == |f| / 2 && forall i {:trigger r[i]} :: 0 <= i < |r| ==> r[i] == f[2 * i]
  {
    seq(|f| / 2, (i: nat) requires i < |f| / 2 => f[2 * i])
  }

  function Odd(f: seq<bool>): (r: seq<bool>)
    ensures |r| == |f| / 2 && forall i {:trigger r[i]} :: 0 <= i < |r| ==> r[i] == f[2 * i + 1]
  {
    seq(|f| / 2, (i: nat) requires i < |f| / 2 => f[2 * i + 1])
  }

  predicate Probability(x: real) { 0.0 <= x <= 1.0 }

  predicate Probabilities(p: seq<real>) {
    forall i :: 0 <= i < |p| ==> Probability(p[i])
  }

  lemma {:induction false} NonNegative(x: real, y: real)
    requires 0.0 <= x && 0.0 <= y
    ensures 0.0 <= x * y
  {
  }

  lemma {:induction false} Square(x: real)
    ensures 0.0 <= x * x
  {
    if x >= 0.0 { NonNegative(x, x); } else { NonNegative(-x, -x); }
  }

  /** Twice P times (1 - P), the transition probability, is at most one half. */
  lemma {:induction false} TransitionBounded(x: real)
    requires Probability(x)
    ensures 0.0 <= 2.0 * (x * (1.0 - x)) <= 0.5
  {
    var y := 1.0 - x;
    NonNegative(x, y);
    Square(x - y);
    assert (x - y) * (x - y) == (x + y) * (x + y) - 4.0 * (x * y);
  }

  // ----- the probability of a function -----

  function Factor(x: real, bit: bool): real { if bit then x else 1.0 - x }

  function Product(s: seq<real>): real {
    if s == [] then 1.0 else Product(s[..|s| - 1]) * s[|s| - 1]
  }

  /** One factor per input: its probability, or that of its complement. */
  function Factors(p: seq<real>, k: nat): (r: seq<real>)
    ensures |r| == |p| && forall l {:trigger r[l]} :: 0 <= l < |p| ==> r[l] == Factor(p[l], Bit(k, l))
  {
    seq(|p|, (l: nat) requires l < |p| => Factor(p[l], Bit(k, l)))
  }

  /** The probability of the input combination `k`. */
  function Term(p: seq<real>, k: nat): real {
    Product(Factors(p, k))
  }

  function TermFn(p: seq<real>): nat -> real {
    (k: nat) => Term(p, k)
  }

  /** The weights of the on-set entries below `m`, added up. */
  function Total(f: seq<bool>, wt: nat -> real, m: nat): real
    requires m <= |f|
  {
    if m == 0 then 0.0 else Total(f, wt, m - 1) + (if f[m - 1] then wt(m - 1) else 0.0)
  }

  /** The probability that the function is 1. */
  function Prob(f: seq<bool>, p: seq<real>): real
    requires TableOf(f, |p|)
  {
    Total(f, TermFn(p), |f|)
  }

  lemma {:induction false} TotalCongruent(f: seq<bool>, wt: nat -> real, wt': nat -> real, m: nat)
    requires m <= |f| && forall k: nat :: k < m && f[k] ==> wt(k) == wt'(k)
    ensures Total(f, wt, m) == Total(f, wt', m)
  {
    if m > 0 { TotalCongruent(f, wt, wt', m - 1); }
  }

  lemma {:induction false} Distribute(c: real, x: real, y: real)
    ensures c * (x + y) == c * x + c * y
  {
  }

  lemma {:induction false} TotalScale(f: seq<bool>, wt: nat -> real, wt': nat -> real, c: real, m: nat)
    requires m <= |f| && forall k: nat :: k < m ==> wt(k) == c * wt'(k)
    ensures Total(f, wt, m) == c * Total(f, wt', m)
  {
    if m > 0 {
      TotalScale(f, wt, wt', c, m - 1);
      Distribute(c, Total(f, wt', m - 1), if f[m - 1] then wt'(m - 1) else 0.0);
    }
  }

  function Evens(wt: nat -> real): nat -> real { (k: nat) => wt(2 * k) }
  function Odds(wt: nat -> real): nat -> real { (k: nat) => wt(2 * k + 1) }

  lemma {:induction false} TotalPairs(f: seq<bool>, wt: nat -> real, m: nat)
    requires 2 * m <= |f|
    ensures Total(f, wt, 2 * m) == Total(Even(f), Evens(wt), m) + Total(Odd(f), Odds(wt), m)
  {
    if m > 0 {
      var k := m - 1;
      TotalPairs(f, wt, k);
      assert Even(f)[k] == f[2 * k] && Odd(f)[k] == f[2 * k + 1];
      assert Total(f, wt, 2 * k + 1) == Total(f, wt, 2 * k) + (if f[2 * k] then wt(2 * k) else 0.0);
    }
  }

  // ----- conditioning on one chosen input -----

  /** The index with a zero inserted at bit `j`. */
  function Insert(i: nat, j: nat): nat {
    if j == 0 then 2 * i else i % 2 + 2 * Insert(i / 2, j - 1)
  }

  function WithBit(i: nat, j: nat, b: bool): nat {
    Insert(i, j) + if b then Pow2(j) else 0
  }

  lemma {:induction false} InsertBound(i: nat, j: nat, n: nat)
    requires j < n && i < Pow2(n - 1)
    ensures WithBit(i, j, true) < Pow2(n)
  {
    if j > 0 {
      InsertBound(i / 2, j - 1, n - 1);
    }
  }

  /** The function with input `j` fixed. */
  function Cofactor(f: seq<bool>, n: nat, j: nat, b: bool): (r: seq<bool>)
    requires TableOf(f, n) && j < n
    ensures TableOf(r, n - 1)
    ensures forall i: nat {:trigger r[i]} :: i < |r| ==> WithBit(i, j, b) < |f| && r[i] == f[WithBit(i, j, b)]
  {
    assert forall i: nat :: i < Pow2(n - 1) ==> WithBit(i, j, b) < Pow2(n) by {
      forall i: nat | i < Pow2(n - 1) ensures WithBit(i, j, b) < Pow2(n) { InsertBound(i, j, n); }
    }
    seq(Pow2(n - 1), (i: nat) requires i < Pow2(n - 1) => f[WithBit(i, j, b)])
  }

  function Without(p: seq<real>, j: nat): (r: seq<real>)
    requires j < |p|
    ensures |r| == |p| - 1
    ensures forall l {:trigger r[l]} :: 0 <= l < |r| ==> r[l] == p[if l < j then l else l + 1]
  {
    p[..j] + p[j + 1..]
  }

  lemma {:induction false} CofactorHalves(f: seq<bool>, n: nat, j: nat, b: bool)
    requires TableOf(f, n) && 0 < j < n
    ensures Even(Cofactor(f, n, j, b)) == Cofactor(Even(f), n - 1, j - 1, b)
    ensures Odd(Cofactor(f, n, j, b)) == Cofactor(Odd(f), n - 1, j - 1, b)
  {
    hide Cofactor, Odd;
    var c, e, o := Cofactor(f, n, j, b), Cofactor(Even(f), n - 1, j - 1, b), Cofactor(Odd(f), n - 1, j - 1, b);
    forall i: nat | i < |e| ensures Even(c)[i] == e[i] && Odd(c)[i] == o[i] {
      assert WithBit(2 * i, j, b) == 2 * WithBit(i, j - 1, b)
        && WithBit(2 * i + 1, j, b) == 2 * WithBit(i, j - 1, b) + 1;
    }
  }

  function Inserted(wt: nat -> real, j: nat, b: bool): nat -> real { (i: nat) => wt(WithBit(i, j, b)) }

  /** The on-set weights with bit `j` fixed. */
  function Part(f: seq<bool>, n: nat, j: nat, b: bool, wt: nat -> real): real
    requires TableOf(f, n) && j < n
  {
    Total(Cofactor(f, n, j, b), Inserted(wt, j, b), Pow2(n - 1))
  }

  /** The entries are those with bit `j` clear and those with bit `j` set. */
  lemma {:induction false} Reindex(f: seq<bool>, n: nat, j: nat, wt: nat -> real, m: nat)
    requires TableOf(f, n) && j < n && m == |f|
    ensures Total(f, wt, m) == Part(f, n, j, false, wt) + Part(f, n, j, true, wt)
    decreases j
  {
    hide Total;
    var e, o, h := Even(f), Odd(f), Pow2(n - 1);
    TotalPairs(f, wt, h);
    if j == 0 {
      FirstPart(f, n, false, wt, e, Evens(wt), h);
      FirstPart(f, n, true, wt, o, Odds(wt), h);
    } else {
      Reindex(e, n - 1, j - 1, Evens(wt), h);
      Reindex(o, n - 1, j - 1, Odds(wt), h);
      CofactorTotal(f, n, j, false, wt, e, o);
      CofactorTotal(f, n, j, true, wt, e, o);
      Quarters(Total(f, wt, m), Total(e, Evens(wt), h), Total(o, Odds(wt), h),
        Part(e, n - 1, j - 1, false, Evens(wt)), Part(e, n - 1, j - 1, true, Evens(wt)),
               Part(o, n - 1, j - 1, false, Odds(wt)), Part(o, n - 1, j - 1, true, Odds(wt)),
                 Part(f, n, j, false, wt), Part(f, n, j, true, wt));
    }
  }

  lemma {:induction false} Quarters(t: real, e: real, o: real, e0: real, e1: real, o0: real, o1: real, lo: real,
                                    hi: real)
    requires t == e + o && e == e0 + e1 && o == o0 + o1 && lo == e0 + o0 && hi == e1 + o1
    ensures t == lo + hi
  {
  }

  lemma {:induction false} FirstPart(f: seq<bool>, n: nat, b: bool, wt: nat -> real, c: seq<bool>, half: nat -> real,
                                     h: nat)
    requires TableOf(f, n) && n > 0 && h == Pow2(n - 1) && c == (if b then Odd(f) else Even(f))
    requires half == (if b then Odds(wt) else Evens(wt))
    ensures Part(f, n, 0, b, wt) == Total(c, half, h)
  {
    assert Cofactor(f, n, 0, b) == c;
    forall i: nat ensures half(i) == Inserted(wt, 0, b)(i) {
      assert WithBit(i, 0, b) == 2 * i + (if b then 1 else 0);
    }
    TotalCongruent(c, half, Inserted(wt, 0, b), h);
  }

  lemma {:induction false} CofactorTotal(f: seq<bool>, n: nat, j: nat, b: bool, wt: nat -> real, e: seq<bool>,
                                         o: seq<bool>)
    requires TableOf(f, n) && 0 < j < n && e == Even(f) && o == Odd(f)
    ensures Part(f, n, j, b, wt) == Part(e, n - 1, j - 1, b, Evens(wt)) + Part(o, n - 1, j - 1, b, Odds(wt))
  {
    var c, wb, q := Cofactor(f, n, j, b), Inserted(wt, j, b), Pow2(n - 2);
    var we, wo := Inserted(Evens(wt), j - 1, b), Inserted(Odds(wt), j - 1, b);
    TotalPairs(c, wb, q);
    CofactorHalves(f, n, j, b);
    InsertedHalves(wt, j, b, wb, we, wo);
    TotalCongruent(Even(c), Evens(wb), we, q);
    TotalCongruent(Odd(c), Odds(wb), wo, q);
  }

  lemma {:induction false} InsertedHalves(wt: nat -> real, j: nat, b: bool, wb: nat -> real, we: nat -> real,
                                          wo: nat -> real)
    requires j > 0 && wb == Inserted(wt, j, b) && we == Inserted(Evens(wt), j - 1, b)
    requires wo == Inserted(Odds(wt), j - 1, b)
    ensures forall i: nat :: Evens(wb)(i) == we(i) && Odds(wb)(i) == wo(i)
  {
    forall i: nat ensures Evens(wb)(i) == we(i) && Odds(wb)(i) == wo(i) {
      WithBitHalves(i, j, b);
    }
  }

  lemma {:induction false} WithBitHalves(i: nat, j: nat, b: bool)
    requires j > 0
    ensures WithBit(2 * i, j, b) == 2 * WithBit(i, j - 1, b) && WithBit(2 * i + 1, j, b) == 2 * WithBit(i, j - 1, b) + 1
  {
  }

  lemma {:induction false} Commute(x: real, y: real, z: real)
    ensures (x * y) * z == x * (y * z) && x * y == y * x
  {
  }

  function Spliced(s: seq<real>, j: nat, x: real): (r: seq<real>)
    requires j <= |s|
    ensures |r| == |s| + 1
    ensures forall l {:trigger r[l]} :: 0 <= l < |r| ==> r[l] == if l < j then s[l] else if l == j then x else s[l - 1]
  {
    s[..j] + [x] + s[j..]
  }

  lemma {:induction false} ProductSpliced(s: seq<real>, j: nat, x: real)
    requires j <= |s|
    ensures Product(Spliced(s, j, x)) == x * Product(s)
  {
    var r, n := Spliced(s, j, x), |s|;
    if j == n {
      assert r[..n] == s && r[n] == x;
      Commute(Product(s), x, 1.0);
    } else {
      var init := s[..n - 1];
      ProductSpliced(init, j, x);
      assert r[..n] == Spliced(init, j, x) && r[n] == s[n - 1];
      Commute(x, Product(init), s[n - 1]);
    }
  }

  lemma {:induction false} FactorsInsert(p: seq<real>, j: nat, i: nat, b: bool, k: nat, q: seq<real>, x: real)
    requires j < |p| && k == WithBit(i, j, b) && q == Without(p, j) && x == Factor(p[j], b)
    ensures Factors(p, k) == Spliced(Factors(q, i), j, x)
  {
    forall l | 0 <= l < |p| ensures Factors(p, k)[l] == Spliced(Factors(q, i), j, x)[l] { InsertBits(i, j, b, l); }
  }

  /** The weight of a combination is the factor of input `j` times the weight of the rest. */
  lemma {:induction false} TermInsert(p: seq<real>, j: nat, i: nat, b: bool, k: nat, q: seq<real>)
    requires j < |p| && k == WithBit(i, j, b) && q == Without(p, j)
    ensures Term(p, k) == Factor(p[j], b) * Term(q, i)
  {
    var x := Factor(p[j], b);
    FactorsInsert(p, j, i, b, k, q, x);
    ProductSpliced(Factors(q, i), j, x);
  }

  /** Shannon expansion in any input. */
  lemma {:induction false} Shannon(f: seq<bool>, p: seq<real>, j: nat)
    requires TableOf(f, |p|) && j < |p|
    ensures Prob(f, p) == (1.0 - p[j]) * Prob(Cofactor(f, |p|, j, false), Without(p, j))
      + p[j] * Prob(Cofactor(f, |p|, j, true), Without(p, j))
  {
    ShannonAt(f, p, j, Without(p, j), Cofactor(f, |p|, j, false), Cofactor(f, |p|, j, true));
  }

  lemma {:induction false} ShannonAt(f: seq<bool>, p: seq<real>, j: nat, q: seq<real>, lo: seq<bool>, hi: seq<bool>)
    requires TableOf(f, |p|) && j < |p| && q == Without(p, j) && lo == Cofactor(f, |p|, j, false)
    requires hi == Cofactor(f, |p|, j, true)
    ensures Prob(f, p) == Factor(p[j], false) * Prob(lo, q) + Factor(p[j], true) * Prob(hi, q)
  {
    hide Part, TermFn, Factor;
    Reindex(f, |p|, j, TermFn(p), |f|);
    Conditioned(f, p, j, false, q, lo);
    Conditioned(f, p, j, true, q, hi);
  }

  lemma {:induction false} Rejoin(w: real, x: real, y: real)
    requires y == Factor(w, false) * x + Factor(w, true) * x
    ensures x == y
  {
  }

  lemma {:induction false} Conditioned(f: seq<bool>, p: seq<real>, j: nat, b: bool, q: seq<real>, c: seq<bool>)
    requires TableOf(f, |p|) && j < |p| && q == Without(p, j) && c == Cofactor(f, |p|, j, b)
    ensures Part(f, |p|, j, b, TermFn(p)) == Factor(p[j], b) * Prob(c, q)
  {
    hide Factor, Cofactor, Total, Term, Inserted, TermFn;
    InsertedTerms(p, j, b, q, Inserted(TermFn(p), j, b), TermFn(q));
    TotalScale(c, Inserted(TermFn(p), j, b), TermFn(q), Factor(p[j], b), |c|);
  }

  lemma {:induction false} InsertedTerms(p: seq<real>, j: nat, b: bool, q: seq<real>, wt: nat -> real, wt': nat -> real)
    requires j < |p| && q == Without(p, j) && wt == Inserted(TermFn(p), j, b) && wt' == TermFn(q)
    ensures forall i: nat :: wt(i) == Factor(p[j], b) * wt'(i)
  {
    forall i: nat ensures wt(i) == Factor(p[j], b) * wt'(i) { TermInsert(p, j, i, b, WithBit(i, j, b), q); }
  }

  // ----- bounds -----

  lemma {:induction false} ProductNonNegative(s: seq<real>)
    requires forall l :: 0 <= l < |s| ==> 0.0 <= s[l]
    ensures 0.0 <= Product(s)
  {
    if s != [] {
      ProductNonNegative(s[..|s| - 1]);
      NonNegative(Product(s[..|s| - 1]), s[|s| - 1]);
    }
  }

  lemma {:induction false} TermNonNegative(p: seq<real>, k: nat)
    requires Probabilities(p)
    ensures 0.0 <= Term(p, k)
  {
    ProductNonNegative(Factors(p, k));
  }

  /** The constant 1. */
  function Ones(n: nat): (r: seq<bool>)
    ensures TableOf(r, n) && forall i :: 0 <= i < |r| ==> r[i]
  {
    seq(Pow2(n), _ => true)
  }

  lemma {:induction false} OnesHaveAll(p: seq<real>)
    ensures Prob(Ones(|p|), p) == 1.0
    decreases |p|
  {
    var f := Ones(|p|);
    if p == [] {
      assert Total(f, TermFn(p), 1) == Total(f, TermFn(p), 0) + TermFn(p)(0);
    } else {
      OnesHaveAll(p[1..]);
      OnesStep(p, p[1..], f, Ones(|p| - 1));
    }
  }

  lemma {:induction false} OnesStep(p: seq<real>, q: seq<real>, f: seq<bool>, g: seq<bool>)
    requires p != [] && q == p[1..] && f == Ones(|p|) && g == Ones(|q|)
    ensures Prob(f, p) == Prob(g, q)
  {
    hide Prob;
    assert Without(p, 0) == q && Cofactor(f, |p|, 0, false) == g && Cofactor(f, |p|, 0, true) == g;
    ShannonAt(f, p, 0, q, g, g);
    Rejoin(p[0], Prob(g, q), Prob(f, p));
  }

  lemma {:induction false} TotalBounded(f: seq<bool>, p: seq<real>, m: nat)
    requires TableOf(f, |p|) && Probabilities(p) && m <= |f|
    ensures 0.0 <= Total(f, TermFn(p), m) <= Total(Ones(|p|), TermFn(p), m)
  {
    if m > 0 {
      TotalBounded(f, p, m - 1);
      TermNonNegative(p, m - 1);
    }
  }

  /** The result is again a probability. */
  lemma {:induction false} ProbBounded(f: seq<bool>, p: seq<real>)
    requires TableOf(f, |p|) && Probabilities(p)
    ensures Probability(Prob(f, p))
  {
    TotalBounded(f, p, |f|);
    OnesHaveAll(p);
  }

  // ----- the Boolean difference -----

  /** Where flipping input `j` flips the function, over the other inputs. */
  function Difference(f: seq<bool>, n: nat, j: nat): (r: seq<bool>)
    requires TableOf(f, n) && j < n
    ensures TableOf(r, n - 1)
    ensures forall i {:trigger r[i]} :: 0 <= i < |r| ==>
      r[i] == (Cofactor(f, n, j, false)[i] != Cofactor(f, n, j, true)[i])
  {
    seq(Pow2(n - 1), (i: nat) requires i < Pow2(n - 1) => Cofactor(f, n, j, false)[i] != Cofactor(f, n, j, true)[i])
  }

  /** The input combination with input `j` flipped. */
  function Flip(k: nat, j: nat): nat {
    if j == 0 then (if k % 2 == 1 then k - 1 else k + 1) else k % 2 + 2 * Flip(k / 2, j - 1)
  }

  lemma {:induction false} FlipBound(k: nat, j: nat, n: nat)
    requires j < n && k < Pow2(n)
    ensures Flip(k, j) < Pow2(n)
  {
    if j > 0 {
      FlipBound(k / 2, j - 1, n - 1);
      assert k / 2 < Pow2(n - 1);
    } else {
      assert Pow2(n) == 2 * Pow2(n - 1);
    }
  }

  lemma {:induction false} FlipWithBit(i: nat, j: nat, b: bool)
    ensures Flip(WithBit(i, j, b), j) == WithBit(i, j, !b)
  {
    if j > 0 {
      FlipWithBit(i / 2, j - 1, b);
      assert WithBit(i, j, b) == i % 2 + 2 * WithBit(i / 2, j - 1, b);
    }
  }

  /** Flipping changes bit `j` and no other. */
  lemma {:induction false} FlipBits(k: nat, j: nat, l: nat)
    ensures Bit(Flip(k, j), l) == if l == j then !Bit(k, l) else Bit(k, l)
  {
    if j > 0 {
      assert Flip(k, j) / 2 == Flip(k / 2, j - 1) && Flip(k, j) % 2 == k % 2;
      if l > 0 { FlipBits(k / 2, j - 1, l - 1); }
    } else if l > 0 {
      assert Flip(k, j) / 2 == k / 2;
    }
  }

  /** Where flipping input `j` flips the function, over all inputs. */
  function Sensitive(f: seq<bool>, n: nat, j: nat): (r: seq<bool>)
    requires TableOf(f, n) && j < n
    ensures TableOf(r, n)
    ensures forall k: nat {:trigger r[k]} :: k < |r| ==> Flip(k, j) < |f| && r[k] == (f[k] != f[Flip(k, j)])
  {
    assert forall k: nat :: k < Pow2(n) ==> Flip(k, j) < Pow2(n) by {
      forall k: nat | k < Pow2(n) ensures Flip(k, j) < Pow2(n) { FlipBound(k, j, n); }
    }
    seq(Pow2(n), (k: nat) requires k < Pow2(n) => f[k] != f[Flip(k, j)])
  }

  /** The weight of the Boolean difference is exactly the probability that flipping the one input flips the function. */
  lemma {:induction false} DifferenceWeight(f: seq<bool>, p: seq<real>, j: nat)
    requires TableOf(f, |p|) && j < |p|
    ensures Prob(Difference(f, |p|, j), Without(p, j)) == Prob(Sensitive(f, |p|, j), p)
  {
    var s, d, q := Sensitive(f, |p|, j), Difference(f, |p|, j), Without(p, j);
    hide Prob;
    SensitiveCofactor(f, |p|, j, false, s, d);
    SensitiveCofactor(f, |p|, j, true, s, d);
    ShannonAt(s, p, j, q, d, d);
    Rejoin(p[j], Prob(d, q), Prob(s, p));
  }

  lemma {:induction false} SensitiveCofactor(f: seq<bool>, n: nat, j: nat, b: bool, s: seq<bool>, d: seq<bool>)
    requires TableOf(f, n) && j < n && s == Sensitive(f, n, j) && d == Difference(f, n, j)
    ensures Cofactor(s, n, j, b) == d
  {
    var c := Cofactor(s, n, j, b);
    forall i: nat | i < |d| ensures c[i] == d[i] {
      FlipWithBit(i, j, b);
      InsertBound(i, j, n);
      assert Cofactor(f, n, j, false)[i] == f[WithBit(i, j, false)]
        && Cofactor(f, n, j, true)[i] == f[WithBit(i, j, true)];
    }
  }

  // ----- the insertion is a bijection -----

  /** Inserting keeps the other bits in order and clears bit `j`. */
  lemma {:induction false} InsertBits(i: nat, j: nat, b: bool, l: nat)
    ensures Bit(WithBit(i, j, b), l) == if l < j then Bit(i, l) else if l == j then b else Bit(i, l - 1)
  {
    var k := WithBit(i, j, b);
    if j == 0 {
      assert k % 2 == (if b then 1 else 0) && k / 2 == i;
    } else {
      assert k == i % 2 + 2 * WithBit(i / 2, j - 1, b);
      if l > 0 { InsertBits(i / 2, j - 1, b, l - 1); }
    }
  }

  /** The index with bit `j` taken out. */
  function Remove(k: nat, j: nat): nat {
    if j == 0 then k / 2 else k % 2 + 2 * Remove(k / 2, j - 1)
  }

  lemma {:induction false} RemoveBound(k: nat, j: nat, n: nat)
    requires j < n && k < Pow2(n)
    ensures Remove(k, j) < Pow2(n - 1)
  {
    if j > 0 { RemoveBound(k / 2, j - 1, n - 1); }
  }

  /** The lowest bit stays where it is when a bit is inserted further up. */
  lemma {:induction false} InsertStep(i: nat, j: nat, b: bool)
    requires j > 0
    ensures WithBit(i, j, b) / 2 == WithBit(i / 2, j - 1, b) && WithBit(i, j, b) % 2 == i % 2
  {
    assert WithBit(i, j, b) == i % 2 + 2 * WithBit(i / 2, j - 1, b);
  }

  lemma {:induction false} RemoveInsert(i: nat, j: nat, b: bool)
    ensures Remove(WithBit(i, j, b), j) == i
  {
    if j > 0 {
      InsertStep(i, j, b);
      RemoveInsert(i / 2, j - 1, b);
    }
  }

  /** Every full index is reached exactly once: from its own bit `j` and what is left without it. */
  lemma {:induction false} InsertOnto(k: nat, j: nat, n: nat)
    requires j < n && k < Pow2(n)
    ensures Remove(k, j) < Pow2(n - 1) && WithBit(Remove(k, j), j, Bit(k, j)) == k
    ensures forall i: nat, b: bool {:trigger WithBit(i, j, b)} :: WithBit(i, j, b) == k ==>
      i == Remove(k, j) && b == Bit(k, j)
  {
    RemoveBound(k, j, n);
    InsertRemove(k, j);
    forall i: nat, b: bool | WithBit(i, j, b) == k ensures i == Remove(k, j) && b == Bit(k, j) {
      RemoveInsert(i, j, b);
      InsertBits(i, j, b, j);
    }
  }

  lemma {:induction false} InsertRemove(k: nat, j: nat)
    ensures WithBit(Remove(k, j), j, Bit(k, j)) == k
  {
    if j > 0 {
      InsertRemove(k / 2, j - 1);
      var i := Remove(k, j);
      assert i / 2 == Remove(k / 2, j - 1) && i % 2 == k % 2;
    }
  }
}
