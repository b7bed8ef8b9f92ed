/** The arithmetic of the array multiplier: rows of partial products added one after the other, one bit falling out
    at the bottom of every stage. */
module ProductBits {
  import opened Bits

  /** The partial products of one bit of B. */
  function Row(a: seq<bool>, b: bool): (r: seq<bool>)
    ensures |r| == |a|
    ensures forall j {:trigger r[j]} :: 0 <= j < |a| ==> r[j] == (b && a[j])
  {
    seq(|a|, (j: nat) requires j < |a| => b && a[j])
  }

  /** What stage `i` adds its row to: the previous sum without its low bit. */
  function Above(a: seq<bool>, b: seq<bool>, i: nat): (r: seq<bool>)
    requires |a| >= 1 && i + 1 < |b|
    decreases i, 0
  {
    if i == 0 then Row(a, b[0])[1..] else Stage(a, b, i - 1)[1..]
  }

  /** The sum bits of adder `i`. */
  function Stage(a: seq<bool>, b: seq<bool>, i: nat): (r: seq<bool>)
    requires |a| >= 1 && i + 1 < |b|
    ensures |r| == |a| + 1
    decreases i, 1
  {
    ToBits(ToNat(Above(a, b, i)) + ToNat(Row(a, b[i + 1])), |a| + 1)
  }

  /** The bits that have fallen out below stage `i`. */
  function Fallen(a: seq<bool>, b: seq<bool>, i: nat): (r: seq<bool>)
    requires |a| >= 1 && i + 1 < |b|
    ensures |r| == i + 1
  {
    if i == 0 then [Row(a, b[0])[0]] else Fallen(a, b, i - 1) + [Stage(a, b, i - 1)[0]]
  }

  /** All output bits of the multiplier. */
  function Product(a: seq<bool>, b: seq<bool>): (r: seq<bool>)
    requires |a| >= 1 && |b| >= 2
    ensures |r| == |a| + |b|
  {
    Fallen(a, b, |b| - 2) + Stage(a, b, |b| - 2)
  }

  lemma {:induction false} ProductAt(a: seq<bool>, b: seq<bool>, i: nat, k: nat)
    requires |a| >= 1 && i + 1 < |b| && k <= i
    ensures Fallen(a, b, i)[k] == if k == 0 then Row(a, b[0])[0] else Stage(a, b, k - 1)[0]
  {
    if k < i { ProductAt(a, b, i - 1, k); }
  }

  lemma {:induction false} RowValue(a: seq<bool>, b: bool)
    ensures ToNat(Row(a, b)) == if b then ToNat(a) else 0
  {
    if a != [] {
      RowValue(a[1..], b);
      assert Row(a, b)[1..] == Row(a[1..], b);
    }
  }

  lemma {:induction false} Pow2Step(n: nat)
    ensures Pow2(n + 1) == 2 * Pow2(n)
  {
  }

  /** No adder overflows its |a| + 1 bits. */
  lemma {:induction false} StageFits(a: seq<bool>, b: seq<bool>, i: nat)
    requires |a| >= 1 && i + 1 < |b|
    ensures ToNat(Stage(a, b, i)) == ToNat(Above(a, b, i)) + ToNat(Row(a, b[i + 1]))
  {
    hide Row;
    ToNatBound(Above(a, b, i));
    ToNatBound(Row(a, b[i + 1]));
    Pow2Monotone(|Above(a, b, i)|, |a|);
    Pow2Step(|a|);
    ToBitsExact(ToNat(Above(a, b, i)) + ToNat(Row(a, b[i + 1])), |a| + 1);
  }

  lemma {:induction false} LowBit(x: seq<bool>)
    requires x != []
    ensures ToNat(x) == BoolToNat(x[0]) + 2 * ToNat(x[1..])
  {
  }

  /** The product of A and one more bit of B. */
  lemma {:induction false} PrefixProduct(a: seq<bool>, b: seq<bool>, k: nat)
    requires k < |b|
    ensures ToNat(a) * ToNat(b[..k + 1]) == ToNat(a) * ToNat(b[..k]) + Shift(ToNat(Row(a, b[k])), k)
  {
    SplitLast(b, k + 1);
    RowValue(a, b[k]);
    ShiftIsProduct(BoolToNat(b[k]), k);
    ShiftIsProduct(ToNat(Row(a, b[k])), k);
    var n, m, p := ToNat(a), ToNat(b[..k]), Pow2(k);
    assert ToNat(b[..k + 1]) == m + BoolToNat(b[k]) * p;
    if b[k] { DistributeInt(n, m, p); } else { assert n * (m + 0) == n * m; }
  }

  lemma {:induction false} DistributeInt(n: int, m: int, p: int)
    ensures n * (m + 1 * p) == n * m + n * p
  {
  }

  /** After stage `i` the fallen bits and the stage hold the product of A and the low i + 2 bits of B. */
  lemma {:induction false} StageProduct(a: seq<bool>, b: seq<bool>, i: nat)
    requires |a| >= 1 && i + 1 < |b|
    ensures ToNat(Fallen(a, b, i)) + Shift(ToNat(Stage(a, b, i)), i + 1) == ToNat(a) * ToNat(b[..i + 2])
  {
    hide Stage;
    StageFits(a, b, i);
    PrefixProduct(a, b, i + 1);
    ShiftAdd(ToNat(Above(a, b, i)), ToNat(Row(a, b[i + 1])), i + 1);
    if i == 0 {
      FirstRow(a, b);
    } else {
      StageProduct(a, b, i - 1);
      FallenStep(a, b, i);
    }
  }

  lemma {:induction false} FirstRow(a: seq<bool>, b: seq<bool>)
    requires |a| >= 1 && |b| >= 2
    ensures ToNat(Fallen(a, b, 0)) + Shift(ToNat(Above(a, b, 0)), 1) == ToNat(a) * ToNat(b[..1])
  {
    var r := Row(a, b[0]);
    LowBit(r);
    RowValue(a, b[0]);
    assert b[..1] == [b[0]] && [b[0]][1..] == [];
    assert ToNat(b[..1]) == BoolToNat(b[0]);
    assert [r[0]][1..] == [];
    assert ToNat([r[0]]) == BoolToNat(r[0]);
    assert Shift(ToNat(Above(a, b, 0)), 1) == 2 * Shift(ToNat(Above(a, b, 0)), 0);
  }

  /** The low bit of the previous stage falls out, the rest moves on. */
  lemma {:induction false} FallenStep(a: seq<bool>, b: seq<bool>, i: nat)
    requires |a| >= 1 && 0 < i && i + 1 < |b|
    ensures ToNat(Fallen(a, b, i)) + Shift(ToNat(Above(a, b, i)), i + 1)
         == ToNat(Fallen(a, b, i - 1)) + Shift(ToNat(Stage(a, b, i - 1)), i)
  {
    var s := Stage(a, b, i - 1);
    ToNatConcat(Fallen(a, b, i - 1), [s[0]]);
    assert [s[0]][1..] == [];
    assert ToNat([s[0]]) == BoolToNat(s[0]);
    LowBit(s);
    ShiftAdd(BoolToNat(s[0]), 2 * ToNat(s[1..]), i);
    ShiftDouble(ToNat(s[1..]), i);
  }

  lemma {:induction false} ShiftDouble(k: int, w: nat)
    ensures Shift(2 * k, w) == Shift(k, w + 1)
  {
    if w > 0 { ShiftDouble(k, w - 1); }
  }

  /** The array computes the product, in full, for all widths of A and every width of B from 2. */
  lemma {:induction false} ArrayMultiplies(a: seq<bool>, b: seq<bool>)
    requires |a| >= 1 && |b| >= 2
    ensures Product(a, b) == ToBits(ToNat(a) * ToNat(b), |a| + |b|)
  {
    hide Fallen;
    var i := |b| - 2;
    StageProduct(a, b, i);
    assert b[..i + 2] == b;
    ToNatConcat(Fallen(a, b, i), Stage(a, b, i));
    ShiftOne(|a| + |b|);
    ToBitsUnique(Product(a, b), ToNat(a) * ToNat(b), 0);
  }
}
