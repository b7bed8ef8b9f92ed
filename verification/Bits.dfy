/** Options, used where the source has a null pointer. */
module Wrappers {
  datatype Option<+T> = None | Some(value: T)
}

/** Bit vectors, least significant bit first, as every pin list of the netlist is ordered. */
module Bits {

  /** `k` times 2^w. */
  function Shift(k: int, w: nat): int {
    if w == 0 then k else 2 * Shift(k, w - 1)
  }

  function Pow2(n: nat): (p: nat)
    ensures p >= 1
  {
    if n == 0 then 1 else 2 * Pow2(n - 1)
  }

  function BoolToNat(b: bool): (n: nat) {
    if b then 1 else 0
  }

  /** The unsigned value of a bit list. */
  function ToNat(bits: seq<bool>): nat {
    if bits == [] then 0 else BoolToNat(bits[0]) + 2 * ToNat(bits[1..])
  }

  /** The `w` low bits of a number, in two's complement if it is negative. */
  function ToBits(x: int, w: nat): (bits: seq<bool>)
    ensures |bits| == w
    decreases w
  {
    if w == 0 then [] else [x % 2 == 1] + ToBits(x / 2, w - 1)
  }

  /** Zero-extension or truncation to `w` bits. */
  function Resize(bits: seq<bool>, w: nat): (r: seq<bool>)
    ensures |r| == w
    ensures forall i {:trigger r[i]} :: 0 <= i < w ==> r[i] == (i < |bits| && bits[i])
  {
    seq(w, (i: nat) => i < |bits| && bits[i])
  }

  function Not(bits: seq<bool>): (r: seq<bool>)
    ensures |r| == |bits|
    ensures forall i {:trigger r[i]} :: 0 <= i < |r| ==> r[i] == !bits[i]
  {
    seq(|bits|, (i: nat) requires i < |bits| => !bits[i])
  }

  lemma {:induction false} ShiftAdd(a: int, b: int, w: nat)
    ensures Shift(a + b, w) == Shift(a, w) + Shift(b, w)
  {
    if w != 0 { ShiftAdd(a, b, w - 1); }
  }

  lemma {:induction false} ShiftOne(w: nat)
    ensures Shift(1, w) == Pow2(w) && Shift(0, w) == 0
  {
    if w != 0 { ShiftOne(w - 1); }
  }

  lemma {:induction false} ShiftShift(k: int, a: nat, b: nat)
    ensures Shift(k, a + b) == Shift(Shift(k, b), a)
  {
    if a != 0 { ShiftShift(k, a - 1, b); }
  }

  lemma {:induction false} ShiftIsProduct(k: int, w: nat)
    ensures Shift(k, w) == k * Pow2(w)
  {
    if w != 0 {
      ShiftIsProduct(k, w - 1);
      DoubleProduct(k, Pow2(w - 1));
    }
  }

  lemma {:induction false} DoubleProduct(k: int, p: int)
    ensures 2 * (k * p) == k * (2 * p)
  {
  }

  lemma {:induction false} ToNatBound(bits: seq<bool>)
    ensures ToNat(bits) < Pow2(|bits|)
  {
    if bits != [] { ToNatBound(bits[1..]); }
  }

  lemma {:induction false} Pow2Monotone(a: nat, b: nat)
    requires a <= b
    ensures Pow2(a) <= Pow2(b)
  {
    if a < b { Pow2Monotone(a, b - 1); }
  }

  /** Splitting a bit list splits its value. */
  lemma {:induction false} ToNatConcat(a: seq<bool>, b: seq<bool>)
    ensures ToNat(a + b) == ToNat(a) + Shift(ToNat(b), |a|)
  {
    if a == [] {
      assert a + b == b;
    } else {
      ToNatConcat(a[1..], b);
      assert (a + b)[1..] == a[1..] + b;
    }
  }

  /** A bit list is `ToBits` of every number that agrees with its value modulo 2^w. */
  lemma {:induction false} ToBitsUnique(bits: seq<bool>, x: int, k: int)
    requires x == ToNat(bits) + Shift(k, |bits|)
    ensures bits == ToBits(x, |bits|)
  {
    if bits != [] {
      ToBitsUnique(bits[1..], ToNat(bits[1..]) + Shift(k, |bits| - 1), k);
      assert bits == [bits[0]] + bits[1..];
    }
  }

  lemma {:induction false} ToBitsCongruent(x: int, y: int, w: nat, k: int)
    requires x == y + Shift(k, w)
    ensures ToBits(x, w) == ToBits(y, w)
    decreases w
  {
    if w != 0 {
      ToBitsCongruent(x / 2, y / 2, w - 1, k);
    }
  }

  /** `ToBits` of a small number loses nothing. */
  lemma {:induction false} ToBitsExact(x: nat, w: nat)
    requires x < Pow2(w)
    ensures ToNat(ToBits(x, w)) == x
  {
    if w != 0 {
      ToBitsExact(x / 2, w - 1);
      assert ToBits(x, w)[1..] == ToBits(x / 2, w - 1);
    }
  }

  lemma {:induction false} ToNatInjective(a: seq<bool>, b: seq<bool>)
    requires |a| == |b|
    ensures ToNat(a) == ToNat(b) <==> a == b
  {
    if a != [] {
      ToNatInjective(a[1..], b[1..]);
      if ToNat(a) == ToNat(b) {
        assert a[0] == b[0];
        assert a == [a[0]] + a[1..] && b == [b[0]] + b[1..];
      }
    }
  }

  /** Resizing keeps the value modulo 2^w. */
  lemma {:induction false} ResizeValue(bits: seq<bool>, w: nat) returns (cut: nat)
    ensures ToNat(bits) == ToNat(Resize(bits, w)) + Shift(cut, w)
    ensures |bits| <= w ==> cut == 0
  {
    if w == 0 {
      cut := ToNat(bits);
    } else {
      var rest := if bits == [] then [] else bits[1..];
      cut := ResizeValue(rest, w - 1);
      assert Resize(bits, w)[1..] == Resize(rest, w - 1);
    }
  }

  /** One's complement: all ones minus the value. */
  lemma {:induction false} NotValue(bits: seq<bool>)
    ensures ToNat(Not(bits)) + ToNat(bits) == Shift(1, |bits|) - 1
  {
    if bits != [] {
      NotValue(bits[1..]);
      assert Not(bits)[1..] == Not(bits[1..]);
    }
  }

  /** The value of bit `b` at position `k`. */
  function Weight(b: bool, k: nat): (n: int) {
    Shift(BoolToNat(b), k)
  }

  lemma {:induction false} SplitLast(x: seq<bool>, k: nat)
    requires 0 < k <= |x|
    ensures ToNat(x[..k]) == ToNat(x[..k - 1]) + Weight(x[k - 1], k - 1)
  {
    assert x[..k] == x[..k - 1] + [x[k - 1]];
    ToNatConcat(x[..k - 1], [x[k - 1]]);
    assert [x[k - 1]][1..] == [];
    assert ToNat([x[k - 1]]) == BoolToNat(x[k - 1]);
  }
}
