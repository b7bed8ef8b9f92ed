/** The wired array computes the product the node computed. */
module MultiplierMeaning {
  import opened Wrappers
  import opened Bits
  import opened Semantics
  import opened Runs
  import opened Netlists
  import opened RippleCells
  import opened Growth
  import opened MultiplierCells
  import opened MultiplierWiring
  import PB = ProductBits

  lemma {:induction false} ZeroTail(x: seq<bool>, k: nat)
    requires forall i :: 0 <= i < |x| && i >= k ==> !x[i]
    requires k <= |x|
    ensures ToNat(x) == ToNat(x[..k])
  {
    assert x == x[..k] + x[k..];
    ToNatConcat(x[..k], x[k..]);
    AllZero(x[k..]);
    ShiftOne(k);
  }

  lemma {:induction false} AllZero(x: seq<bool>)
    requires forall i :: 0 <= i < |x| ==> !x[i]
    ensures ToNat(x) == 0
  {
    if x != [] { AllZero(x[1..]); }
  }

  function BitsA(c: Cell, v: Valuation): (r: seq<bool>)
    requires MultNode(c)
    ensures |r| == WidthA(c)
  {
    Vals(PortA(c), v)
  }

  function BitsB(c: Cell, v: Valuation): (r: seq<bool>)
    requires MultNode(c)
    ensures |r| == WidthB(c)
  {
    Vals(PortB(c), v)
  }

  /** A gate puts its partial product on its net. */
  lemma {:induction false} GateValue(x: Cell, c: Cell, k: nat, l: nat, v: Valuation, e: nat)
    requires MultNode(c) && k < WidthB(c) && l < WidthA(c) && GateLike(x, c.ins[WidthA(c) + k], c.ins[l])
    requires x.outs == [Some(e)]
    ensures Holds(x, v) <==> v(e) == PB.Row(BitsA(c, v), BitsB(c, v)[k])[l]
  {
    var vals := Vals(x.ins, v);
    assert vals[0] == BitsB(c, v)[k] && vals[1] == BitsA(c, v)[l];
    assert All(vals) == (vals[0] && vals[1]);
    OutputsAre(x, v, [All(vals)]);
    assert x.outs[0].Some?;
  }

  ghost predicate GatesHold(cells: seq<Cell>, p: Array, v: Valuation) {
    && (forall k, l {:trigger p.pps[k][l]} :: HasPp(p, k, l) ==> p.pps[k][l] < |cells| && Holds(cells[p.pps[k][l]], v))
    && (forall k {:trigger p.adders[k]} :: 0 <= k < |p.adders| ==>
      p.adders[k] < |cells| && Holds(cells[p.adders[k]], v))
  }

  /** The sum word of adder `k`. */
  function Word(cells: seq<Cell>, p: Array, k: nat, v: Valuation): seq<bool>
    requires k < |p.adders| && p.adders[k] < |cells|
  {
    var x := cells[p.adders[k]];
    Outputs(x.kind, x.inPorts, Vals(x.ins, v), |x.outs|)
  }

  lemma {:induction false} AdderPorts(x: Cell, a: nat, v: Valuation)
    requires AdderLike(x, a)
    ensures Outputs(x.kind, x.inPorts, Vals(x.ins, v), |x.outs|)
      == ToBits(ToNat(Vals(x.ins, v)[..a + 1]) + ToNat(Vals(x.ins, v)[a + 1..]), a + 1)
  {
    PortValues(x, v);
    assert PortA(x) == x.ins[..a + 1] && PortB(x) == x.ins[a + 1..];
    assert Vals(PortA(x), v) == Vals(x.ins, v)[..a + 1] && Vals(PortB(x), v) == Vals(x.ins, v)[a + 1..];
  }

  /** The bit that belongs on input slot `s` of adder `k`. */
  function SlotBit(A: seq<bool>, B: seq<bool>, k: nat, s: nat): bool
    requires |A| >= 1 && k + 1 < |B|
  {
    if s < |A| + 1 then s < |PB.Above(A, B, k)| && PB.Above(A, B, k)[s]
    else s - |A| - 1 < |A| && PB.Row(A, B[k + 1])[s - |A| - 1]
  }

  /** A slot fed by gate (i, l). */
  lemma {:induction false} GateSlot(cells: seq<Cell>, c: Cell, p: Array, i: nat, l: nat, v: Valuation, e: Option<nat>)
    requires MultNode(c) && Shapes(cells, c, p) && GatesHold(cells, p, v) && HasPp(p, i, l) && i < WidthB(c)
    requires l < WidthA(c)
    requires e.Some? && e == NetAt(cells, Some((p.pps[i][l], 0)), 0)
    ensures Val(e, v) == PB.Row(BitsA(c, v), BitsB(c, v)[i])[l]
  {
    var x := cells[p.pps[i][l]];
    assert GateLike(x, c.ins[WidthA(c) + i], c.ins[l]);
    assert x.outs == [Some(e.value)];
    GateValue(x, c, i, l, v, e.value);
  }

  /** A slot fed by the previous adder. */
  lemma {:induction false} ChainSlot(cells: seq<Cell>, c: Cell, p: Array, k: nat, s: nat, v: Valuation, e: Option<nat>)
    requires MultNode(c) && Wide(p, WidthA(c), WidthB(c)) && Shapes(cells, c, p) && GatesHold(cells, p, v)
    requires 0 < k < WidthB(c) - 1 && s < WidthA(c)
    requires e.Some? && e == NetAt(cells, Some((p.adders[k - 1], s + 1)), 0)
    requires Word(cells, p, k - 1, v) == PB.Stage(BitsA(c, v), BitsB(c, v), k - 1)
    ensures Val(e, v) == PB.Stage(BitsA(c, v), BitsB(c, v), k - 1)[s + 1]
  {
    AdderOut(cells, p, k - 1, s + 1, v, WidthA(c));
  }

  /** The bit of the slot, by where the slot is fed from. */
  lemma {:induction false} BitOfSource(A: seq<bool>, B: seq<bool>, p: Array, k: nat, s: nat, src: Option<(nat, nat)>)
    requires |A| >= 1 && k + 1 < |B| && s < 2 * |A| + 2 && Wide(p, |A|, |B|) && src == Source(p, |A|, k, s)
    ensures src.None? ==> !SlotBit(A, B, k, s)
    ensures src.Some? && s >= |A| + 1 ==>
      s - |A| - 1 < |A| && src == Some((p.pps[k + 1][s - |A| - 1], 0))
        && SlotBit(A, B, k, s) == PB.Row(A, B[k + 1])[s - |A| - 1]
    ensures src.Some? && s < |A| + 1 && k == 0 ==>
      s + 1 < |A| && src == Some((p.pps[0][s + 1], 0)) && SlotBit(A, B, k, s) == PB.Row(A, B[0])[s + 1]
    ensures src.Some? && s < |A| + 1 && k > 0 ==>
      s < |A| && src == Some((p.adders[k - 1], s + 1)) && SlotBit(A, B, k, s) == PB.Stage(A, B, k - 1)[s + 1]
  {
  }

  lemma {:induction false} RowSlot(cells: seq<Cell>, c: Cell, p: Array, i: nat, l: nat, v: Valuation, e: Option<nat>,
                                   src: Option<(nat, nat)>)
    requires MultNode(c) && Wide(p, WidthA(c), WidthB(c)) && Shapes(cells, c, p) && GatesHold(cells, p, v)
    requires i < WidthB(c) && l < WidthA(c)
    requires src == Some((p.pps[i][l], 0)) && e.Some? && e == NetAt(cells, src, 0)
    ensures Val(e, v) == PB.Row(BitsA(c, v), BitsB(c, v)[i])[l]
  {
    assert HasPp(p, i, l);
    GateSlot(cells, c, p, i, l, v, e);
  }

  /** What reaches input slot `s` of adder `k`, `e` being the net of its source. */
  lemma {:induction false} SlotValue(cells: seq<Cell>, c: Cell, p: Array, zero: nat, k: nat, s: nat, v: Valuation,
                                     e: Option<nat>, src: Option<(nat, nat)>)
    requires MultNode(c) && Wide(p, WidthA(c), WidthB(c)) && Shapes(cells, c, p) && GatesHold(cells, p, v) && !v(zero)
    requires k < WidthB(c) - 1 && s < 2 * WidthA(c) + 2 && src == Source(p, WidthA(c), k, s) && e.Some?
    requires e == NetAt(cells, src, zero)
    requires k > 0 ==> Word(cells, p, k - 1, v) == PB.Stage(BitsA(c, v), BitsB(c, v), k - 1)
    ensures Val(e, v) == SlotBit(BitsA(c, v), BitsB(c, v), k, s)
  {
    hide Wide, Shapes, Word;
    var a := WidthA(c);
    BitOfSource(BitsA(c, v), BitsB(c, v), p, k, s, src);
    if src.None? {
    } else if s >= a + 1 {
      RowSlot(cells, c, p, k + 1, s - a - 1, v, e, src);
    } else if k == 0 {
      RowSlot(cells, c, p, 0, s + 1, v, e, src);
    } else {
      ChainSlot(cells, c, p, k, s, v, e);
    }
  }

  /** A connected sum bit carries the word. */
  lemma {:induction false} AdderOut(cells: seq<Cell>, p: Array, k: nat, t: nat, v: Valuation, a: nat)
    requires k < |p.adders| && p.adders[k] < |cells| && AdderLike(cells[p.adders[k]], a) && Holds(cells[p.adders[k]], v)
    requires t < a + 1
    ensures |Word(cells, p, k, v)| == a + 1
    ensures cells[p.adders[k]].outs[t].Some? ==> v(cells[p.adders[k]].outs[t].value) == Word(cells, p, k, v)[t]
  {
    AdderPorts(cells[p.adders[k]], a, v);
  }

  /** Every adder computes its stage. */
  lemma {:induction false} AdderStage(cells: seq<Cell>, c: Cell, p: Array, zero: nat, k: nat, v: Valuation)
    requires MultNode(c) && Wide(p, WidthA(c), WidthB(c)) && Shapes(cells, c, p) && GatesHold(cells, p, v) && !v(zero)
    requires forall k: nat, s: nat {:trigger SlotDone(cells, p, WidthA(c), WidthB(c), zero, k, s)} ::
      k < WidthB(c) - 1 && s < 2 * WidthA(c) + 2 ==> SlotDone(cells, p, WidthA(c), WidthB(c), zero, k, s)
    requires k < WidthB(c) - 1
    ensures Word(cells, p, k, v) == PB.Stage(BitsA(c, v), BitsB(c, v), k)
  {
    hide Outputs;
    var a, b := WidthA(c), WidthB(c);
    var A, B, x := BitsA(c, v), BitsB(c, v), cells[p.adders[k]];
    if k > 0 { AdderStage(cells, c, p, zero, k - 1, v); }
    var vals := Vals(x.ins, v);
    forall s: nat | s < 2 * a + 2 ensures vals[s] == SlotBit(A, B, k, s) {
      assert SlotDone(cells, p, a, b, zero, k, s);
      SlotValue(cells, c, p, zero, k, s, v, x.ins[s], Source(p, a, k, s));
    }
    WordFromSlots(x, A, B, k, v);
  }

  lemma {:induction false} WordFromSlots(x: Cell, A: seq<bool>, B: seq<bool>, k: nat, v: Valuation)
    requires |A| >= 1 && k + 1 < |B| && AdderLike(x, |A|)
    requires forall s: nat :: s < 2 * |A| + 2 ==> Vals(x.ins, v)[s] == SlotBit(A, B, k, s)
    ensures Outputs(x.kind, x.inPorts, Vals(x.ins, v), |x.outs|) == PB.Stage(A, B, k)
  {
    AdderPorts(x, |A|, v);
    StageFromSlots(A, B, k, Vals(x.ins, v));
  }

  lemma {:induction false} StageFromSlots(A: seq<bool>, B: seq<bool>, k: nat, vals: seq<bool>)
    requires |A| >= 1 && k + 1 < |B| && |vals| == 2 * |A| + 2
    requires forall s: nat :: s < |vals| ==> vals[s] == SlotBit(A, B, k, s)
    ensures ToBits(ToNat(vals[..|A| + 1]) + ToNat(vals[|A| + 1..]), |A| + 1) == PB.Stage(A, B, k)
  {
    var lo, hi, up := vals[..|A| + 1], vals[|A| + 1..], PB.Above(A, B, k);
    AboveWidth(A, B, k);
    assert forall s: nat {:trigger lo[s]} :: s < |lo| ==> lo[s] == (s < |up| && up[s]);
    assert forall s: nat {:trigger hi[s]} :: s < |hi| ==> hi[s] == (s < |A| && PB.Row(A, B[k + 1])[s]);
    ZeroTail(lo, |up|);
    assert lo[..|up|] == up;
    ZeroTail(hi, |A|);
    assert hi[..|A|] == PB.Row(A, B[k + 1]);
  }

  lemma {:induction false} AboveWidth(A: seq<bool>, B: seq<bool>, k: nat)
    requires |A| >= 1 && k + 1 < |B|
    ensures |PB.Above(A, B, k)| <= |A|
  {
  }

  // ----- moving the outputs -----

  /** Where output pin `i` of the node goes. */
  function Target(p: Array, b: nat, i: nat): (nat, nat)
    requires b >= 2 && |p.adders| == b - 1 && p.pps != [] && p.pps[0] != []
  {
    if i == 0 then (p.pps[0][0], 0)
    else if i < b - 1 then (p.adders[i - 1], 0)
    else (p.adders[b - 2], i - (b - 1))
  }

  /** The bit that belongs there. */
  lemma {:induction false} TargetBit(A: seq<bool>, B: seq<bool>, i: nat)
    requires |A| >= 1 && |B| >= 2 && i < |A| + |B|
    ensures PB.Product(A, B)[i] ==
      if i == 0 then PB.Row(A, B[0])[0]
      else if i < |B| - 1 then PB.Stage(A, B, i - 1)[0]
      else PB.Stage(A, B, |B| - 2)[i - (|B| - 1)]
  {
    if i < |B| - 1 { PB.ProductAt(A, B, |B| - 2, i); }
  }

  /** The word of the cell output `i` goes to, and the adder if it is one. */
  lemma {:induction false} TargetStage(p: Array, A: seq<bool>, B: seq<bool>, i: nat) returns (word: seq<bool>, k: nat)
    requires |A| >= 1 && |B| >= 2 && |p.adders| == |B| - 1 && p.pps != [] && p.pps[0] != [] && i < |A| + |B|
    ensures i == 0 ==> word == [PB.Row(A, B[0])[0]] && Target(p, |B|, i).0 == p.pps[0][0]
    ensures i > 0 ==> k < |B| - 1 && word == PB.Stage(A, B, k) && Target(p, |B|, i).0 == p.adders[k]
    ensures Target(p, |B|, i).1 < |word| && word[Target(p, |B|, i).1] == PB.Product(A, B)[i]
  {
    TargetBit(A, B, i);
    k := if i < |B| - 1 && i > 0 then i - 1 else |B| - 2;
    word := if i == 0 then [PB.Row(A, B[0])[0]] else PB.Stage(A, B, k);
  }

  lemma {:induction false} NodeMeaning(c: Cell, v: Valuation)
    requires MultNode(c) && WidthB(c) >= 2
    ensures Holds(c, v) <==> forall i {:trigger c.outs[i]} :: 0 <= i < |c.outs| ==>
      v(c.outs[i].value) == PB.Product(BitsA(c, v), BitsB(c, v))[i]
  {
    hide PortOf;
    PortValues(c, v);
    PB.ArrayMultiplies(BitsA(c, v), BitsB(c, v));
    OutputsAre(c, v, PB.Product(BitsA(c, v), BitsB(c, v)));
  }
}
