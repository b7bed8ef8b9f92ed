/** Ripple chains of sum and carry cells: what they compute, and the cells `instantiate_add_w_carry`,
    `instantiate_sub_w_carry` and `instantiate_unary_sub` leave behind. */
module RippleCells {
  import opened Wrappers
  import opened Bits
  import opened Semantics
  import opened Runs
  import opened Netlists

  predicate Maj(a: bool, b: bool, c: bool) { (a && b) || (a && c) || (b && c) }

  predicate Xor3(a: bool, b: bool, c: bool) { (a != b) != c }

  /** The carry into position `i`. */
  predicate CarryAt(a: seq<bool>, b: seq<bool>, cin: bool, i: nat)
    requires i <= |a| == |b|
  {
    if i == 0 then cin else Maj(a[i - 1], b[i - 1], CarryAt(a, b, cin, i - 1))
  }

  function SumBits(a: seq<bool>, b: seq<bool>, cin: bool): (s: seq<bool>)
    requires |a| == |b|
    ensures |s| == |a|
    ensures forall i {:trigger s[i]} :: 0 <= i < |a| ==> s[i] == Xor3(a[i], b[i], CarryAt(a, b, cin, i))
  {
    seq(|a|, (i: nat) requires i < |a| => Xor3(a[i], b[i], CarryAt(a, b, cin, i)))
  }

  /** After `k` positions the sum bits and the carry hold the sum of the low `k` bits. */
  lemma {:induction false} RippleSum(a: seq<bool>, b: seq<bool>, cin: bool, k: nat)
    requires k <= |a| == |b|
    ensures ToNat(SumBits(a, b, cin)[..k]) + Weight(CarryAt(a, b, cin, k), k)
         == ToNat(a[..k]) + ToNat(b[..k]) + Weight(cin, 0)
  {
    if k != 0 {
      var s := SumBits(a, b, cin);
      RippleSum(a, b, cin, k - 1);
      SplitLast(s, k);
      SplitLast(a, k);
      SplitLast(b, k);
      FullAdder(a[k - 1], b[k - 1], CarryAt(a, b, cin, k - 1), k - 1);
    }
  }

  lemma {:induction false} FullAdder(a: bool, b: bool, c: bool, k: nat)
    ensures Weight(Xor3(a, b, c), k) + Weight(Maj(a, b, c), k + 1) == Weight(a, k) + Weight(b, k) + Weight(c, k)
  {
    if k != 0 { FullAdder(a, b, c, k - 1); }
  }

  /** A ripple chain as wide as its operands adds modulo 2^w. */
  lemma {:induction false} RippleAdds(a: seq<bool>, b: seq<bool>, cin: bool)
    requires |a| == |b|
    ensures SumBits(a, b, cin) == ToBits(ToNat(a) + ToNat(b) + Weight(cin, 0), |a|)
  {
    RippleTotal(a, b, cin);
    LowBits(SumBits(a, b, cin), CarryAt(a, b, cin, |a|), ToNat(a) + ToNat(b) + Weight(cin, 0));
  }

  lemma {:induction false} RippleTotal(a: seq<bool>, b: seq<bool>, cin: bool)
    requires |a| == |b|
    ensures ToNat(SumBits(a, b, cin)) + Weight(CarryAt(a, b, cin, |a|), |a|) == ToNat(a) + ToNat(b) + Weight(cin, 0)
  {
    RippleSum(a, b, cin, |a|);
    assert SumBits(a, b, cin)[..|a|] == SumBits(a, b, cin) && a[..|a|] == a && b[..|a|] == b;
  }

  lemma {:induction false} LowBits(s: seq<bool>, c: bool, x: int)
    requires x == ToNat(s) + Weight(c, |s|)
    ensures s == ToBits(x, |s|)
  {
    ToBitsUnique(s, x, BoolToNat(c));
  }

  // ----- the chain as cells -----

  const Bit1: Port := Port(Plain, 1)

  function CarryIn(cin: nat, carries: seq<nat>, i: nat): Option<nat>
    requires i <= |carries|
  {
    Some(if i == 0 then cin else carries[i - 1])
  }

  function ThreeInput(kind: Kind, ins: seq<Option<nat>>, out: Option<nat>): Cell {
    Cell(kind, ins, [out], [Bit1, Bit1, Bit1], [1])
  }

  /** The operands, nets and outputs of a chain; `carries` are the nets between its stages. */
  datatype Chain = Chain(a: seq<Option<nat>>, b: seq<Option<nat>>, cin: nat, carries: seq<nat>, outs: seq<Option<nat>>)
  {
    predicate Shaped() {
      && 1 <= |outs| == |a| == |b| == |carries| + 1
      && (forall i :: 0 <= i < |outs| ==> outs[i].Some?)
    }

    function SumCell(i: nat): Cell
      requires Shaped() && i < |outs|
    {
      ThreeInput(AdderFunc, [CarryIn(cin, carries, i), a[i], b[i]], outs[i])
    }

    function CarryCell(i: nat): Cell
      requires Shaped() && i < |carries|
    {
      ThreeInput(CarryFunc, [CarryIn(cin, carries, i), a[i], b[i]], Some(carries[i]))
    }

    ghost predicate CellsHold(v: Valuation)
      requires Shaped()
    {
      && (forall i :: 0 <= i < |outs| ==> Holds(SumCell(i), v))
      && (forall i :: 0 <= i < |carries| ==> Holds(CarryCell(i), v))
    }

    ghost predicate Computes(v: Valuation)
      requires Shaped()
    {
      && (forall i :: 0 <= i < |outs| ==> v(outs[i].value) == SumBits(Vals(a, v), Vals(b, v), v(cin))[i])
      && (forall i :: 0 <= i < |carries| ==> v(carries[i]) == CarryAt(Vals(a, v), Vals(b, v), v(cin), i + 1))
    }
  }

  lemma {:induction false} Parity3(x: seq<bool>)
    requires |x| == 3
    ensures Parity(x) == Xor3(x[1], x[2], x[0])
  {
    var x1, x2 := x[1..], x[2..];
    assert x1[1..] == x2 && x2[1..] == [];
    assert Parity(x2) == x[2];
    assert Parity(x1) == (x[1] != x[2]);
  }

  lemma {:induction false} CellValues(ch: Chain, v: Valuation, i: nat)
    requires ch.Shaped() && i < |ch.outs|
    ensures var c := Val(CarryIn(ch.cin, ch.carries, i), v); var x := Val(ch.a[i], v); var y := Val(ch.b[i], v);
      && (Holds(ch.SumCell(i), v) <==> v(ch.outs[i].value) == Xor3(x, y, c))
      && (i < |ch.carries| ==> (Holds(ch.CarryCell(i), v) <==> v(ch.carries[i]) == Maj(x, y, c)))
  {
    var ins := [CarryIn(ch.cin, ch.carries, i), ch.a[i], ch.b[i]];
    var x := Vals(ins, v);
    Parity3(x);
    assert Outputs(AdderFunc, [Bit1, Bit1, Bit1], x, 1) == [Parity(x)];
    if Holds(ch.SumCell(i), v) {
      assert ch.SumCell(i).outs[0].Some?;
    }
    if i < |ch.carries| && Holds(ch.CarryCell(i), v) {
      assert ch.CarryCell(i).outs[0].Some?;
    }
  }

  /** The cells of a chain hold exactly when it computes the ripple sum and its carries. */
  lemma {:induction false} ChainMeaning(ch: Chain, v: Valuation)
    requires ch.Shaped()
    ensures ch.CellsHold(v) <==> ch.Computes(v)
  {
    forall i | 0 <= i < |ch.outs|
      ensures Val(CarryIn(ch.cin, ch.carries, i), v) == if i == 0 then v(ch.cin) else v(ch.carries[i - 1]) {}
    if ch.CellsHold(v) {
      forall i | 0 <= i < |ch.outs|
        ensures Val(CarryIn(ch.cin, ch.carries, i), v) == CarryAt(Vals(ch.a, v), Vals(ch.b, v), v(ch.cin), i)
      {
        CarryMeaning(ch, v, i);
      }
      forall i | 0 <= i < |ch.outs|
        ensures v(ch.outs[i].value) == SumBits(Vals(ch.a, v), Vals(ch.b, v), v(ch.cin))[i]
      {
        CellValues(ch, v, i);
      }
      forall i | 0 <= i < |ch.carries|
        ensures v(ch.carries[i]) == CarryAt(Vals(ch.a, v), Vals(ch.b, v), v(ch.cin), i + 1)
      {
        CellValues(ch, v, i);
      }
    }
    if ch.Computes(v) {
      forall i | 0 <= i < |ch.outs|
        ensures Holds(ch.SumCell(i), v) && (i < |ch.carries| ==> Holds(ch.CarryCell(i), v))
      {
        CellValues(ch, v, i);
        if i > 0 { assert v(ch.carries[i - 1]) == CarryAt(Vals(ch.a, v), Vals(ch.b, v), v(ch.cin), i); }
      }
    }
  }

  lemma {:induction false} CarryMeaning(ch: Chain, v: Valuation, i: nat)
    requires ch.Shaped() && ch.CellsHold(v) && i < |ch.outs|
    ensures Val(CarryIn(ch.cin, ch.carries, i), v) == CarryAt(Vals(ch.a, v), Vals(ch.b, v), v(ch.cin), i)
  {
    if i > 0 {
      CarryMeaning(ch, v, i - 1);
      CellValues(ch, v, i - 1);
      assert Holds(ch.CarryCell(i - 1), v);
    }
  }

  // ----- addition -----

  predicate AllSome(s: seq<Option<nat>>) {
    forall i :: 0 <= i < |s| ==> s[i].Some?
  }

  /** `s` cut or extended to `w` slots, the zero net standing in for what is missing. */
  function Pad(s: seq<Option<nat>>, w: nat, zero: nat): (r: seq<Option<nat>>)
    ensures |r| == w
    ensures forall i {:trigger r[i]} :: 0 <= i < w ==> r[i] == if i < |s| then s[i] else Some(zero)
  {
    seq(w, (i: nat) => if i < |s| then s[i] else Some(zero))
  }

  lemma {:induction false} PadValue(s: seq<Option<nat>>, w: nat, zero: nat, v: Valuation)
    requires !v(zero)
    ensures Vals(Pad(s, w, zero), v) == Resize(Vals(s, v), w)
  {
  }

  /** A two-operand node of the shape create_operation_node makes. */
  predicate TwoPort(c: Cell, w: nat) {
    && |c.inPorts| == 2 && |c.ins| == c.inPorts[0].width + c.inPorts[1].width
    && |c.outs| == w >= 1 && c.outPorts == [w]
    && AllSome(c.ins) && AllSome(c.outs)
  }

  function PortA(c: Cell): seq<Option<nat>>
    requires |c.inPorts| == 2 && |c.ins| == c.inPorts[0].width + c.inPorts[1].width
  {
    c.ins[..c.inPorts[0].width]
  }

  function PortB(c: Cell): seq<Option<nat>>
    requires |c.inPorts| == 2 && |c.ins| == c.inPorts[0].width + c.inPorts[1].width
  {
    c.ins[c.inPorts[0].width..]
  }

  lemma {:induction false} PortValues(c: Cell, v: Valuation)
    requires |c.inPorts| == 2 && |c.ins| == c.inPorts[0].width + c.inPorts[1].width
    ensures PortOf(c.inPorts, Vals(c.ins, v), 0) == Vals(PortA(c), v)
    ensures PortOf(c.inPorts, Vals(c.ins, v), 1) == Vals(PortB(c), v)
  {
    assert Offset(c.inPorts, 1) == c.inPorts[0].width;
  }

  predicate AddNode(c: Cell) {
    c.kind.Add? && TwoPort(c, |c.outs|)
  }

  function AddChain(c: Cell, zero: nat, carries: seq<nat>): Chain
    requires AddNode(c)
  {
    Chain(Pad(PortA(c), |c.outs|, zero), Pad(PortB(c), |c.outs|, zero), zero, carries, c.outs)
  }

  /** The cells of the adder: sum and carry cells alternate, the last carry cell stays unconnected. */
  function AddCells(ch: Chain): (r: seq<Cell>)
    requires ch.Shaped()
    ensures |r| == 2 * |ch.outs|
    ensures forall i {:trigger ch.SumCell(i)} :: 0 <= i < |ch.outs| ==>
      r[2 * i] == ch.SumCell(i) && r[2 * i + 1] == MaybeCarry(ch, i)
  {
    AddPairs(ch, |ch.outs|)
  }

  function MaybeCarry(ch: Chain, i: nat): Cell
    requires ch.Shaped()
  {
    if i < |ch.carries| then ch.CarryCell(i) else ThreeInput(CarryFunc, Nones(3), None)
  }

  function AddPairs(ch: Chain, k: nat): (r: seq<Cell>)
    requires ch.Shaped() && k <= |ch.outs|
    ensures |r| == 2 * k
    ensures forall i {:trigger ch.SumCell(i)} :: 0 <= i < k ==>
      r[2 * i] == ch.SumCell(i) && r[2 * i + 1] == MaybeCarry(ch, i)
  {
    if k == 0 then [] else AddPairs(ch, k - 1) + [ch.SumCell(k - 1), MaybeCarry(ch, k - 1)]
  }

  /** Cell `k` of the list is the sum cell or the carry cell of position `k / 2`. */
  lemma {:induction false} AddCellAt(ch: Chain, k: nat)
    requires ch.Shaped() && k < |AddCells(ch)|
    ensures AddCells(ch)[k] == if k % 2 == 0 then ch.SumCell(k / 2) else MaybeCarry(ch, k / 2)
    ensures k / 2 < |ch.outs|
  {
    var i := k / 2;
    assert k == 2 * i || k == 2 * i + 1;
    assert ch.SumCell(i).kind.AdderFunc?;
  }

  lemma {:induction false} MaybeCarryHolds(ch: Chain, i: nat, v: Valuation)
    requires ch.Shaped() && i < |ch.outs| && (i < |ch.carries| ==> Holds(ch.CarryCell(i), v))
    ensures Holds(MaybeCarry(ch, i), v)
  {
  }

  lemma {:induction false} AddCellsHold(ch: Chain, v: Valuation)
    requires ch.Shaped()
    ensures AllHold(AddCells(ch), v) <==> ch.CellsHold(v)
  {
    var r := AddCells(ch);
    if AllHold(r, v) {
      forall i | 0 <= i < |ch.outs|
        ensures Holds(ch.SumCell(i), v) && (i < |ch.carries| ==> Holds(ch.CarryCell(i), v))
      {
        AddCellAt(ch, 2 * i);
        AddCellAt(ch, 2 * i + 1);
        assert Holds(r[2 * i], v) && Holds(r[2 * i + 1], v);
      }
    }
    if ch.CellsHold(v) {
      forall k | 0 <= k < |r|
        ensures Holds(r[k], v)
      {
        AddCellAt(ch, k);
        MaybeCarryHolds(ch, k / 2, v);
      }
    }
  }

  /** What the two-operand sum means at `w` bits, whatever the operand widths. */
  lemma {:induction false} AddBits(a: seq<bool>, b: seq<bool>, w: nat)
    ensures SumBits(Resize(a, w), Resize(b, w), false) == ToBits(ToNat(a) + ToNat(b), w)
  {
    ResizedSum(a, b, w);
    RippleAdds(Resize(a, w), Resize(b, w), false);
  }

  lemma {:induction false} ResizedSum(a: seq<bool>, b: seq<bool>, w: nat)
    ensures ToBits(ToNat(Resize(a, w)) + ToNat(Resize(b, w)), w) == ToBits(ToNat(a) + ToNat(b), w)
  {
    var ka := ResizeValue(a, w);
    var kb := ResizeValue(b, w);
    AddResidues(ToNat(a), ToNat(b), ToNat(Resize(a, w)), ToNat(Resize(b, w)), ka, kb, w);
  }

  lemma {:induction false} AddResidues(x: int, y: int, x': int, y': int, kx: int, ky: int, w: nat)
    requires x == x' + Shift(kx, w) && y == y' + Shift(ky, w)
    ensures ToBits(x' + y', w) == ToBits(x + y, w)
  {
    ShiftAdd(kx, ky, w);
    ToBitsCongruent(x + y, x' + y', w, kx + ky);
  }

  ghost predicate FreshNets(nets: seq<nat>, base: nat) {
    Distinct(nets) && AllAtLeast(nets, base)
  }

  /** Values for the carry nets that make the whole chain hold. */
  ghost function CarryValues(ch: Chain, v: Valuation): (r: seq<bool>)
    requires ch.Shaped()
    ensures |r| == |ch.carries|
    ensures forall i {:trigger r[i]} :: 0 <= i < |r| ==> r[i] == CarryAt(Vals(ch.a, v), Vals(ch.b, v), v(ch.cin), i + 1)
  {
    seq(|ch.carries|, (i: nat) requires i < |ch.carries| => CarryAt(Vals(ch.a, v), Vals(ch.b, v), v(ch.cin), i + 1))
  }

  /** A chain whose outputs already carry the ripple sum is completed by choosing its carries. */
  lemma {:induction false} CompleteChain(ch: Chain, base: nat, v: Valuation) returns (w: Valuation)
    requires ch.Shaped() && FreshNets(ch.carries, base)
    requires SlotsBelow(ch.a, base) && SlotsBelow(ch.b, base) && ch.cin < base && SlotsBelow(ch.outs, base)
    requires forall i :: 0 <= i < |ch.outs| ==>
      v(ch.outs[i].value) == SumBits(Vals(ch.a, v), Vals(ch.b, v), v(ch.cin))[i]
    ensures AgreeBelow(base, v, w) && ch.Computes(w)
  {
    w := Override(v, ch.carries, CarryValues(ch, v));
    OverrideAt(v, ch.carries, CarryValues(ch, v), base);
    assert Vals(ch.a, w) == Vals(ch.a, v) && Vals(ch.b, w) == Vals(ch.b, v);
  }

  lemma {:induction false} AddImplements(c: Cell, zero: nat, one: nat, carries: seq<nat>, base: nat)
    requires AddNode(c) && InRange(c, base) && zero < base && one < base
    requires |carries| == |c.outs| - 1 && FreshNets(carries, base)
    ensures Implements(c, AddCells(AddChain(c, zero, carries)), zero, one, base)
  {
    var ch := AddChain(c, zero, carries);
    forall v: Valuation | Constants(zero, one, v) && AllHold(AddCells(ch), v)
      ensures Holds(c, v)
    {
      AddNodeMeaning(c, zero, carries, v);
      AddCellsHold(ch, v);
      ChainMeaning(ch, v);
    }
    forall v: Valuation | Constants(zero, one, v) && Holds(c, v)
      ensures exists w: Valuation :: AgreeBelow(base, v, w) && AllHold(AddCells(ch), w)
    {
      AddNodeMeaning(c, zero, carries, v);
      var w := CompleteChain(ch, base, v);
      ChainMeaning(ch, w);
      AddCellsHold(ch, w);
    }
  }

  lemma {:induction false} AddNodeMeaning(c: Cell, zero: nat, carries: seq<nat>, v: Valuation)
    requires AddNode(c) && |carries| == |c.outs| - 1 && !v(zero)
    ensures var ch := AddChain(c, zero, carries);
      Holds(c, v) <==> forall i :: 0 <= i < |c.outs| ==>
        v(c.outs[i].value) == SumBits(Vals(ch.a, v), Vals(ch.b, v), v(zero))[i]
  {
    hide SumBits, ToBits;
    var w := |c.outs|;
    PortValues(c, v);
    PadValue(PortA(c), w, zero, v);
    PadValue(PortB(c), w, zero, v);
    AddBits(Vals(PortA(c), v), Vals(PortB(c), v), w);
    OutputsAre(c, v, ToBits(ToNat(Vals(PortA(c), v)) + ToNat(Vals(PortB(c), v)), w));
  }

  /** A combinational cell with connected outputs holds when they carry its output word. */
  lemma {:induction false} OutputsAre(c: Cell, v: Valuation, o: seq<bool>)
    requires Combinational(c.kind) && AllSome(c.outs) && |o| == |c.outs|
    requires o == Outputs(c.kind, c.inPorts, Vals(c.ins, v), |c.outs|)
    ensures Holds(c, v) <==> forall i {:trigger c.outs[i]} :: 0 <= i < |c.outs| ==> v(c.outs[i].value) == o[i]
  {
  }

  lemma {:induction false} ChainInRange(ch: Chain, nets: nat)
    requires ch.Shaped() && SlotsBelow(ch.a, nets) && SlotsBelow(ch.b, nets) && SlotsBelow(ch.outs, nets)
    requires ch.cin < nets
    requires forall k :: 0 <= k < |ch.carries| ==> ch.carries[k] < nets
    ensures forall i :: 0 <= i < |ch.outs| ==> InRange(ch.SumCell(i), nets)
    ensures forall i :: 0 <= i < |ch.carries| ==> InRange(ch.CarryCell(i), nets)
  {
  }

  lemma {:induction false} AdderCellsInRange(ch: Chain, nets: nat)
    requires ch.Shaped()
    requires forall i :: 0 <= i < |ch.outs| ==> InRange(ch.SumCell(i), nets)
    requires forall i :: 0 <= i < |ch.carries| ==> InRange(ch.CarryCell(i), nets)
    ensures forall k :: 0 <= k < |AddCells(ch)| ==>
      InRange(AddCells(ch)[k], nets) && Combinational(AddCells(ch)[k].kind)
  {
    forall k | 0 <= k < |AddCells(ch)|
      ensures InRange(AddCells(ch)[k], nets) && Combinational(AddCells(ch)[k].kind)
    {
      assert InRange(ch.SumCell(k / 2), nets);
      assert k == 2 * (k / 2) || k == 2 * (k / 2) + 1;
    }
  }
}
