/** instantiate_bitwise_logic: a two-operand bitwise node becomes one two-input gate per bit. */
module BitwiseGates {
  import opened Wrappers
  import opened Bits
  import opened Semantics
  import opened Runs
  import opened Netlists
  import opened RippleCells
  import opened RippleBuild
  import opened Networks

  /** Two operands as wide as the result, as create_operation_node pads them; a gate of an order comparison can have
      no pins at all. */
  predicate BitwiseNode(c: Cell) {
    && IsBitwise(c.kind) && |c.inPorts| == 2 && c.inPorts[0].width == |c.outs| && c.inPorts[1].width == |c.outs|
    && |c.ins| == 2 * |c.outs| && c.outPorts == [|c.outs|] && AllSome(c.ins) && AllSome(c.outs)
  }

  function BitSpec(kind: Kind, w: nat, i: nat): Spec {
    Spec(kind, [Bit1, Bit1], [Slot(Operand(i), i), Slot(Operand(w + i), i)], [1], 1, Some(i))
  }

  function BitPlan(kind: Kind, w: nat): (r: seq<Spec>)
    ensures |r| == w
    ensures forall i {:trigger r[i]} :: 0 <= i < w ==> r[i] == BitSpec(kind, w, i)
  {
    seq(w, (i: nat) => BitSpec(kind, w, i))
  }

  function Upto(w: nat): (r: seq<nat>)
    ensures |r| == w && forall i {:trigger r[i]} :: 0 <= i < w ==> r[i] == i
  {
    seq(w, (i: nat) => i)
  }

  /** Bit `i` of a bitwise node. */
  lemma {:induction false} BitOfNode(c: Cell, v: Valuation, i: nat)
    requires BitwiseNode(c) && i < |c.outs|
    ensures |WordOf(c, v)| == |c.outs|
    ensures WordOf(c, v)[i] == BitOp(GateKind(c.kind), Val(c.ins[i], v), Val(c.ins[|c.outs| + i], v))
  {
    hide PortOf;
    var w := |c.outs|;
    PortValues(c, v);
    var a, b := Vals(PortA(c), v), Vals(PortB(c), v);
    assert Resize(a, w)[i] == a[i] && Resize(b, w)[i] == b[i];
    assert PortA(c)[i] == c.ins[i] && PortB(c)[i] == c.ins[w + i];
  }

  lemma {:induction false} TwoInputGate(k: Cell, a: Option<nat>, b: Option<nat>, v: Valuation)
    requires IsLogical(k.kind) && k.ins == [a, b] && k.inPorts == [Bit1, Bit1] && |k.outs| == 1
    ensures WordOf(k, v) == [BitOp(k.kind, Val(a, v), Val(b, v))]
  {
    var x := Vals(k.ins, v);
    assert x == [Val(a, v), Val(b, v)];
    assert PortOf(k.inPorts, x, 0) == [x[0]] && PortOf(k.inPorts, x, 1) == [x[1]];
    assert Any([x[0]]) == x[0] && Any([x[1]]) == x[1];
  }

  lemma {:induction false} BitsRight(cells: seq<Cell>, z: Site, kind: Kind, w: nat, top: nat, v: Valuation)
    requires BitwiseNode(z.c) && kind == z.c.kind && w == |z.c.outs| >= 1
    requires NetworkOk(cells, z, BitPlan(GateKind(kind), w), w, {}, w, top)
    ensures TakersRight(cells, z, BitPlan(GateKind(kind), w), v)
  {
    hide GateOk;
    var plan := BitPlan(GateKind(kind), w);
    forall x: nat {:trigger At(cells, z, x)} | x < |plan| && plan[x].takes.Some? && plan[x].takes.value < |z.c.outs|
      ensures WordOf(At(cells, z, x), v) == [WordOf(z.c, v)[plan[x].takes.value]]
    {
      WiredGate(cells, z, plan, w, w, top, x);
      var k := At(cells, z, x);
      assert plan[x].slots[0].src == Operand(x) && plan[x].slots[1].src == Operand(w + x);
      assert k.ins == [z.c.ins[x], z.c.ins[w + x]];
      TwoInputGate(k, z.c.ins[x], z.c.ins[w + x], v);
      BitOfNode(z.c, v, x);
    }
    BitOfNode(z.c, v, 0);
  }

  lemma {:induction false} PlanFits(z: Site, kind: Kind, w: nat)
    requires BitwiseNode(z.c) && kind == z.c.kind && w == |z.c.outs|
    ensures var plan := BitPlan(GateKind(kind), w);
      TakesFit(z, plan) && OneTaker(plan) && TakersLast(plan) && AllRounds(plan, w) && Ranked(plan, Upto(w))
        && AllTaken(z, plan, Upto(w))
  {
    hide IsBitwise;
  }

  /** Operand pins from position `i` on are still on the node. */
  ghost predicate From2(now: Cell, c: Cell, w: nat, i: nat) {
    |now.ins| == |c.ins| == 2 * w && forall k {:trigger now.ins[k]} ::
      0 <= k < 2 * w && (if k < w then k >= i else k - w >= i) ==> now.ins[k] == c.ins[k]
  }

  method CreateBits(g: Netlist, kind: Kind, w: nat, ghost a: NL, ghost plan: seq<Spec>)
    requires Creating(g, a, plan, 0) && IsBitwise(kind) && plan == BitPlan(GateKind(kind), w)
    modifies g
    ensures Creating(g, a, plan, w) && g.Steady(old(g.fence), old(g.fenced), old(g.tidy))
  {
    for i := 0 to w
      invariant Creating(g, a, plan, i) && g.Steady(old(g.fence), old(g.fenced), old(g.tidy))
    {
      CreateGate(g, GateKind(kind), [Bit1, Bit1], 2, [1], 1, a, plan, i);
    }
  }

  /** Both operand pins and the output pin of bit `i`. */
  method WireBit(g: Netlist, n: nat, w: nat, c0: nat, i: nat, ghost a: NL, ghost z: Site, ghost plan: seq<Spec>)
    requires Building(g, a, n, z, plan, i, {}, i) && c0 == z.c0 && BitwiseNode(z.c)
    requires plan == BitPlan(GateKind(z.c.kind), w) && w == |z.c.outs| && i < w
    requires From2(g.cells[n], z.c, w, i) && OneTaker(plan) && TakersLast(plan)
    modifies g
    ensures Building(g, a, n, z, plan, i + 1, {}, i + 1) && g.Steady(old(g.fence), old(g.fenced), old(g.tidy))
    ensures From2(g.cells[n], z.c, w, i + 1)
  {
    hide Building;
    assert plan[i].slots[0] == Slot(Operand(i), i) && plan[i].slots[1] == Slot(Operand(w + i), i);
    MoveOperand(g, n, i, c0, i, 0, a, z, plan, i, {}, i);
    MoveOperand(g, n, w + i, c0, i, 1, a, z, plan, i, {} + {(i, 0)}, i);
    ghost var extra := {} + {(i, 0)} + {(i, 1)};
    MoveOutput(g, n, c0, i, i, a, z, plan, i, extra);
    assert RoundIs(plan, i, extra);
    NextRound(g, a, n, z, plan, i, extra, i + 1);
  }

  /** A bitwise node becomes `w` two-input gates; the netlist behaves as before. A node without input pins is
      refused. */
  method InstantiateBitwiseLogic(g: Netlist, n: nat) returns (ok: bool)
    requires g.Ready() && WellFormed(g.Meaning()) && n < |g.cells| && BitwiseNode(g.cells[n])
    modifies g
    ensures g.Ready() && WellFormed(g.Meaning()) && g.Steady(old(g.fence), old(g.fenced), old(g.tidy))
    ensures ok <==> |old(g.cells[n].ins)| > 0
    ensures ok ==>
      OtherCells(old(g.cells), g.cells, n) && Undriving(g.cells[n]) && Lowers(old(g.Meaning()), g.Meaning())
    ensures !ok ==> g.Meaning() == old(g.Meaning())
  {
    ghost var a, z := g.Meaning(), SiteOf(g.Meaning(), n);
    assert NodeOk(g.nodes[n], g.pins, n, g.cells[n]) && InRange(z.c, z.base);
    ok := |g.nodes[n].inPins| > 0;
    if !ok { return; }
    var w, kind, c0 := g.nodes[n].outPorts[0], g.nodes[n].kind, |g.nodes|;
    ghost var plan := BitPlan(GateKind(kind), w);
    PlanFits(z, kind, w);
    assert a.cells + Blanks(plan[..0]) == a.cells;
    CreateBits(g, kind, w, a, plan);
    Created(g, a, n, z, plan);
    assert g.cells[n] == z.c;
    for i := 0 to w
      invariant Building(g, a, n, z, plan, i, {}, i) && From2(g.cells[n], z.c, w, i)
      invariant g.Steady(old(g.fence), old(g.fenced), old(g.tidy))
    {
      WireBit(g, n, w, c0, i, a, z, plan);
    }
    forall v: Valuation | Constants(a.zero, a.one, v) && InnerHold(g.cells, z, plan, v)
      ensures TakersRight(g.cells, z, plan, v) {
      BitsRight(g.cells, z, kind, w, |g.nets|, v);
    }
    NetworkLowers(a, g.Meaning(), n, z, plan, Upto(w), w, Upto(w));
  }
}
