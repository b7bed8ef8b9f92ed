/** instantiate_EQUAL: equality and inequality by a bitwise comparison and a reduction. */
module Equality {
  import opened Wrappers
  import opened Bits
  import opened Semantics
  import opened Runs
  import opened Netlists
  import opened RippleCells
  import opened RippleBuild
  import opened Networks
  import opened BitwiseGates

  /** A comparison of two operands of one width, as create_operation_node pads them. */
  predicate CompareNode(c: Cell, w: nat) {
    w >= 1 && TwoPort(c, 1) && c.inPorts == [Port(Plain, w), Port(Plain, w)]
  }

  predicate EqualNode(c: Cell, w: nat) {
    (c.kind.LogicalEqual? || c.kind.NotEqual?) && CompareNode(c, w)
  }

  function BitKind(kind: Kind): Kind { if kind == LogicalEqual then BitwiseXnor else BitwiseXor }
  function JoinKind(kind: Kind): Kind { if kind == LogicalEqual then LogicalAnd else LogicalOr }

  /** The position an operand pin belongs to. */
  function PositionOf(w: nat, s: nat): nat {
    if s < w then s else s - w
  }

  function OperandSlots(w: nat): (r: seq<Slot>)
    ensures |r| == 2 * w
    ensures forall s {:trigger r[s]} :: 0 <= s < 2 * w ==> r[s] == Slot(Operand(s), PositionOf(w, s))
  {
    seq(2 * w, (s: nat) => Slot(Operand(s), PositionOf(w, s)))
  }

  function BitSlots(w: nat): (r: seq<Slot>)
    ensures |r| == w
    ensures forall s {:trigger r[s]} :: 0 <= s < w ==> r[s] == Slot(From(0, s), s)
  {
    seq(w, (s: nat) => Slot(From(0, s), s))
  }

  function CompareSpec(kind: Kind, w: nat): Spec {
    Spec(BitKind(kind), [Port(Plain, w), Port(Plain, w)], OperandSlots(w), [w], w, None)
  }

  function JoinSpec(kind: Kind, w: nat): Spec {
    Spec(JoinKind(kind), [Port(Plain, w)], BitSlots(w), [1], 1, Some(0))
  }

  function EqualPlan(kind: Kind, w: nat): seq<Spec> {
    [CompareSpec(kind, w), JoinSpec(kind, w)]
  }

  lemma {:induction false} PlanFits(z: Site, kind: Kind, w: nat)
    requires EqualNode(z.c, w)
    ensures var plan := EqualPlan(kind, w);
      && TakesFit(z, plan) && OneTaker(plan) && TakersLast(plan) && AllRounds(plan, w) && Ranked(plan, [0, 1])
        && AllTaken(z, plan, [1])
  {
  }

  /** The two operand pins of a position. */
  method EqualOperands(g: Netlist, n: nat, w: nat, c0: nat, i: nat, ghost a: NL, ghost z: Site, ghost plan: seq<Spec>)
    requires Building(g, a, n, z, plan, i, {}, 0) && c0 == z.c0 && EqualNode(z.c, w) && plan == EqualPlan(z.c.kind, w)
    requires i < w
    requires From2(g.cells[n], z.c, w, i)
    modifies g
    ensures Building(g, a, n, z, plan, i, {(0, i), (0, w + i)}, 0) && g.Steady(old(g.fence), old(g.fenced), old(g.tidy))
    ensures From2(g.cells[n], z.c, w, i + 1)
  {
    hide Building;
    assert plan[0].slots[i] == Slot(Operand(i), i) && plan[0].slots[w + i] == Slot(Operand(w + i), i);
    MoveOperand(g, n, i, c0, 0, i, a, z, plan, i, {}, 0);
    MoveOperand(g, n, w + i, c0, 0, w + i, a, z, plan, i, {} + {(0, i)}, 0);
    assert {} + {(0, i)} + {(0, w + i)} == {(0, i), (0, w + i)};
  }

  /** One round: the operand pins, and the bit of the comparison to the reduction. */
  method EqualPosition(g: Netlist, n: nat, w: nat, c0: nat, i: nat, ghost a: NL, ghost z: Site, ghost plan: seq<Spec>)
    requires Building(g, a, n, z, plan, i, {}, 0) && c0 == z.c0 && EqualNode(z.c, w) && plan == EqualPlan(z.c.kind, w)
    requires i < w
    requires From2(g.cells[n], z.c, w, i)
    modifies g
    ensures Building(g, a, n, z, plan, i + 1, {}, 0) && g.Steady(old(g.fence), old(g.fenced), old(g.tidy))
    ensures From2(g.cells[n], z.c, w, i + 1)
  {
    EqualOperands(g, n, w, c0, i, a, z, plan);
    assert plan[1].slots[i] == Slot(From(0, i), i);
    Connect(g, n, 0, i, c0, 1, i, a, z, plan, i, {(0, i), (0, w + i)}, 0);
    ghost var extra := {(0, i), (0, w + i)} + {(1, i)};
    RoundOf(z.c.kind, w, i, extra);
    NextRound(g, a, n, z, plan, i, extra, 0);
  }

  lemma {:induction false} RoundOf(kind: Kind, w: nat, i: nat, extra: set<(nat, nat)>)
    requires i < w && extra == {(0, i), (0, w + i)} + {(1, i)}
    ensures RoundIs(EqualPlan(kind, w), i, extra)
  {
  }

  // ----- meaning -----

  ghost predicate EqualDone(cells: seq<Cell>, z: Site, kind: Kind, w: nat, top: nat) {
    EqualNode(z.c, w) && kind == z.c.kind && NetworkOk(cells, z, EqualPlan(kind, w), w, {}, 1, top)
      && AllRounds(EqualPlan(kind, w), w)
  }

  lemma {:induction false} CompareCell(cells: seq<Cell>, z: Site, kind: Kind, w: nat, top: nat)
    requires EqualDone(cells, z, kind, w, top)
    ensures var x := At(cells, z, 0); BitwiseNode(x) && |x.outs| == w && x.ins == z.c.ins && x.kind == BitKind(kind)
    ensures var y := At(cells, z, 1); |y.ins| == w && y == Cell(JoinKind(kind), y.ins, y.outs, [Port(Plain, w)], [1]) && |y.outs| == 1
    ensures At(cells, z, 1).ins == At(cells, z, 0).outs
  {
    var plan := EqualPlan(kind, w);
    WiredGate(cells, z, plan, w, 1, top, 0);
    WiredGate(cells, z, plan, w, 1, top, 1);
    var x, y := At(cells, z, 0), At(cells, z, 1);
    forall s {:trigger x.ins[s]} | 0 <= s < |x.ins|
      ensures x.ins[s] == z.c.ins[s] { assert plan[0].slots[s].src == Operand(s); }
    forall s {:trigger y.ins[s]} | 0 <= s < w
      ensures y.ins[s] == x.outs[s] && y.ins[s].Some? { assert plan[1].slots[s].src == From(0, s); }
    assert x.ins == z.c.ins && y.ins == x.outs;
  }

  /** The nets between the two gates say where the operands differ. */
  lemma {:induction false} BitsOnNets(x: Cell, v: Valuation, j: nat)
    requires BitwiseNode(x) && j < |x.outs| && Holds(x, v)
    ensures Val(x.outs[j], v) == BitOp(GateKind(x.kind), Val(x.ins[j], v), Val(x.ins[|x.outs| + j], v))
  {
    BitOfNode(x, v, j);
  }

  /** A reduction over the bitwise comparison of two words compares their values. */
  lemma {:induction false} JoinedBits(kind: Kind, x: seq<bool>, a: seq<bool>, b: seq<bool>)
    requires kind in {LogicalEqual, NotEqual} && |x| == |a| == |b|
    requires forall j :: 0 <= j < |x| ==> x[j] == BitOp(GateKind(BitKind(kind)), a[j], b[j])
    ensures Gate(JoinKind(kind), x) == Compare(kind, ToNat(a), ToNat(b))
  {
    ToNatInjective(a, b);
    if kind == LogicalEqual {
      if All(x) { assert forall j :: 0 <= j < |x| ==> a[j] == b[j]; }
    } else {
      if !Any(x) { assert forall j :: 0 <= j < |x| ==> a[j] == b[j]; }
    }
  }

  lemma {:induction false} CompareWord(c: Cell, w: nat, v: Valuation)
    requires CompareNode(c, w) && c.kind in {Gt, Lt, Gte, Lte, LogicalEqual, NotEqual}
    ensures WordOf(c, v) == [Compare(c.kind, ToNat(Vals(PortA(c), v)), ToNat(Vals(PortB(c), v)))]
  {
    PortValues(c, v);
  }

  lemma {:induction false} EqualRight(cells: seq<Cell>, z: Site, kind: Kind, w: nat, top: nat, v: Valuation)
    requires EqualDone(cells, z, kind, w, top) && InnerHold(cells, z, EqualPlan(kind, w), v)
    ensures TakersRight(cells, z, EqualPlan(kind, w), v)
  {
    var x, y := At(cells, z, 0), At(cells, z, 1);
    CompareCell(cells, z, kind, w, top);
    assert Inner(EqualPlan(kind, w), 0) && Holds(x, v);
    var a, b := Vals(PortA(z.c), v), Vals(PortB(z.c), v);
    forall j | 0 <= j < w
      ensures Vals(y.ins, v)[j] == BitOp(GateKind(BitKind(kind)), a[j], b[j]) { BitsOnNets(x, v, j); }
    JoinedBits(kind, Vals(y.ins, v), a, b);
    CompareWord(z.c, w, v);
    ReductionWord(y, v);
  }

  lemma {:induction false} ReductionWord(y: Cell, v: Valuation)
    requires IsLogical(y.kind) && |y.inPorts| == 1
    ensures WordOf(y, v) == [Gate(y.kind, Vals(y.ins, v))]
  {
  }

  // ----- the operation -----

  lemma {:induction false} EqualLowers(a: NL, b: NL, n: nat, z: Site, kind: Kind, w: nat)
    requires WellFormed(a) && n < |a.cells| && z == SiteOf(a, n) && b == a.(cells := b.cells, nets := b.nets)
    requires a.nets <= b.nets && EqualNode(z.c, w) && kind == z.c.kind
    requires NetworkOk(b.cells, z, EqualPlan(kind, w), w, {}, 1, b.nets) && OtherCells(a.cells, b.cells, n)
    requires NodeLeft(b.cells[n], z.c, 1)
    ensures Lowers(a, b) && WellFormed(b) && Undriving(b.cells[n])
    ensures |a.cells| < |b.cells| && BitwiseNode(b.cells[|a.cells|]) && b.cells[|a.cells|].ins != []
  {
    var plan := EqualPlan(kind, w);
    PlanFits(z, kind, w);
    assert InRange(z.c, z.base);
    forall v: Valuation | Constants(a.zero, a.one, v) && InnerHold(b.cells, z, plan, v)
      ensures TakersRight(b.cells, z, plan, v) {
      EqualRight(b.cells, z, kind, w, b.nets, v);
    }
    NetworkLowers(a, b, n, z, plan, [0, 1], w, [1]);
    CompareCell(b.cells, z, kind, w, b.nets);
    assert At(b.cells, z, 0) == b.cells[z.c0];
  }

  /** The two gates as created. */
  method CreateEqual(g: Netlist, n: nat, kind: Kind, w: nat, ghost a: NL, ghost z: Site)
    requires g.Ready() && n < |g.cells| && a == g.Meaning() && z == SiteOf(a, n) && EqualNode(z.c, w)
    requires kind == z.c.kind
    modifies g
    ensures Building(g, a, n, z, EqualPlan(kind, w), 0, {}, 0) && g.Steady(old(g.fence), old(g.fenced), old(g.tidy))
    ensures g.cells[n] == z.c
  {
    ghost var plan := EqualPlan(kind, w);
    assert a.cells + Blanks(plan[..0]) == a.cells;
    CreateGate(g, BitKind(kind), [Port(Plain, w), Port(Plain, w)], 2 * w, [w], w, a, plan, 0);
    CreateGate(g, JoinKind(kind), [Port(Plain, w)], w, [1], 1, a, plan, 1);
    PlanFits(z, kind, w);
    Created(g, a, n, z, plan);
  }

  method WireEqual(g: Netlist, n: nat, w: nat, c0: nat, ghost a: NL, ghost z: Site, ghost plan: seq<Spec>)
    requires Building(g, a, n, z, plan, 0, {}, 0) && c0 == z.c0 && EqualNode(z.c, w) && plan == EqualPlan(z.c.kind, w)
    requires g.cells[n] == z.c
    modifies g
    ensures Building(g, a, n, z, plan, w, {}, 1) && g.Steady(old(g.fence), old(g.fenced), old(g.tidy))
  {
    hide NetworkOk;
    for i := 0 to w
      invariant Building(g, a, n, z, plan, i, {}, 0) && From2(g.cells[n], z.c, w, i)
      invariant g.Steady(old(g.fence), old(g.fenced), old(g.tidy))
    {
      EqualPosition(g, n, w, c0, i, a, z, plan);
    }
    MoveOutput(g, n, c0, 1, 0, a, z, plan, w, {});
  }

  /** The two gates, the comparison not yet split into bits. */
  method BuildEqual(g: Netlist, n: nat, w: nat) returns (x: nat)
    requires g.Ready() && WellFormed(g.Meaning()) && n < |g.cells| && EqualNode(g.cells[n], w)
    modifies g
    ensures g.Ready() && WellFormed(g.Meaning()) && g.Steady(old(g.fence), old(g.fenced), old(g.tidy))
    ensures OtherCells(old(g.cells), g.cells, n) && Undriving(g.cells[n]) && Lowers(old(g.Meaning()), g.Meaning())
    ensures |old(g.cells)| <= x < |g.cells| && BitwiseNode(g.cells[x]) && g.cells[x].ins != []
  {
    ghost var a, z := g.Meaning(), SiteOf(g.Meaning(), n);
    assert NodeOk(g.nodes[n], g.pins, n, g.cells[n]);
    var kind := g.nodes[n].kind;
    ghost var plan := EqualPlan(kind, w);
    x := |g.nodes|;
    CreateEqual(g, n, kind, w, a, z);
    WireEqual(g, n, w, x, a, z, plan);
    EqualLowers(a, g.Meaning(), n, z, kind, w);
  }

  /** An equality or inequality of two operands of one width: afterwards the netlist behaves as before. */
  method InstantiateEqual(g: Netlist, n: nat, ghost w: nat)
    requires g.Ready() && WellFormed(g.Meaning()) && n < |g.cells| && EqualNode(g.cells[n], w)
    modifies g
    ensures g.Ready() && WellFormed(g.Meaning()) && g.Steady(old(g.fence), old(g.fenced), old(g.tidy))
    ensures OtherCells(old(g.cells), g.cells, n) && Undriving(g.cells[n]) && Lowers(old(g.Meaning()), g.Meaning())
  {
    ghost var start := g.Meaning();
    assert NodeOk(g.nodes[n], g.pins, n, g.cells[n]);
    var x := BuildEqual(g, n, g.nodes[n].inPorts[0].width);
    ghost var mid := g.Meaning();
    var ok := InstantiateBitwiseLogic(g, x);
    LowersTransitive(start, mid, g.Meaning());
    assert g.cells[n] == mid.cells[n];
  }
}
