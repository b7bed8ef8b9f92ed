/** instantiate_not_logic, instantiate_bitwise_reduction and instantiate_logical_logic. */
module LogicalGates {
  import opened Wrappers
  import opened Bits
  import opened Semantics
  import opened Runs
  import opened Netlists
  import opened RippleCells
  import opened RippleBuild
  import opened Networks

  /** Every operand pin and output pin is on a net, and there is an operand. */
  predicate Wired(c: Cell) {
    |c.ins| >= 1 && AllSome(c.ins) && AllSome(c.outs)
  }

  predicate NotNode(c: Cell) {
    c.kind.BitwiseNot? && Wired(c) && |c.outs| == |c.ins|
  }

  predicate ReductionNode(c: Cell) {
    IsBitwise(c.kind) && Wired(c) && |c.inPorts| == 1 && c.inPorts[0].width == |c.ins| && |c.outs| == 1
  }

  predicate LogicalNode(c: Cell) {
    && IsLogical(c.kind) && Wired(c) && |c.outs| == 1 && |c.inPorts| == 2
    && c.inPorts[0].width >= 1 && c.inPorts[1].width >= 1 && c.inPorts[0].width + c.inPorts[1].width == |c.ins|
  }

  /** Operand pins from position `k` on are still on the node. */
  ghost predicate FromOn(now: Cell, c: Cell, k: nat) {
    |now.ins| == |c.ins| && forall j {:trigger now.ins[j]} :: k <= j < |c.ins| ==> now.ins[j] == c.ins[j]
  }

  function Firsts(n: nat): (r: seq<nat>)
    ensures |r| == n && forall i {:trigger r[i]} :: 0 <= i < n ==> r[i] == i
  {
    seq(n, (i: nat) => i)
  }

  // ----- instantiate_not_logic -----

  function NotPlan(w: nat): (r: seq<Spec>)
    ensures |r| == w
    ensures forall i {:trigger r[i]} :: 0 <= i < w ==>
      r[i] == Spec(LogicalNot, [], [Slot(Operand(i), i)], [], 1, Some(i))
  {
    seq(w, (i: nat) => Spec(LogicalNot, [], [Slot(Operand(i), i)], [], 1, Some(i)))
  }

  lemma {:induction false} NotFits(z: Site, w: nat)
    requires NotNode(z.c) && w == |z.c.outs|
    ensures var plan := NotPlan(w);
      TakesFit(z, plan) && OneTaker(plan) && TakersLast(plan) && AllRounds(plan, w) && Ranked(plan, Firsts(w))
        && AllTaken(z, plan, Firsts(w))
  {
  }

  lemma {:induction false} InverterWord(k: Cell, e: Option<nat>, v: Valuation)
    requires k.kind.LogicalNot? && k.ins == [e]
    ensures WordOf(k, v) == [!Val(e, v)]
  {
    var x := Vals(k.ins, v);
    assert x[0] == Val(e, v);
    assert Any(x) == Val(e, v);
  }

  lemma {:induction false} NotRight(cells: seq<Cell>, z: Site, w: nat, top: nat, v: Valuation)
    requires NotNode(z.c) && w == |z.c.outs| && NetworkOk(cells, z, NotPlan(w), w, {}, w, top)
    ensures TakersRight(cells, z, NotPlan(w), v)
  {
    var plan := NotPlan(w);
    forall x: nat {:trigger At(cells, z, x)} | x < |plan| && plan[x].takes.Some? && plan[x].takes.value < |z.c.outs|
      ensures WordOf(At(cells, z, x), v) == [WordOf(z.c, v)[plan[x].takes.value]]
    {
      WiredGate(cells, z, plan, w, w, top, x);
      var k := At(cells, z, x);
      assert plan[x].slots[0].src == Operand(x);
      InverterWord(k, z.c.ins[x], v);
    }
  }

  method CreateInverters(g: Netlist, w: nat, ghost a: NL, ghost plan: seq<Spec>)
    requires Creating(g, a, plan, 0) && plan == NotPlan(w)
    modifies g
    ensures Creating(g, a, plan, w) && g.Steady(old(g.fence), old(g.fenced), old(g.tidy))
  {
    hide Creating;
    for i := 0 to w
      invariant Creating(g, a, plan, i) && g.Steady(old(g.fence), old(g.fenced), old(g.tidy))
    {
      CreateGate(g, LogicalNot, [], 1, [], 1, a, plan, i);
    }
  }

  /** The operand pin and the output pin of one bit. */
  method WireNot(g: Netlist, n: nat, w: nat, c0: nat, i: nat, ghost a: NL, ghost z: Site, ghost plan: seq<Spec>)
    requires Building(g, a, n, z, plan, i, {}, i) && c0 == z.c0 && NotNode(z.c) && plan == NotPlan(w) && w == |z.c.outs|
    requires i < w
    requires FromOn(g.cells[n], z.c, i) && OneTaker(plan) && TakersLast(plan)
    modifies g
    ensures Building(g, a, n, z, plan, i + 1, {}, i + 1) && g.Steady(old(g.fence), old(g.fenced), old(g.tidy))
    ensures FromOn(g.cells[n], z.c, i + 1)
  {
    hide Building;
    assert plan[i].slots[0] == Slot(Operand(i), i);
    MoveOperand(g, n, i, c0, i, 0, a, z, plan, i, {}, i);
    ghost var extra := {} + {(i, 0)};
    MoveOutput(g, n, c0, i, i, a, z, plan, i, extra);
    assert RoundIs(plan, i, extra);
    NextRound(g, a, n, z, plan, i, extra, i + 1);
  }

  /** A bitwise complement becomes one inverter per bit; the netlist behaves as before. */
  method InstantiateNotLogic(g: Netlist, n: nat)
    requires g.Ready() && WellFormed(g.Meaning()) && n < |g.cells| && NotNode(g.cells[n])
    modifies g
    ensures g.Ready() && WellFormed(g.Meaning()) && g.Steady(old(g.fence), old(g.fenced), old(g.tidy))
    ensures OtherCells(old(g.cells), g.cells, n) && Undriving(g.cells[n]) && Lowers(old(g.Meaning()), g.Meaning())
  {
    ghost var a, z := g.Meaning(), SiteOf(g.Meaning(), n);
    assert NodeOk(g.nodes[n], g.pins, n, g.cells[n]) && InRange(z.c, z.base);
    var w, c0 := |g.nodes[n].inPins|, |g.nodes|;
    ghost var plan := NotPlan(w);
    NotFits(z, w);
    assert a.cells + Blanks(plan[..0]) == a.cells;
    CreateInverters(g, w, a, plan);
    Created(g, a, n, z, plan);
    assert g.cells[n] == z.c;
    for i := 0 to w
      invariant Building(g, a, n, z, plan, i, {}, i) && FromOn(g.cells[n], z.c, i)
      invariant g.Steady(old(g.fence), old(g.fenced), old(g.tidy))
    {
      WireNot(g, n, w, c0, i, a, z, plan);
    }
    NotLowers(a, g.Meaning(), n, z, w);
  }

  lemma {:induction false} NotLowers(a: NL, b: NL, n: nat, z: Site, w: nat)
    requires WellFormed(a) && n < |a.cells| && z == SiteOf(a, n) && b == a.(cells := b.cells, nets := b.nets)
    requires a.nets <= b.nets
    requires NotNode(z.c) && w == |z.c.outs| && NetworkOk(b.cells, z, NotPlan(w), w, {}, w, b.nets)
    requires OtherCells(a.cells, b.cells, n) && NodeLeft(b.cells[n], z.c, w)
    ensures Lowers(a, b) && WellFormed(b) && Undriving(b.cells[n])
  {
    var plan := NotPlan(w);
    NotFits(z, w);
    assert InRange(z.c, z.base);
    forall v: Valuation | Constants(a.zero, a.one, v) && InnerHold(b.cells, z, plan, v)
      ensures TakersRight(b.cells, z, plan, v) {
      NotRight(b.cells, z, w, b.nets, v);
    }
    NetworkLowers(a, b, n, z, plan, Firsts(w), w, Firsts(w));
  }

  // ----- instantiate_bitwise_reduction -----

  /** Slots on the operand pins from `at` on, filled one per round. */
  function PinSlots(at: nat, w: nat): (r: seq<Slot>)
    ensures |r| == w
    ensures forall s {:trigger r[s]} :: 0 <= s < w ==> r[s] == Slot(Operand(at + s), at + s)
  {
    seq(w, (s: nat) => Slot(Operand(at + s), at + s))
  }

  function ReductionPlan(kind: Kind, w: nat): seq<Spec>
    requires IsBitwise(kind)
  {
    [Spec(GateKind(kind), [Port(Plain, w)], PinSlots(0, w), [1], 1, Some(0))]
  }

  lemma {:induction false} ReductionFits(z: Site, kind: Kind, w: nat)
    requires ReductionNode(z.c) && kind == z.c.kind && w == |z.c.ins|
    ensures var plan := ReductionPlan(kind, w);
      TakesFit(z, plan) && OneTaker(plan) && TakersLast(plan) && AllRounds(plan, w) && Ranked(plan, [0])
        && AllTaken(z, plan, [0])
  {
  }

  lemma {:induction false} ReductionLowers(a: NL, b: NL, n: nat, z: Site, kind: Kind, w: nat)
    requires WellFormed(a) && n < |a.cells| && z == SiteOf(a, n) && b == a.(cells := b.cells, nets := b.nets)
    requires a.nets <= b.nets
    requires ReductionNode(z.c) && kind == z.c.kind && w == |z.c.ins|
    requires NetworkOk(b.cells, z, ReductionPlan(kind, w), w, {}, 1, b.nets)
    requires OtherCells(a.cells, b.cells, n) && NodeLeft(b.cells[n], z.c, 1)
    ensures Lowers(a, b) && WellFormed(b) && Undriving(b.cells[n])
  {
    hide OutsOk;
    var plan := ReductionPlan(kind, w);
    ReductionFits(z, kind, w);
    assert InRange(z.c, z.base);
    forall v: Valuation | Constants(a.zero, a.one, v) && InnerHold(b.cells, z, plan, v)
      ensures TakersRight(b.cells, z, plan, v) {
      WiredGate(b.cells, z, plan, w, 1, b.nets, 0);
      var k := At(b.cells, z, 0);
      forall s {:trigger k.ins[s]} | 0 <= s < w
        ensures k.ins[s] == z.c.ins[s] { assert plan[0].slots[s].src == Operand(s); }
      assert k.ins == z.c.ins;
    }
    NetworkLowers(a, b, n, z, plan, [0], w, [0]);
  }

  /** One operand pin moves to slot `s` of gate `x`, as its round has it. */
  method MovePin(g: Netlist, n: nat, k: nat, c0: nat, x: nat, s: nat, ghost a: NL, ghost z: Site, ghost plan: seq<Spec>)
    requires Building(g, a, n, z, plan, k, {}, 0) && c0 == z.c0 && AllSome(z.c.ins) && k < |z.c.ins|
    requires FromOn(g.cells[n], z.c, k)
    requires x < |plan| && s < |plan[x].slots| && plan[x].slots[s] == Slot(Operand(k), k) && RoundIs(plan, k, {(x, s)})
    modifies g
    ensures Building(g, a, n, z, plan, k + 1, {}, 0) && g.Steady(old(g.fence), old(g.fenced), old(g.tidy))
    ensures FromOn(g.cells[n], z.c, k + 1)
  {
    hide NetworkOk, RoundIs, NodeLeft;
    MoveOperand(g, n, k, c0, x, s, a, z, plan, k, {}, 0);
    assert {} + {(x, s)} == {(x, s)};
    NextRound(g, a, n, z, plan, k, {(x, s)}, 0);
  }

  /** A reduction becomes one gate over all its pins; the netlist behaves as before. */
  method InstantiateBitwiseReduction(g: Netlist, n: nat)
    requires g.Ready() && WellFormed(g.Meaning()) && n < |g.cells| && ReductionNode(g.cells[n])
    modifies g
    ensures g.Ready() && WellFormed(g.Meaning()) && g.Steady(old(g.fence), old(g.fenced), old(g.tidy))
    ensures OtherCells(old(g.cells), g.cells, n) && Undriving(g.cells[n]) && Lowers(old(g.Meaning()), g.Meaning())
  {
    hide WellFormed, Lowers, InRange, Netlist.Bound;
    ghost var a, z := g.Meaning(), SiteOf(g.Meaning(), n);
    assert NodeOk(g.nodes[n], g.pins, n, g.cells[n]);
    var w, kind, c0 := g.nodes[n].inPorts[0].width, g.nodes[n].kind, |g.nodes|;
    ghost var plan := ReductionPlan(kind, w);
    ReductionFits(z, kind, w);
    assert a.cells + Blanks(plan[..0]) == a.cells;
    CreateGate(g, GateKind(kind), [Port(Plain, w)], w, [1], 1, a, plan, 0);
    Created(g, a, n, z, plan);
    assert g.cells[n] == z.c;
    for i := 0 to w
      invariant Building(g, a, n, z, plan, i, {}, 0) && FromOn(g.cells[n], z.c, i)
      invariant g.Steady(old(g.fence), old(g.fenced), old(g.tidy))
    {
      assert RoundIs(plan, i, {(0, i)});
      MovePin(g, n, i, c0, 0, i, a, z, plan);
    }
    MoveOutput(g, n, c0, 0, 0, a, z, plan, w, {});
    ReductionLowers(a, g.Meaning(), n, z, kind, w);
  }

  // ----- instantiate_logical_logic -----

  function LogicalPlan(kind: Kind, wa: nat, wb: nat): seq<Spec> {
    [Spec(kind, [Port(Plain, 2)], [Slot(From(1, 0), wa + wb), Slot(From(2, 0), wa + wb)], [1], 1, Some(0)),
     Spec(BitwiseOr, [Port(Plain, wa)], PinSlots(0, wa), [1], 1, None),
     Spec(BitwiseOr, [Port(Plain, wb)], PinSlots(wa, wb), [1], 1, None)]
  }

  lemma {:induction false} LogicalFits(z: Site, wa: nat, wb: nat)
    requires LogicalNode(z.c) && wa == z.c.inPorts[0].width && wb == z.c.inPorts[1].width
    ensures var plan := LogicalPlan(z.c.kind, wa, wb);
      && TakesFit(z, plan) && OneTaker(plan) && TakersLast(plan) && AllRounds(plan, wa + wb + 1)
      && Ranked(plan, [1, 0, 0]) && AllTaken(z, plan, [0])
  {
  }

  /** In round `k` pin `k` is moved, and nothing else. */
  lemma {:induction false} LogicalRound(kind: Kind, wa: nat, wb: nat, k: nat)
    requires k < wa + wb
    ensures RoundIs(LogicalPlan(kind, wa, wb), k, {if k < wa then (1, k) else (2, k - wa)})
  {
  }

  lemma {:induction false} LastRound(kind: Kind, wa: nat, wb: nat, extra: set<(nat, nat)>)
    requires extra == {} + {(0, 0)} + {(0, 1)}
    ensures RoundIs(LogicalPlan(kind, wa, wb), wa + wb, extra)
  {
  }

  ghost predicate LogicalDone(cells: seq<Cell>, z: Site, wa: nat, wb: nat, top: nat) {
    && LogicalNode(z.c) && wa == z.c.inPorts[0].width && wb == z.c.inPorts[1].width
    && NetworkOk(cells, z, LogicalPlan(z.c.kind, wa, wb), wa + wb + 1, {}, 1, top)
  }

  lemma {:induction false} LogicalCells(cells: seq<Cell>, z: Site, wa: nat, wb: nat, top: nat)
    requires LogicalDone(cells, z, wa, wb, top)
    ensures var k, x, y := At(cells, z, 0), At(cells, z, 1), At(cells, z, 2);
      && x == Cell(BitwiseOr, z.c.ins[..wa], x.outs, [Port(Plain, wa)], [1]) && |x.outs| == 1
      && y == Cell(BitwiseOr, z.c.ins[wa..], y.outs, [Port(Plain, wb)], [1]) && |y.outs| == 1
      && k == Cell(z.c.kind, [x.outs[0], y.outs[0]], k.outs, [Port(Plain, 2)], [1]) && x.outs[0].Some?
        && y.outs[0].Some?
  {
    hide GatesOk;
    var plan := LogicalPlan(z.c.kind, wa, wb);
    LogicalFits(z, wa, wb);
    WiredGate(cells, z, plan, wa + wb + 1, 1, top, 0);
    WiredGate(cells, z, plan, wa + wb + 1, 1, top, 1);
    WiredGate(cells, z, plan, wa + wb + 1, 1, top, 2);
    var k, x, y := At(cells, z, 0), At(cells, z, 1), At(cells, z, 2);
    forall s {:trigger x.ins[s]} | 0 <= s < wa
      ensures x.ins[s] == z.c.ins[s] { assert plan[1].slots[s].src == Operand(0 + s); }
    forall s {:trigger y.ins[s]} | 0 <= s < wb
      ensures y.ins[s] == z.c.ins[wa + s] { assert plan[2].slots[s].src == Operand(wa + s); }
    assert x.ins == z.c.ins[..wa] && y.ins == z.c.ins[wa..];
    assert plan[0].slots[0].src == From(1, 0) && plan[0].slots[1].src == From(2, 0);
    assert k.ins == [x.outs[0], y.outs[0]];
  }

  /** The net of a finished reduction says whether one of its pins is set. */
  lemma {:induction false} ReductionSays(x: Cell, v: Valuation)
    requires x.kind.BitwiseOr? && |x.inPorts| == 1 && |x.outs| == 1 && x.outs[0].Some? && Holds(x, v)
    ensures Val(x.outs[0], v) == Any(Vals(x.ins, v))
  {
  }

  lemma {:induction false} PairGate(kind: Kind, x: bool, y: bool)
    requires IsLogical(kind)
    ensures Gate(kind, [x, y]) == BitOp(kind, x, y)
  {
    var s := [x, y];
    assert s[0] == x && s[1] == y;
    assert Parity(s) == (x != Parity(s[1..])) && s[1..] == [y] && Parity([y]) == (y != Parity([y][1..]));
    assert All(s) == (x && y) && Any(s) == (x || y);
  }

  lemma {:induction false} LogicalRight(cells: seq<Cell>, z: Site, wa: nat, wb: nat, top: nat, v: Valuation)
    requires LogicalDone(cells, z, wa, wb, top) && InnerHold(cells, z, LogicalPlan(z.c.kind, wa, wb), v)
    ensures TakersRight(cells, z, LogicalPlan(z.c.kind, wa, wb), v)
  {
    var plan := LogicalPlan(z.c.kind, wa, wb);
    var k, x, y := At(cells, z, 0), At(cells, z, 1), At(cells, z, 2);
    LogicalCells(cells, z, wa, wb, top);
    hide NetworkOk, SourceNet;
    assert Inner(plan, 1) && Inner(plan, 2) && Holds(x, v) && Holds(y, v);
    ReductionSays(x, v);
    ReductionSays(y, v);
    assert Vals(x.ins, v) == Vals(z.c.ins, v)[..wa] && Vals(y.ins, v) == Vals(z.c.ins, v)[wa..];
    assert PortOf(z.c.inPorts, Vals(z.c.ins, v), 0) == Vals(x.ins, v)
      && PortOf(z.c.inPorts, Vals(z.c.ins, v), 1) == Vals(y.ins, v);
    assert Vals(k.ins, v) == [Val(x.outs[0], v), Val(y.outs[0], v)];
    PairGate(z.c.kind, Val(x.outs[0], v), Val(y.outs[0], v));
    assert WordOf(k, v) == WordOf(z.c, v);
  }

  lemma {:induction false} LogicalLowers(a: NL, b: NL, n: nat, z: Site, wa: nat, wb: nat)
    requires WellFormed(a) && n < |a.cells| && z == SiteOf(a, n) && b == a.(cells := b.cells, nets := b.nets)
    requires a.nets <= b.nets
    requires LogicalDone(b.cells, z, wa, wb, b.nets) && OtherCells(a.cells, b.cells, n) && NodeLeft(b.cells[n], z.c, 1)
    ensures Lowers(a, b) && WellFormed(b) && Undriving(b.cells[n])
    ensures |a.cells| + 2 < |b.cells| && ReductionNode(b.cells[|a.cells| + 1]) && ReductionNode(b.cells[|a.cells| + 2])
  {
    var plan := LogicalPlan(z.c.kind, wa, wb);
    LogicalFits(z, wa, wb);
    assert InRange(z.c, z.base);
    forall v: Valuation | Constants(a.zero, a.one, v) && InnerHold(b.cells, z, plan, v)
      ensures TakersRight(b.cells, z, plan, v) {
      LogicalRight(b.cells, z, wa, wb, b.nets, v);
    }
    NetworkLowers(a, b, n, z, plan, [1, 0, 0], wa + wb + 1, [0]);
    LogicalCells(b.cells, z, wa, wb, b.nets);
    assert At(b.cells, z, 1) == b.cells[z.c0 + 1] && At(b.cells, z, 2) == b.cells[z.c0 + 2];
  }

  method CreateLogical(g: Netlist, n: nat, kind: Kind, wa: nat, wb: nat, ghost a: NL, ghost z: Site)
    requires g.Ready() && n < |g.cells| && a == g.Meaning() && z == SiteOf(a, n) && LogicalNode(z.c) && kind == z.c.kind
    requires wa == z.c.inPorts[0].width && wb == z.c.inPorts[1].width
    modifies g
    ensures Building(g, a, n, z, LogicalPlan(kind, wa, wb), 0, {}, 0)
    ensures g.Steady(old(g.fence), old(g.fenced), old(g.tidy)) && g.cells[n] == z.c
  {
    ghost var plan := LogicalPlan(kind, wa, wb);
    assert a.cells + Blanks(plan[..0]) == a.cells;
    CreateGate(g, kind, [Port(Plain, 2)], 2, [1], 1, a, plan, 0);
    CreateGate(g, BitwiseOr, [Port(Plain, wa)], wa, [1], 1, a, plan, 1);
    CreateGate(g, BitwiseOr, [Port(Plain, wb)], wb, [1], 1, a, plan, 2);
    LogicalFits(z, wa, wb);
    Created(g, a, n, z, plan);
  }

  method WireLogical(g: Netlist, n: nat, c0: nat, wa: nat, wb: nat, ghost a: NL, ghost z: Site, ghost plan: seq<Spec>)
    requires Building(g, a, n, z, plan, 0, {}, 0) && c0 == z.c0 && g.cells[n] == z.c && LogicalNode(z.c)
    requires wa == z.c.inPorts[0].width && wb == z.c.inPorts[1].width && plan == LogicalPlan(z.c.kind, wa, wb)
    modifies g
    ensures Building(g, a, n, z, plan, wa + wb + 1, {}, 1) && g.Steady(old(g.fence), old(g.fenced), old(g.tidy))
  {
    hide NetworkOk, RoundIs, NodeLeft, Netlist.Valid;
    for i := 0 to wa
      invariant Building(g, a, n, z, plan, i, {}, 0) && FromOn(g.cells[n], z.c, i)
      invariant g.Steady(old(g.fence), old(g.fenced), old(g.tidy))
    {
      LogicalRound(z.c.kind, wa, wb, i);
      MovePin(g, n, i, c0, 1, i, a, z, plan);
    }
    for i := 0 to wb
      invariant Building(g, a, n, z, plan, wa + i, {}, 0) && FromOn(g.cells[n], z.c, wa + i)
      invariant g.Steady(old(g.fence), old(g.fenced), old(g.tidy))
    {
      LogicalRound(z.c.kind, wa, wb, wa + i);
      MovePin(g, n, wa + i, c0, 2, i, a, z, plan);
    }
    LogicalFits(z, wa, wb);
    Connect(g, n, 1, 0, c0, 0, 0, a, z, plan, wa + wb, {}, 0);
    Connect(g, n, 2, 0, c0, 0, 1, a, z, plan, wa + wb, {} + {(0, 0)}, 0);
    ghost var extra := {} + {(0, 0)} + {(0, 1)};
    MoveOutput(g, n, c0, 0, 0, a, z, plan, wa + wb, extra);
    LastRound(z.c.kind, wa, wb, extra);
    NextRound(g, a, n, z, plan, wa + wb, extra, 1);
  }

  /** The gate and the two reductions; the output pin has moved. */
  method BuildLogical(g: Netlist, n: nat) returns (x: nat)
    requires g.Ready() && WellFormed(g.Meaning()) && n < |g.cells| && LogicalNode(g.cells[n])
    modifies g
    ensures g.Ready() && WellFormed(g.Meaning()) && g.Steady(old(g.fence), old(g.fenced), old(g.tidy))
    ensures OtherCells(old(g.cells), g.cells, n) && Undriving(g.cells[n]) && Lowers(old(g.Meaning()), g.Meaning())
    ensures |old(g.cells)| < x && x + 1 < |g.cells| && ReductionNode(g.cells[x]) && ReductionNode(g.cells[x + 1])
  {
    ghost var a, z := g.Meaning(), SiteOf(g.Meaning(), n);
    assert NodeOk(g.nodes[n], g.pins, n, g.cells[n]);
    var kind, wa, wb, c0 := g.nodes[n].kind, g.nodes[n].inPorts[0].width, g.nodes[n].inPorts[1].width, |g.nodes|;
    CreateLogical(g, n, kind, wa, wb, a, z);
    WireLogical(g, n, c0, wa, wb, a, z, LogicalPlan(kind, wa, wb));
    LogicalLowers(a, g.Meaning(), n, z, wa, wb);
    x := c0 + 1;
  }

  /** A logical operator becomes a two-input gate over two reductions; the netlist behaves as before. */
  method InstantiateLogicalLogic(g: Netlist, n: nat)
    requires g.Ready() && WellFormed(g.Meaning()) && n < |g.cells| && LogicalNode(g.cells[n])
    modifies g
    ensures g.Ready() && WellFormed(g.Meaning()) && g.Steady(old(g.fence), old(g.fenced), old(g.tidy))
    ensures OtherCells(old(g.cells), g.cells, n) && Undriving(g.cells[n]) && Lowers(old(g.Meaning()), g.Meaning())
  {
    hide Lowers, ReductionNode, WellFormed, Undriving, LogicalNode;
    ghost var start := g.Meaning();
    var x := BuildLogical(g, n);
    ghost var mid := g.Meaning();
    InstantiateBitwiseReduction(g, x);
    ghost var next := g.Meaning();
    assert g.cells[x + 1] == mid.cells[x + 1];
    InstantiateBitwiseReduction(g, x + 1);
    LowersTransitive(start, mid, next);
    LowersTransitive(start, next, g.Meaning());
    assert g.cells[n] == next.cells[n] == mid.cells[n];
  }
}
