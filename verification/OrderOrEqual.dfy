/** instantiate_GE: greater-or-equal and less-or-equal as an order comparison or an equality. */
module OrderOrEqual {
  import opened Wrappers
  import opened Bits
  import opened Semantics
  import opened Runs
  import opened Netlists
  import opened RippleCells
  import opened RippleBuild
  import opened Networks
  import opened BitwiseGates
  import opened Equality
  import opened Comparators

  predicate GeNode(c: Cell, w: nat) {
    (c.kind.Gte? || c.kind.Lte?) && CompareNode(c, w)
  }

  function StrictKind(kind: Kind): Kind { if kind == Gte then Gt else Lt }

  function PairSpec(kind: Kind, w: nat): Spec {
    Spec(kind, [Port(Plain, w), Port(Plain, w)], OperandSlots(w), [1], 1, None)
  }

  const Bit2Port: Port := Port(Plain, 2)

  function EitherSpec(w: nat): Spec {
    Spec(LogicalOr, [Bit2Port], [Slot(From(0, 0), w), Slot(From(1, 0), w)], [1], 1, Some(0))
  }

  function GePlan(kind: Kind, w: nat): seq<Spec> {
    [PairSpec(LogicalEqual, w), PairSpec(StrictKind(kind), w), EitherSpec(w)]
  }

  lemma {:induction false} PlanFits(z: Site, kind: Kind, w: nat)
    requires GeNode(z.c, w)
    ensures var plan := GePlan(kind, w);
      && TakesFit(z, plan) && OneTaker(plan) && TakersLast(plan) && AllRounds(plan, w + 1) && Ranked(plan, [0, 0, 0])
        && AllTaken(z, plan, [2])
  {
  }

  /** One operand pin: to the equality, and a copy to the order comparison. */
  method PairOperand(g: Netlist, n: nat, w: nat, c0: nat, k: nat, ghost i: nat, ghost a: NL, ghost z: Site,
                     ghost plan: seq<Spec>, ghost extra: set<(nat, nat)>)
    requires Building(g, a, n, z, plan, i, extra, 0) && c0 == z.c0 && GeNode(z.c, w) && plan == GePlan(z.c.kind, w)
    requires k < 2 * w && i == PositionOf(w, k)
    requires (0, k) !in extra && (1, k) !in extra && |g.cells[n].ins| == 2 * w && g.cells[n].ins[k] == z.c.ins[k]
    modifies g
    ensures Building(g, a, n, z, plan, i, extra + {(0, k)} + {(1, k)}, 0)
    ensures g.Steady(old(g.fence), old(g.fenced), old(g.tidy))
    ensures |old(g.cells[n].ins)| == 2 * w && g.cells[n] == old(g.cells[n]).(ins := old(g.cells[n].ins)[k := None])
  {
    assert plan[0].slots[k] == Slot(Operand(k), i) && plan[1].slots[k] == Slot(Operand(k), i);
    MoveOperand(g, n, k, c0, 0, k, a, z, plan, i, extra, 0);
    CopyOperand(g, n, 0, k, c0, 1, k, a, z, plan, i, extra + {(0, k)}, 0, Operand(k));
  }

  method PairPosition(g: Netlist, n: nat, w: nat, c0: nat, i: nat, ghost a: NL, ghost z: Site, ghost plan: seq<Spec>)
    requires Building(g, a, n, z, plan, i, {}, 0) && c0 == z.c0 && GeNode(z.c, w) && plan == GePlan(z.c.kind, w)
    requires i < w && From2(g.cells[n], z.c, w, i)
    modifies g
    ensures Building(g, a, n, z, plan, i + 1, {}, 0) && g.Steady(old(g.fence), old(g.fenced), old(g.tidy))
    ensures From2(g.cells[n], z.c, w, i + 1)
  {
    hide Building;
    PairOperand(g, n, w, c0, i, i, a, z, plan, {});
    ghost var extra := {} + {(0, i)} + {(1, i)};
    PairOperand(g, n, w, c0, w + i, i, a, z, plan, extra);
    PairRound(z.c.kind, w, i, extra + {(0, w + i)} + {(1, w + i)});
    NextRound(g, a, n, z, plan, i, extra + {(0, w + i)} + {(1, w + i)}, 0);
  }

  lemma {:induction false} PairRound(kind: Kind, w: nat, i: nat, extra: set<(nat, nat)>)
    requires i < w && extra == {} + {(0, i)} + {(1, i)} + {(0, w + i)} + {(1, w + i)}
    ensures RoundIs(GePlan(kind, w), i, extra)
  {
  }

  /** Both results to the final gate. */
  method JoinPair(g: Netlist, n: nat, w: nat, c0: nat, ghost a: NL, ghost z: Site, ghost plan: seq<Spec>)
    requires Building(g, a, n, z, plan, w, {}, 0) && c0 == z.c0 && GeNode(z.c, w) && plan == GePlan(z.c.kind, w)
    modifies g
    ensures Building(g, a, n, z, plan, w + 1, {}, 0) && g.Steady(old(g.fence), old(g.fenced), old(g.tidy))
  {
    assert plan[2].slots[0] == Slot(From(0, 0), w) && plan[2].slots[1] == Slot(From(1, 0), w);
    Connect(g, n, 0, 0, c0, 2, 0, a, z, plan, w, {}, 0);
    Connect(g, n, 1, 0, c0, 2, 1, a, z, plan, w, {} + {(2, 0)}, 0);
    assert RoundIs(plan, w, {} + {(2, 0)} + {(2, 1)});
    NextRound(g, a, n, z, plan, w, {} + {(2, 0)} + {(2, 1)}, 0);
  }

  // ----- meaning -----

  ghost predicate GeDone(cells: seq<Cell>, z: Site, w: nat, top: nat) {
    GeNode(z.c, w) && NetworkOk(cells, z, GePlan(z.c.kind, w), w + 1, {}, 1, top)
      && AllRounds(GePlan(z.c.kind, w), w + 1)
  }

  lemma {:induction false} PairCell(cells: seq<Cell>, z: Site, w: nat, top: nat, x: nat)
    requires GeDone(cells, z, w, top) && x < 2
    ensures var k := At(cells, z, x); CompareNode(k, w) && k.kind == (if x == 0 then LogicalEqual else StrictKind(z.c.kind)) && k.ins == z.c.ins
    ensures |At(cells, z, 2).ins| == 2 && At(cells, z, 2).ins[x] == At(cells, z, x).outs[0]
    ensures At(cells, z, 2).kind == LogicalOr && |At(cells, z, 2).inPorts| == 1
  {
    var plan, k := GePlan(z.c.kind, w), At(cells, z, x);
    WiredGate(cells, z, plan, w + 1, 1, top, x);
    WiredGate(cells, z, plan, w + 1, 1, top, 2);
    forall s {:trigger k.ins[s]} | 0 <= s < 2 * w
      ensures k.ins[s] == z.c.ins[s] { assert plan[x].slots[s].src == Operand(s); }
    assert k.ins == z.c.ins;
    assert plan[2].slots[x].src == From(x, 0);
  }

  lemma {:induction false} PairValue(cells: seq<Cell>, z: Site, w: nat, top: nat, v: Valuation, x: nat)
    requires GeDone(cells, z, w, top) && InnerHold(cells, z, GePlan(z.c.kind, w), v) && x < 2
    ensures |At(cells, z, 2).ins| == 2
    ensures Val(At(cells, z, 2).ins[x], v)
         == Compare(if x == 0 then LogicalEqual else StrictKind(z.c.kind),
                    ToNat(Vals(PortA(z.c), v)), ToNat(Vals(PortB(z.c), v)))
  {
    PairCell(cells, z, w, top, x);
    var k := At(cells, z, x);
    assert Inner(GePlan(z.c.kind, w), x) && Holds(k, v);
    CompareWord(k, w, v);
    assert k.outs[0].Some?;
  }

  lemma {:induction false} GeWord(cells: seq<Cell>, z: Site, w: nat, top: nat, v: Valuation, y: Cell)
    requires GeDone(cells, z, w, top) && InnerHold(cells, z, GePlan(z.c.kind, w), v) && y == At(cells, z, 2)
    ensures WordOf(y, v) == WordOf(z.c, v) && |WordOf(z.c, v)| == 1
  {
    hide GatesOk, Outputs;
    PairValue(cells, z, w, top, v, 0);
    PairValue(cells, z, w, top, v, 1);
    PairCell(cells, z, w, top, 0);
    AnyOfTwo(Vals(y.ins, v));
    CompareWord(z.c, w, v);
    ReductionWord(y, v);
  }

  lemma {:induction false} AnyOfTwo(x: seq<bool>)
    requires |x| == 2
    ensures Any(x) == (x[0] || x[1])
  {
    if x[0] || x[1] { assert exists i :: 0 <= i < |x| && x[i]; }
  }

  lemma {:induction false} GeRight(cells: seq<Cell>, z: Site, w: nat, top: nat, v: Valuation)
    requires GeDone(cells, z, w, top) && InnerHold(cells, z, GePlan(z.c.kind, w), v)
    ensures TakersRight(cells, z, GePlan(z.c.kind, w), v)
  {
    GeWord(cells, z, w, top, v, At(cells, z, 2));
  }

  // ----- the operation -----

  lemma {:induction false} GeLowers(a: NL, b: NL, n: nat, z: Site, w: nat)
    requires WellFormed(a) && n < |a.cells| && z == SiteOf(a, n) && b == a.(cells := b.cells, nets := b.nets)
    requires a.nets <= b.nets && GeNode(z.c, w)
    requires NetworkOk(b.cells, z, GePlan(z.c.kind, w), w + 1, {}, 1, b.nets) && OtherCells(a.cells, b.cells, n)
    requires NodeLeft(b.cells[n], z.c, 1)
    ensures Lowers(a, b) && WellFormed(b) && Undriving(b.cells[n]) && |a.cells| + 1 < |b.cells|
    ensures EqualNode(b.cells[|a.cells|], w) && OrderNode(b.cells[|a.cells| + 1], w)
  {
    hide NetworkOk;
    var plan := GePlan(z.c.kind, w);
    PlanFits(z, z.c.kind, w);
    assert InRange(z.c, z.base);
    forall v: Valuation | Constants(a.zero, a.one, v) && InnerHold(b.cells, z, plan, v)
      ensures TakersRight(b.cells, z, plan, v) {
      GeRight(b.cells, z, w, b.nets, v);
    }
    NetworkLowers(a, b, n, z, plan, [0, 0, 0], w + 1, [2]);
    PairCell(b.cells, z, w, b.nets, 0);
    PairCell(b.cells, z, w, b.nets, 1);
    assert At(b.cells, z, 0) == b.cells[z.c0] && At(b.cells, z, 1) == b.cells[z.c0 + 1];
  }

  method CreatePairs(g: Netlist, n: nat, kind: Kind, w: nat, ghost a: NL, ghost z: Site)
    requires g.Ready() && n < |g.cells| && a == g.Meaning() && z == SiteOf(a, n) && GeNode(z.c, w) && kind == z.c.kind
    modifies g
    ensures Building(g, a, n, z, GePlan(kind, w), 0, {}, 0) && g.Steady(old(g.fence), old(g.fenced), old(g.tidy))
    ensures g.cells[n] == z.c
  {
    ghost var plan := GePlan(kind, w);
    assert a.cells + Blanks(plan[..0]) == a.cells;
    CreateGate(g, LogicalEqual, [Port(Plain, w), Port(Plain, w)], 2 * w, [1], 1, a, plan, 0);
    CreateGate(g, StrictKind(kind), [Port(Plain, w), Port(Plain, w)], 2 * w, [1], 1, a, plan, 1);
    CreateGate(g, LogicalOr, [Bit2Port], 2, [1], 1, a, plan, 2);
    PlanFits(z, kind, w);
    Created(g, a, n, z, plan);
  }

  method WirePairs(g: Netlist, n: nat, w: nat, c0: nat, ghost a: NL, ghost z: Site, ghost plan: seq<Spec>)
    requires Building(g, a, n, z, plan, 0, {}, 0) && c0 == z.c0 && GeNode(z.c, w) && plan == GePlan(z.c.kind, w)
    requires g.cells[n] == z.c
    modifies g
    ensures Building(g, a, n, z, plan, w + 1, {}, 1) && g.Steady(old(g.fence), old(g.fenced), old(g.tidy))
  {
    for i := 0 to w
      invariant Building(g, a, n, z, plan, i, {}, 0) && From2(g.cells[n], z.c, w, i)
      invariant g.Steady(old(g.fence), old(g.fenced), old(g.tidy))
    {
      PairPosition(g, n, w, c0, i, a, z, plan);
    }
    JoinPair(g, n, w, c0, a, z, plan);
    PlanFits(z, z.c.kind, w);
    MoveOutput(g, n, c0, 2, 0, a, z, plan, w + 1, {});
  }

  /** The two intermediate nodes are lowered in turn; the order comparison may be refused. */
  method LowerPair(g: Netlist, n: nat, c0: nat, ghost w: nat, ghost start: NL) returns (ok: bool)
    requires g.Ready() && WellFormed(g.Meaning()) && Lowers(start, g.Meaning()) && n < |start.cells| == c0
    requires c0 + 1 < |g.cells|
    requires EqualNode(g.cells[c0], w) && OrderNode(g.cells[c0 + 1], w) && OtherCells(start.cells, g.cells, n)
    requires Undriving(g.cells[n])
    modifies g
    ensures g.Ready() && WellFormed(g.Meaning()) && g.Steady(old(g.fence), old(g.fenced), old(g.tidy))
    ensures Lowers(start, g.Meaning()) && (ok <==> w >= 2)
    ensures OtherCells(start.cells, g.cells, n) && Undriving(g.cells[n])
  {
    ghost var a := g.Meaning();
    InstantiateEqual(g, c0, w);
    ghost var b := g.Meaning();
    assert b.cells[c0 + 1] == a.cells[c0 + 1] && b.cells[n] == a.cells[n];
    ok := InstantiateGt(g, c0 + 1, w);
    assert g.cells[n] == b.cells[n];
    LowersTransitive(start, a, b);
    LowersTransitive(start, b, g.Meaning());
  }

  /** Greater-or-equal and less-or-equal of two operands of one width; one bit is refused with the order comparison. */
  method InstantiateGe(g: Netlist, n: nat, ghost w: nat) returns (ok: bool)
    requires g.Ready() && WellFormed(g.Meaning()) && n < |g.cells| && GeNode(g.cells[n], w)
    modifies g
    ensures g.Ready() && WellFormed(g.Meaning()) && g.Steady(old(g.fence), old(g.fenced), old(g.tidy))
    ensures ok <==> w >= 2
    ensures OtherCells(old(g.cells), g.cells, n) && Undriving(g.cells[n]) && Lowers(old(g.Meaning()), g.Meaning())
  {
    ghost var a, z := g.Meaning(), SiteOf(g.Meaning(), n);
    assert NodeOk(g.nodes[n], g.pins, n, g.cells[n]);
    var width, kind, c0 := g.nodes[n].inPorts[0].width, g.nodes[n].kind, |g.nodes|;
    CreatePairs(g, n, kind, width, a, z);
    WirePairs(g, n, width, c0, a, z, GePlan(kind, width));
    GeLowers(a, g.Meaning(), n, z, width);
    ok := LowerPair(g, n, c0, w, a);
  }
}
