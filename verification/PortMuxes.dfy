/** instantiate_multi_port_mux: one AND-OR mux per output, all with the same select pins. */
module PortMuxes {
  import opened Wrappers
  import opened Bits
  import opened Semantics
  import opened Runs
  import opened Netlists
  import opened RippleCells
  import opened RippleBuild
  import opened Networks
  import opened BitwiseGates

  /** `m + 1` ports of one width `w`: the selects, and the data of each of the `m` outputs. */
  predicate PortMuxNode(c: Cell, w: nat, m: nat) {
    && c.kind.MultiPortMux? && w >= 1 && m >= 1 && |c.inPorts| == m + 1 && (forall k :: 0 <= k < |c.inPorts| ==>
      c.inPorts[k].width == w)
    && |c.ins| == (m + 1) * w && |c.outs| == m && AllSome(c.ins) && AllSome(c.outs)
  }

  /** First data pin of output `j`. */
  function DataAt(w: nat, j: nat): nat { (j + 1) * w }

  function MuxSlots(w: nat, j: nat): (r: seq<Slot>)
    ensures |r| == 2 * w
    ensures forall s {:trigger r[s]} :: 0 <= s < 2 * w ==>
      r[s] == Slot(Operand(if s < w then s else DataAt(w, j) + (s - w)), j)
  {
    seq(2 * w, (s: nat) => Slot(Operand(if s < w then s else DataAt(w, j) + (s - w)), j))
  }

  function MuxSpec(w: nat, j: nat): Spec {
    Spec(Mux2, [Port(Plain, w), Port(Plain, w)], MuxSlots(w, j), [1], 1, Some(j))
  }

  function MuxPlan(w: nat, m: nat): (r: seq<Spec>)
    ensures |r| == m
    ensures forall j {:trigger r[j]} :: 0 <= j < m ==> r[j] == MuxSpec(w, j)
  {
    seq(m, (j: nat) => MuxSpec(w, j))
  }

  lemma {:induction false} PlanFits(z: Site, w: nat, m: nat)
    requires PortMuxNode(z.c, w, m)
    ensures var plan := MuxPlan(w, m);
      && TakesFit(z, plan) && OneTaker(plan) && TakersLast(plan) && AllRounds(plan, m) && Ranked(plan, Upto(m))
        && AllTaken(z, plan, Upto(m))
  {
  }

  lemma {:induction false} DataInRange(w: nat, m: nat, j: nat, i: nat)
    requires j < m && i < w
    ensures w <= DataAt(w, j) + i < (m + 1) * w && DataAt(w, j + 1) == DataAt(w, j) + w
  {
    assert (j + 2) * w == (j + 1) * w + w;
    Multiple(j + 2, m + 1, w);
    Multiple(1, j + 1, w);
  }

  lemma {:induction false} Multiple(a: nat, b: nat, w: nat)
    requires a <= b
    ensures a * w <= b * w
  {
  }

  // ----- building -----

  /** Slots of mux `j` filled after `i` steps of the inner loop. */
  ghost function Filled(w: nat, j: nat, i: nat): set<(nat, nat)> {
    set s: nat | s < w + i && (s < i || s >= w) :: (j, s)
  }

  /** The data pins still on the node, and in the first round the selects. */
  ghost predicate MuxLeft(now: Cell, c: Cell, w: nat, j: nat, i: nat) {
    && |now.ins| == |c.ins|
    && (forall k {:trigger now.ins[k]} :: DataAt(w, j) + i <= k < |c.ins| ==> now.ins[k] == c.ins[k])
    && (j == 0 ==> forall k {:trigger now.ins[k]} :: i <= k < w && k < |c.ins| ==> now.ins[k] == c.ins[k])
  }

  ghost predicate Muxing(g: Netlist, a: NL, n: nat, z: Site, w: nat, m: nat, j: nat, extra: set<(nat, nat)>, d: nat)
    reads g
  {
    PortMuxNode(z.c, w, m) && Building(g, a, n, z, MuxPlan(w, m), j, extra, d)
  }

  /** One data pin and one select pin of mux `j`. */
  method MuxPins(g: Netlist, n: nat, w: nat, c0: nat, j: nat, i: nat, ghost m: nat, ghost a: NL, ghost z: Site)
    requires Muxing(g, a, n, z, w, m, j, Filled(w, j, i), j) && c0 == z.c0 && j < m && i < w
    requires MuxLeft(g.cells[n], z.c, w, j, i)
    modifies g
    ensures Muxing(g, a, n, z, w, m, j, Filled(w, j, i + 1), j) && g.Steady(old(g.fence), old(g.fenced), old(g.tidy))
    ensures MuxLeft(g.cells[n], z.c, w, j, i + 1)
  {
    hide Building;
    ghost var plan, extra := MuxPlan(w, m), Filled(w, j, i);
    DataInRange(w, m, j, i);
    assert plan[j].slots[w + i] == Slot(Operand(DataAt(w, j) + i), j) && plan[j].slots[i] == Slot(Operand(i), j);
    MoveOperand(g, n, (j + 1) * w + i, c0, j, w + i, a, z, plan, j, extra, j);
    ghost var extra1 := extra + {(j, w + i)};
    if j == 0 {
      MoveOperand(g, n, i, c0, j, i, a, z, plan, j, extra1, j);
    } else {
      assert plan[0].slots[i] == Slot(Operand(i), 0);
      CopyOperand(g, n, 0, i, c0, j, i, a, z, plan, j, extra1, j, Operand(i));
    }
    assert extra1 + {(j, i)} == Filled(w, j, i + 1);
  }

  /** One mux. */
  method MuxRow(g: Netlist, n: nat, w: nat, c0: nat, j: nat, ghost m: nat, ghost a: NL, ghost z: Site)
    requires Muxing(g, a, n, z, w, m, j, {}, j) && c0 == z.c0 && j < m && MuxLeft(g.cells[n], z.c, w, j, 0)
    modifies g
    ensures Muxing(g, a, n, z, w, m, j + 1, {}, j + 1) && g.Steady(old(g.fence), old(g.fenced), old(g.tidy))
    ensures MuxLeft(g.cells[n], z.c, w, j + 1, 0)
  {
    assert Filled(w, j, 0) == {};
    for i := 0 to w
      invariant Muxing(g, a, n, z, w, m, j, Filled(w, j, i), j) && g.Steady(old(g.fence), old(g.fenced), old(g.tidy))
      invariant MuxLeft(g.cells[n], z.c, w, j, i)
    {
      MuxPins(g, n, w, c0, j, i, m, a, z);
    }
    FinishMux(g, n, w, c0, j, m, a, z);
  }

  method FinishMux(g: Netlist, n: nat, w: nat, c0: nat, j: nat, ghost m: nat, ghost a: NL, ghost z: Site)
    requires Muxing(g, a, n, z, w, m, j, Filled(w, j, w), j) && c0 == z.c0 && j < m && MuxLeft(g.cells[n], z.c, w, j, w)
    modifies g
    ensures Muxing(g, a, n, z, w, m, j + 1, {}, j + 1) && g.Steady(old(g.fence), old(g.fenced), old(g.tidy))
    ensures MuxLeft(g.cells[n], z.c, w, j + 1, 0)
  {
    PlanFits(z, w, m);
    MoveOutput(g, n, c0, j, j, a, z, MuxPlan(w, m), j, Filled(w, j, w));
    assert RoundIs(MuxPlan(w, m), j, Filled(w, j, w));
    NextRound(g, a, n, z, MuxPlan(w, m), j, Filled(w, j, w), j + 1);
    DataInRange(w, m, j, 0);
  }

  method CreateMuxes(g: Netlist, w: nat, m: nat, ghost a: NL, ghost plan: seq<Spec>)
    requires Creating(g, a, plan, 0) && plan == MuxPlan(w, m)
    modifies g
    ensures Creating(g, a, plan, m) && g.Steady(old(g.fence), old(g.fenced), old(g.tidy))
  {
    for j := 0 to m
      invariant Creating(g, a, plan, j) && g.Steady(old(g.fence), old(g.fenced), old(g.tidy))
    {
      CreateGate(g, Mux2, [Port(Plain, w), Port(Plain, w)], 2 * w, [1], 1, a, plan, j);
    }
  }

  // ----- meaning -----

  lemma {:induction false} EqualPorts(ports: seq<Port>, w: nat, k: nat)
    requires k <= |ports| && forall i :: 0 <= i < |ports| ==> ports[i].width == w
    ensures Offset(ports, k) == k * w
  {
    if k > 0 {
      EqualPorts(ports, w, k - 1);
      assert k * w == (k - 1) * w + w;
    }
  }

  /** Port `k` of the node. */
  lemma {:induction false} PortIs(c: Cell, w: nat, m: nat, v: Valuation, k: nat)
    requires PortMuxNode(c, w, m) && k <= m
    ensures k * w + w <= |c.ins| && PortOf(c.inPorts, Vals(c.ins, v), k) == Vals(c.ins, v)[k * w..k * w + w]
  {
    EqualPorts(c.inPorts, w, k);
    assert (k + 1) * w == k * w + w;
    Multiple(k + 1, m + 1, w);
  }

  /** Output `j` of the node. */
  lemma {:induction false} NodeWord(c: Cell, w: nat, m: nat, v: Valuation, j: nat)
    requires PortMuxNode(c, w, m) && j < m
    ensures |WordOf(c, v)| == m && w <= |c.ins| && DataAt(w, j) + w <= |c.ins|
    ensures WordOf(c, v)[j] == AndOr(Vals(c.ins, v)[..w], Vals(c.ins, v)[DataAt(w, j)..DataAt(w, j) + w])
  {
    PortIs(c, w, m, v, 0);
    PortIs(c, w, m, v, j + 1);
  }

  lemma {:induction false} MuxWord(k: Cell, w: nat, sel: seq<bool>, data: seq<bool>, v: Valuation)
    requires k.kind == Mux2 && k.inPorts == [Port(Plain, w), Port(Plain, w)] && |k.ins| == 2 * w && |sel| == |data| == w
    requires Vals(k.ins, v) == sel + data
    ensures WordOf(k, v) == [AndOr(sel, data)]
  {
    assert Offset(k.inPorts, 1) == w;
    assert (sel + data)[..w] == sel && (sel + data)[w..] == data;
  }

  lemma {:induction false} MuxRight(cells: seq<Cell>, z: Site, w: nat, m: nat, top: nat, v: Valuation, j: nat)
    requires PortMuxNode(z.c, w, m) && NetworkOk(cells, z, MuxPlan(w, m), m, {}, m, top) && AllRounds(MuxPlan(w, m), m)
    requires j < m
    ensures |WordOf(z.c, v)| == m && WordOf(At(cells, z, j), v) == [WordOf(z.c, v)[j]]
  {
    hide WordOf;
    var plan, k, x := MuxPlan(w, m), At(cells, z, j), Vals(z.c.ins, v);
    NodeWord(z.c, w, m, v, j);
    WiredGate(cells, z, plan, m, m, top, j);
    var sel, data := x[..w], x[DataAt(w, j)..DataAt(w, j) + w];
    forall s {:trigger k.ins[s]} | 0 <= s < 2 * w ensures Val(k.ins[s], v) == (sel + data)[s] {
      assert plan[j].slots[s].src == Operand(if s < w then s else DataAt(w, j) + (s - w));
    }
    assert Vals(k.ins, v) == sel + data;
    MuxWord(k, w, sel, data, v);
  }

  lemma {:induction false} MuxesLower(a: NL, b: NL, n: nat, z: Site, w: nat, m: nat)
    requires WellFormed(a) && n < |a.cells| && z == SiteOf(a, n) && b == a.(cells := b.cells, nets := b.nets)
    requires a.nets <= b.nets && PortMuxNode(z.c, w, m)
    requires NetworkOk(b.cells, z, MuxPlan(w, m), m, {}, m, b.nets) && OtherCells(a.cells, b.cells, n)
    requires NodeLeft(b.cells[n], z.c, m)
    ensures Lowers(a, b) && WellFormed(b) && Undriving(b.cells[n])
  {
    PlanFits(z, w, m);
    assert InRange(z.c, z.base);
    forall v: Valuation | Constants(a.zero, a.one, v) && InnerHold(b.cells, z, MuxPlan(w, m), v)
      ensures TakersRight(b.cells, z, MuxPlan(w, m), v) {
      forall j: nat {:trigger At(b.cells, z, j)} | j < m
        ensures |WordOf(z.c, v)| == m && WordOf(At(b.cells, z, j), v) == [WordOf(z.c, v)[j]] {
        MuxRight(b.cells, z, w, m, b.nets, v, j);
      }
      MuxRight(b.cells, z, w, m, b.nets, v, 0);
    }
    NetworkLowers(a, b, n, z, MuxPlan(w, m), Upto(m), m, Upto(m));
  }

  /** A multi-port mux becomes one AND-OR mux per output; the netlist behaves as before. */
  method InstantiateMultiPortMux(g: Netlist, n: nat, ghost w: nat, ghost m: nat)
    requires g.Ready() && WellFormed(g.Meaning()) && n < |g.cells| && PortMuxNode(g.cells[n], w, m)
    modifies g
    ensures g.Ready() && WellFormed(g.Meaning()) && g.Steady(old(g.fence), old(g.fenced), old(g.tidy))
    ensures OtherCells(old(g.cells), g.cells, n) && Undriving(g.cells[n]) && Lowers(old(g.Meaning()), g.Meaning())
  {
    hide InRange, Blanks, OtherCells;
    ghost var a, z := g.Meaning(), SiteOf(g.Meaning(), n);
    assert NodeOk(g.nodes[n], g.pins, n, g.cells[n]);
    var width, count, c0 := g.nodes[n].inPorts[0].width, |g.nodes[n].inPorts| - 1, |g.nodes|;
    ghost var plan := MuxPlan(width, count);
    assert a.cells + Blanks(plan[..0]) == a.cells;
    CreateMuxes(g, width, count, a, plan);
    PlanFits(z, width, count);
    Created(g, a, n, z, plan);
    assert g.cells[n] == z.c;
    for j := 0 to count
      invariant Muxing(g, a, n, z, width, count, j, {}, j) && MuxLeft(g.cells[n], z.c, width, j, 0)
      invariant g.Steady(old(g.fence), old(g.fenced), old(g.tidy))
    {
      MuxRow(g, n, width, c0, j, count, a, z);
    }
    MuxesLower(a, g.Meaning(), n, z, width, count);
  }
}
