/** A node replaced by a network of gates, whatever the order in which the network is wired.

    A plan lists the gates in the order of their creation. For every input slot it says where its net comes
    from and in which round of the wiring loops it is filled. Rounds may connect a gate before its own inputs
    are there; what the finished network means is settled once, by `NetworkLowers`. */
module Networks {
  import opened Wrappers
  import opened Bits
  import opened Semantics
  import opened Runs
  import opened Netlists
  import opened RippleBuild
  import opened RippleCells

  /** The node's operand pin, a constant, or an output pin of a gate of the plan. */
  datatype Source = Operand(i: nat) | Const0 | Const1 | From(o: nat, t: nat)

  datatype Slot = Slot(src: Source, round: nat)

  /** A gate; `takes` is the output pin of the node that ends up as its only output pin. */
  datatype Spec = Spec(kind: Kind, inPorts: seq<Port>, slots: seq<Slot>, outPorts: seq<nat>, outs: nat, takes: Option<nat>)

  /** Where the network is put: after the first `c0` cells and `base` nets, in place of `c`. */
  datatype Site = Site(c0: nat, c: Cell, zero: nat, one: nat, base: nat)

  function SiteOf(a: NL, n: nat): Site
    requires n < |a.cells|
  {
    Site(|a.cells|, a.cells[n], a.zero, a.one, a.nets)
  }

  function At(cells: seq<Cell>, z: Site, x: nat): Cell {
    if z.c0 + x < |cells| then cells[z.c0 + x] else Cell(PadNode, [], [], [], [])
  }

  function SourceNet(cells: seq<Cell>, z: Site, src: Source): Option<nat> {
    match src
    case Operand(i) => if i < |z.c.ins| then z.c.ins[i] else None
    case Const0 => Some(z.zero)
    case Const1 => Some(z.one)
    case From(o, t) => if t < |At(cells, z, o).outs| then At(cells, z, o).outs[t] else None
  }

  predicate Done(slot: Slot, x: nat, s: nat, i: nat, extra: set<(nat, nat)>) {
    slot.round < i || (x, s) in extra
  }

  predicate SlotOk(cells: seq<Cell>, z: Site, slot: Slot, e: Option<nat>, done: bool) {
    if done then e.Some? && e == SourceNet(cells, z, slot.src) else e == None
  }

  /** Gate `x` with the slots of the rounds before `i`, and those of `extra`, filled; `d` outputs of the node have
      moved. */
  ghost predicate GateOk(cells: seq<Cell>, z: Site, spec: Spec, x: nat, i: nat, extra: set<(nat, nat)>, d: nat) {
    var k := At(cells, z, x);
    && k == Cell(spec.kind, k.ins, k.outs, spec.inPorts, spec.outPorts)
    && |k.ins| == |spec.slots| && |k.outs| == spec.outs
    && (forall s {:trigger k.ins[s]} :: 0 <= s < |k.ins| ==>
      SlotOk(cells, z, spec.slots[s], k.ins[s], Done(spec.slots[s], x, s, i, extra)))
    && (spec.takes.Some? ==>
      spec.outs == 1 && spec.takes.value < |z.c.outs|
        && k.outs[0] == if spec.takes.value < d then z.c.outs[spec.takes.value] else None)
  }

  predicate Inner(plan: seq<Spec>, x: int) {
    0 <= x < |plan| && plan[x].takes == None
  }

  predicate SameNet(e: Option<nat>, f: Option<nat>) { e.Some? && e == f }

  /** The output pins of the inner gates are on nets of their own. */
  ghost predicate OutsOk(cells: seq<Cell>, z: Site, plan: seq<Spec>, top: nat) {
    && (forall x: nat, t: nat {:trigger At(cells, z, x).outs[t]} ::
      Inner(plan, x) && t < |At(cells, z, x).outs| && At(cells, z, x).outs[t].Some? ==>
          z.base <= At(cells, z, x).outs[t].value < top)
    && (forall x: nat, t: nat, y: nat, u: nat {:trigger At(cells, z, x).outs[t], At(cells, z, y).outs[u]} ::
          && Inner(plan, x) && t < |At(cells, z, x).outs| && Inner(plan, y) && u < |At(cells, z, y).outs|
          && SameNet(At(cells, z, x).outs[t], At(cells, z, y).outs[u]) ==>
          x == y && t == u)
  }

  ghost predicate GatesOk(cells: seq<Cell>, z: Site, plan: seq<Spec>, i: nat, extra: set<(nat, nat)>, d: nat) {
    && |cells| == z.c0 + |plan|
    && forall x: nat {:trigger At(cells, z, x)} {:trigger plan[x]} :: x < |plan| ==>
      GateOk(cells, z, plan[x], x, i, extra, d)
  }

  ghost predicate NetworkOk(cells: seq<Cell>, z: Site, plan: seq<Spec>, i: nat, extra: set<(nat, nat)>, d: nat,
                            top: nat) {
    GatesOk(cells, z, plan, i, extra, d) && OutsOk(cells, z, plan, top)
  }

  /** Slot (x, s) is not filled yet and belongs to this source. */
  predicate CanFill(plan: seq<Spec>, i: nat, extra: set<(nat, nat)>, x: nat, s: nat, src: Source) {
    x < |plan| && s < |plan[x].slots| && plan[x].slots[s].src == src && !Done(plan[x].slots[s], x, s, i, extra)
  }

  /** Only slot (x, s) of the network changed. */
  ghost predicate OnlySlot(before: seq<Cell>, after: seq<Cell>, z: Site, x: nat, s: nat, e: Option<nat>) {
    && |before| == |after| && s < |At(before, z, x).ins|
    && forall y: nat {:trigger At(after, z, y)} {:trigger At(before, z, y)} :: At(after, z, y) ==
         if y == x then At(before, z, x).(ins := At(before, z, x).ins[s := e]) else At(before, z, y)
  }

  lemma {:induction false} SlotFilled(before: seq<Cell>, after: seq<Cell>, z: Site, plan: seq<Spec>, i: nat,
                                      extra: set<(nat, nat)>, d: nat, top: nat,
                                      x: nat, s: nat, src: Source, e: Option<nat>)
    requires NetworkOk(before, z, plan, i, extra, d, top) && CanFill(plan, i, extra, x, s, src)
    requires OnlySlot(before, after, z, x, s, e)
    requires e.Some? && e == SourceNet(before, z, src)
    ensures NetworkOk(after, z, plan, i, extra + {(x, s)}, d, top)
  {
    forall src: Source ensures SourceNet(after, z, src) == SourceNet(before, z, src) {}
    forall y: nat {:trigger plan[y]} | y < |plan| ensures GateOk(after, z, plan[y], y, i, extra + {(x, s)}, d) {
      assert GateOk(before, z, plan[y], y, i, extra, d);
    }
    forall y: nat ensures At(after, z, y).outs == At(before, z, y).outs {}
  }

  /** Only output (o, t) of the network changed: it got a net. */
  ghost predicate OnlyOut(before: seq<Cell>, after: seq<Cell>, z: Site, o: nat, t: nat, e: Option<nat>) {
    && |before| == |after| && t < |At(before, z, o).outs|
    && forall y: nat {:trigger At(after, z, y)} {:trigger At(before, z, y)} :: At(after, z, y) ==
         if y == o then At(before, z, o).(outs := At(before, z, o).outs[t := e]) else At(before, z, y)
  }

  lemma {:induction false} OutGiven(before: seq<Cell>, after: seq<Cell>, z: Site, plan: seq<Spec>, i: nat,
                                    extra: set<(nat, nat)>, d: nat, top: nat, o: nat, t: nat)
    requires NetworkOk(before, z, plan, i, extra, d, top) && Inner(plan, o)
    requires OnlyOut(before, after, z, o, t, Some(top)) && z.base <= top
    requires At(before, z, o).outs[t] == None
    ensures NetworkOk(after, z, plan, i, extra, d, top + 1)
  {
    forall src: Source | SourceNet(before, z, src).Some?
      ensures SourceNet(after, z, src) == SourceNet(before, z, src) {}
    forall y: nat {:trigger plan[y]} | y < |plan| ensures GateOk(after, z, plan[y], y, i, extra, d) {
      assert GateOk(before, z, plan[y], y, i, extra, d);
    }
    forall y: nat, u: nat | u < |At(after, z, y).outs|
      ensures At(after, z, y).outs[u] == if y == o && u == t then Some(top) else At(before, z, y).outs[u]
    {
    }
  }

  /** An output pin of the node has moved to the gate that takes it. */
  lemma {:induction false} OutTaken(before: seq<Cell>, after: seq<Cell>, z: Site, plan: seq<Spec>, i: nat,
                                    extra: set<(nat, nat)>, d: nat, top: nat, x: nat)
    requires NetworkOk(before, z, plan, i, extra, d, top) && x < |plan| && plan[x].takes == Some(d) && d < |z.c.outs|
    requires OnlyOut(before, after, z, x, 0, z.c.outs[d])
    requires forall y {:trigger plan[y]} :: 0 <= y < |plan| && plan[y].takes == Some(d) ==> y == x
    requires forall y, s {:trigger plan[y].slots[s]} :: 0 <= y < |plan| && 0 <= s < |plan[y].slots| ==>
      plan[y].slots[s].src.From? ==> plan[y].slots[s].src.o != x
    ensures NetworkOk(after, z, plan, i, extra, d + 1, top)
  {
    forall y: nat {:trigger plan[y]} | y < |plan| ensures GateOk(after, z, plan[y], y, i, extra, d + 1) {
      assert GateOk(before, z, plan[y], y, i, extra, d);
      forall s {:trigger plan[y].slots[s]} | 0 <= s < |plan[y].slots|
        ensures SourceNet(after, z, plan[y].slots[s].src) == SourceNet(before, z, plan[y].slots[s].src) {}
    }
    forall y: nat | Inner(plan, y) ensures At(after, z, y).outs == At(before, z, y).outs {}
  }

  // ----- building it -----

  /** What is left of the node: `d` of its output pins are gone, and some operand pins. */
  ghost predicate NodeLeft(now: Cell, c: Cell, d: nat) {
    && now == c.(ins := now.ins, outs := now.outs) && |now.ins| == |c.ins| && |now.outs| == |c.outs|
    && (forall k {:trigger now.ins[k]} :: 0 <= k < |c.ins| ==> now.ins[k] == None || now.ins[k] == c.ins[k])
    && (forall k {:trigger now.outs[k]} :: 0 <= k < |c.outs| ==> now.outs[k] == if k < d then None else c.outs[k])
  }

  ghost predicate Building(g: Netlist, a: NL, n: nat, z: Site, plan: seq<Spec>, i: nat, extra: set<(nat, nat)>, d: nat)
    reads g
  {
    && g.Ready() && n < |a.cells| && z == SiteOf(a, n) && g.zeroNet == a.zero && g.oneNet == a.one
      && g.padNet == a.pad && a.nets <= |g.nets|
    && OtherCells(a.cells, g.cells, n) && NodeLeft(g.cells[n], z.c, d)
    && NetworkOk(g.cells, z, plan, i, extra, d, |g.nets|) && g.fence.floor <= z.c0
  }

  function Blank(spec: Spec): Cell {
    Cell(spec.kind, Nones(|spec.slots|), Nones(spec.outs), spec.inPorts, spec.outPorts)
  }

  function Blanks(plan: seq<Spec>): (r: seq<Cell>)
    ensures |r| == |plan|
    ensures forall x {:trigger r[x]} :: 0 <= x < |r| ==> r[x] == Blank(plan[x])
  {
    seq(|plan|, (x: nat) requires x < |plan| => Blank(plan[x]))
  }

  /** The first gates of the plan exist, unconnected. */
  ghost predicate Creating(g: Netlist, a: NL, plan: seq<Spec>, k: nat)
    reads g
  {
    g.Ready() && g.fence.floor <= |a.cells| && k <= |plan| && g.Meaning() == a.(cells := a.cells + Blanks(plan[..k]))
  }

  method CreateGate(g: Netlist, kind: Kind, inPorts: seq<Port>, ins: nat, outPorts: seq<nat>, outs: nat, ghost a: NL,
                    ghost plan: seq<Spec>, ghost k: nat)
    requires Creating(g, a, plan, k) && k < |plan|
    requires plan[k] == Spec(kind, inPorts, plan[k].slots, outPorts, outs, plan[k].takes) && |plan[k].slots| == ins
    modifies g
    ensures Creating(g, a, plan, k + 1) && g.Steady(old(g.fence), old(g.fenced), old(g.tidy))
  {
    var n := g.AllocateNode(kind, inPorts, ins, outPorts, outs);
    BlanksStep(a.cells, plan, k);
  }

  lemma {:induction false} BlanksStep(cells: seq<Cell>, plan: seq<Spec>, k: nat)
    requires k < |plan|
    ensures (cells + Blanks(plan[..k])) + [Blank(plan[k])] == cells + Blanks(plan[..k + 1])
  {
    assert Blanks(plan[..k]) + [Blank(plan[k])] == Blanks(plan[..k + 1]);
  }

  /** Every gate that takes an output has one output pin. */
  predicate TakesFit(z: Site, plan: seq<Spec>) {
    forall x {:trigger plan[x]} :: 0 <= x < |plan| && plan[x].takes.Some? ==>
      plan[x].outs == 1 && plan[x].takes.value < |z.c.outs|
  }

  lemma {:induction false} Created(g: Netlist, a: NL, n: nat, z: Site, plan: seq<Spec>)
    requires Creating(g, a, plan, |plan|) && n < |a.cells| && z == SiteOf(a, n) && TakesFit(z, plan)
    ensures Building(g, a, n, z, plan, 0, {}, 0)
  {
    assert plan[..|plan|] == plan;
    assert g.cells == a.cells + Blanks(plan);
    BlankNetwork(a, n, z, plan, g.cells);
  }

  lemma {:induction false} BlankNetwork(a: NL, n: nat, z: Site, plan: seq<Spec>, cells: seq<Cell>)
    requires n < |a.cells| && z == SiteOf(a, n) && TakesFit(z, plan) && cells == a.cells + Blanks(plan)
    ensures NetworkOk(cells, z, plan, 0, {}, 0, a.nets) && OtherCells(a.cells, cells, n) && NodeLeft(cells[n], z.c, 0)
  {
    forall x: nat {:trigger plan[x]} | x < |plan|
      ensures At(cells, z, x) == Blank(plan[x]) && GateOk(cells, z, plan[x], x, 0, {}, 0) {
      BlankGate(cells, z, plan[x], x);
    }
    NoOuts(cells, z, plan, a.nets);
  }

  lemma {:induction false} BlankGate(cells: seq<Cell>, z: Site, spec: Spec, x: nat)
    requires At(cells, z, x) == Blank(spec) && (spec.takes.Some? ==> spec.outs == 1 && spec.takes.value < |z.c.outs|)
    ensures GateOk(cells, z, spec, x, 0, {}, 0)
  {
  }

  lemma {:induction false} NoOuts(cells: seq<Cell>, z: Site, plan: seq<Spec>, top: nat)
    requires forall x: nat {:trigger plan[x]} :: x < |plan| ==> At(cells, z, x) == Blank(plan[x])
    ensures OutsOk(cells, z, plan, top)
  {
    forall x: nat, t: nat | Inner(plan, x) && t < |At(cells, z, x).outs| ensures At(cells, z, x).outs[t] == None {
      assert At(cells, z, x) == Blank(plan[x]);
    }
  }

  /** remap_pin_to_new_node on operand pin `k`. */
  method MoveOperand(g: Netlist, n: nat, k: nat, c0: nat, x: nat, s: nat, ghost a: NL, ghost z: Site,
                     ghost plan: seq<Spec>, ghost i: nat, ghost extra: set<(nat, nat)>, ghost d: nat)
    requires Building(g, a, n, z, plan, i, extra, d) && CanFill(plan, i, extra, x, s, Operand(k)) && c0 == z.c0
    requires k < |z.c.ins| && z.c.ins[k].Some? && g.cells[n].ins[k] == z.c.ins[k]
    modifies g
    ensures Building(g, a, n, z, plan, i, extra + {(x, s)}, d) && g.Steady(old(g.fence), old(g.fenced), old(g.tidy))
    ensures g.cells[n] == old(g.cells[n]).(ins := old(g.cells[n].ins)[k := None])
  {
    ghost var before := g.cells;
    assert GateOk(before, z, plan[x], x, i, extra, d) && At(before, z, x) == before[c0 + x];
    g.RemapInput(n, k, c0 + x, s);
    SlotFilled(before, g.cells, z, plan, i, extra, d, |g.nets|, x, s, Operand(k), z.c.ins[k]);
  }

  /** A copy of the pin in slot (y, u), which is there already, goes into slot (x, s). */
  method CopyOperand(g: Netlist, n: nat, y: nat, u: nat, c0: nat, x: nat, s: nat, ghost a: NL, ghost z: Site,
                     ghost plan: seq<Spec>, ghost i: nat,
                     ghost extra: set<(nat, nat)>, ghost d: nat, ghost src: Source)
    requires Building(g, a, n, z, plan, i, extra, d) && CanFill(plan, i, extra, x, s, src) && c0 == z.c0
    requires y < |plan| && u < |plan[y].slots| && plan[y].slots[u].src == src && Done(plan[y].slots[u], y, u, i, extra)
    modifies g
    ensures Building(g, a, n, z, plan, i, extra + {(x, s)}, d) && g.Steady(old(g.fence), old(g.fenced), old(g.tidy))
    ensures g.cells[n] == old(g.cells[n])
  {
    ghost var before := g.cells;
    assert GateOk(before, z, plan[x], x, i, extra, d) && At(before, z, x) == before[c0 + x];
    assert GateOk(before, z, plan[y], y, i, extra, d) && At(before, z, y) == before[c0 + y];
    ghost var e := before[c0 + y].ins[u];
    g.CopyInput(c0 + y, u, c0 + x, s);
    SlotFilled(before, g.cells, z, plan, i, extra, d, |g.nets|, x, s, src, e);
  }

  /** A zero or a one pin goes into slot (x, s). */
  method AttachConst(g: Netlist, n: nat, high: bool, c0: nat, x: nat, s: nat, ghost a: NL, ghost z: Site,
                     ghost plan: seq<Spec>, ghost i: nat,
                     ghost extra: set<(nat, nat)>, ghost d: nat)
    requires Building(g, a, n, z, plan, i, extra, d) && CanFill(plan, i, extra, x, s, if high then Const1 else Const0)
    requires c0 == z.c0
    modifies g
    ensures Building(g, a, n, z, plan, i, extra + {(x, s)}, d) && g.Steady(old(g.fence), old(g.fenced), old(g.tidy))
    ensures g.cells[n] == old(g.cells[n])
  {
    ghost var before := g.cells;
    assert GateOk(before, z, plan[x], x, i, extra, d) && At(before, z, x) == before[c0 + x];
    var e := if high then g.oneNet else g.zeroNet;
    g.AttachNet(e, c0 + x, s);
    SlotFilled(before, g.cells, z, plan, i, extra, d, |g.nets|, x, s, if high then Const1 else Const0, Some(e));
  }

  /** connect_nodes from output (o, t) to slot (x, s). */
  method Connect(g: Netlist, n: nat, o: nat, t: nat, c0: nat, x: nat, s: nat, ghost a: NL, ghost z: Site,
                 ghost plan: seq<Spec>, ghost i: nat,
                 ghost extra: set<(nat, nat)>, ghost d: nat)
    requires Building(g, a, n, z, plan, i, extra, d) && CanFill(plan, i, extra, x, s, From(o, t)) && c0 == z.c0
    requires Inner(plan, o) && t < plan[o].outs && o != x
    modifies g
    ensures Building(g, a, n, z, plan, i, extra + {(x, s)}, d) && g.Steady(old(g.fence), old(g.fenced), old(g.tidy))
    ensures g.cells[n] == old(g.cells[n])
  {
    hide Netlist.Fences, NodeLeft, OutsOk, Done, Netlist.Valid, Netlist.Bound;
    ghost var before, top := g.cells, |g.nets|;
    assert GateOk(before, z, plan[x], x, i, extra, d) && At(before, z, x) == before[c0 + x];
    assert GateOk(before, z, plan[o], o, i, extra, d) && At(before, z, o) == before[c0 + o];
    var e := g.ConnectNodes(c0 + o, t, c0 + x, s);
    ghost var mid := if before[c0 + o].outs[t].Some? then before else SetOut(before, c0 + o, t, Some(e));
    if before[c0 + o].outs[t].None? { OutGiven(before, mid, z, plan, i, extra, d, top, o, t); }
    SlotFilled(mid, g.cells, z, plan, i, extra, d, |g.nets|, x, s, From(o, t), Some(e));
  }

  /** remap_pin_to_new_node on the next output pin. */
  method MoveOutput(g: Netlist, n: nat, c0: nat, x: nat, d: nat, ghost a: NL, ghost z: Site, ghost plan: seq<Spec>,
                    ghost i: nat, ghost extra: set<(nat, nat)>)
    requires Building(g, a, n, z, plan, i, extra, d) && c0 == z.c0 && d < |z.c.outs| && z.c.outs[d].Some?
    requires x < |plan| && plan[x].takes == Some(d) && OneTaker(plan) && TakersLast(plan)
    modifies g
    ensures Building(g, a, n, z, plan, i, extra, d + 1) && g.Steady(old(g.fence), old(g.fenced), old(g.tidy))
    ensures g.cells[n].ins == old(g.cells[n].ins)
  {
    ghost var before := g.cells;
    assert GateOk(before, z, plan[x], x, i, extra, d) && At(before, z, x) == before[c0 + x];
    g.RemapOutput(n, d, c0 + x, 0);
    OutTaken(before, g.cells, z, plan, i, extra, d, |g.nets|, x);
  }

  predicate OneTaker(plan: seq<Spec>) {
    forall x, y {:trigger plan[x], plan[y]} ::
      0 <= x < |plan| && 0 <= y < |plan| && plan[x].takes.Some? && plan[x].takes == plan[y].takes ==> x == y
  }

  /** No gate reads a gate that takes an output of the node. */
  predicate TakersLast(plan: seq<Spec>) {
    forall y, s {:trigger plan[y].slots[s]} ::
      0 <= y < |plan| && 0 <= s < |plan[y].slots| && plan[y].slots[s].src.From? ==> Inner(plan, plan[y].slots[s].src.o)
  }

  /** A round is over when exactly its slots were filled. */
  ghost predicate RoundIs(plan: seq<Spec>, i: nat, extra: set<(nat, nat)>) {
    forall x: nat, s: nat {:trigger (x, s) in extra} {:trigger plan[x].slots[s]} ::
      x < |plan| && s < |plan[x].slots| ==> (plan[x].slots[s].round == i <==> (x, s) in extra)
  }

  lemma {:induction false} NextRound(g: Netlist, a: NL, n: nat, z: Site, plan: seq<Spec>, i: nat, extra: set<(nat,
                                     nat)>, d: nat)
    requires Building(g, a, n, z, plan, i, extra, d) && RoundIs(plan, i, extra)
    ensures Building(g, a, n, z, plan, i + 1, {}, d)
  {
    forall x: nat {:trigger plan[x]} | x < |plan| ensures GateOk(g.cells, z, plan[x], x, i + 1, {}, d) {
      assert GateOk(g.cells, z, plan[x], x, i, extra, d);
      forall s | 0 <= s < |plan[x].slots|
        ensures Done(plan[x].slots[s], x, s, i + 1, {}) == Done(plan[x].slots[s], x, s, i, extra) {}
    }
  }

  // ----- what the finished network means -----

  function WordOf(x: Cell, v: Valuation): seq<bool> {
    Outputs(x.kind, x.inPorts, Vals(x.ins, v), |x.outs|)
  }

  /** Gates read operands, constants, and inner gates of a smaller rank only. */
  predicate Ranked(plan: seq<Spec>, rank: seq<nat>) {
    && |rank| == |plan|
    && (forall x {:trigger plan[x]} :: 0 <= x < |plan| ==> Combinational(plan[x].kind))
    && forall x, s {:trigger plan[x].slots[s]} ::
      0 <= x < |plan| && Inner(plan, x) && 0 <= s < |plan[x].slots| && plan[x].slots[s].src.From? ==>
         Inner(plan, plan[x].slots[s].src.o) && rank[plan[x].slots[s].src.o] < rank[x]
  }

  predicate AllRounds(plan: seq<Spec>, i: nat) {
    forall x, s {:trigger plan[x].slots[s]} :: 0 <= x < |plan| && 0 <= s < |plan[x].slots| ==>
      plan[x].slots[s].round < i
  }

  predicate SiteInRange(z: Site) {
    InRange(z.c, z.base) && z.zero < z.base && z.one < z.base && AllSome(z.c.outs) && Combinational(z.c.kind)
  }

  /** A gate of the wired network: every slot is on the net of its source. */
  lemma {:induction false} WiredGate(cells: seq<Cell>, z: Site, plan: seq<Spec>, i: nat, d: nat, top: nat, x: nat)
    requires NetworkOk(cells, z, plan, i, {}, d, top) && AllRounds(plan, i) && x < |plan|
    ensures var k := At(cells, z, x);
      && k == Cell(plan[x].kind, k.ins, k.outs, plan[x].inPorts, plan[x].outPorts) && |k.ins| == |plan[x].slots|
        && |k.outs| == plan[x].outs
      && forall s {:trigger k.ins[s]} {:trigger plan[x].slots[s]} :: 0 <= s < |k.ins| ==>
        k.ins[s].Some? && k.ins[s] == SourceNet(cells, z, plan[x].slots[s].src)
  {
    var k := At(cells, z, x);
    assert GateOk(cells, z, plan[x], x, i, {}, d);
    forall s {:trigger k.ins[s]} | 0 <= s < |k.ins|
      ensures k.ins[s].Some? && k.ins[s] == SourceNet(cells, z, plan[x].slots[s].src) {
      assert plan[x].slots[s].round < i;
    }
  }

  /** Everything about the finished network but its meaning. */
  ghost predicate Finished(cells: seq<Cell>, z: Site, plan: seq<Spec>, rank: seq<nat>, i: nat, top: nat) {
    && NetworkOk(cells, z, plan, i, {}, |z.c.outs|, top) && AllRounds(plan, i) && Ranked(plan, rank) && SiteInRange(z)
      && TakersLast(plan) && z.base <= top
  }

  ghost predicate RankHolds(cells: seq<Cell>, z: Site, plan: seq<Spec>, rank: seq<nat>, r: nat, v: Valuation)
    requires |rank| == |plan|
  {
    forall x: nat {:trigger At(cells, z, x)} :: Inner(plan, x) && rank[x] < r ==> Holds(At(cells, z, x), v)
  }

  ghost predicate AtRank(cells: seq<Cell>, z: Site, plan: seq<Spec>, rank: seq<nat>, r: nat, x: nat, t: nat, e: nat)
    requires |rank| == |plan|
  {
    Inner(plan, x) && rank[x] == r && t < |At(cells, z, x).outs| && At(cells, z, x).outs[t] == Some(e)
  }

  /** `v` with the nets of the gates of rank `r` set to what these gates compute. */
  ghost function RankSet(cells: seq<Cell>, z: Site, plan: seq<Spec>, rank: seq<nat>, r: nat, v: Valuation): Valuation
    requires |rank| == |plan|
  {
    (e: nat) => if exists x: nat, t: nat :: AtRank(cells, z, plan, rank, r, x, t, e) then
        var x: nat, t: nat :| AtRank(cells, z, plan, rank, r, x, t, e);
        t < |WordOf(At(cells, z, x), v)| && WordOf(At(cells, z, x), v)[t]
      else v(e)
  }

  /** The net of a slot of an inner gate is old, or belongs to a gate of smaller rank. */
  lemma {:induction false} SlotNet(cells: seq<Cell>, z: Site, plan: seq<Spec>, rank: seq<nat>, i: nat, top: nat,
                                   x: nat, s: nat, r: nat, y: nat, t: nat, e: nat)
    requires Finished(cells, z, plan, rank, i, top) && Inner(plan, x) && s < |At(cells, z, x).ins|
    requires At(cells, z, x).ins[s] == Some(e)
    requires AtRank(cells, z, plan, rank, r, y, t, e)
    ensures r < rank[x]
  {
    assert GateOk(cells, z, plan[x], x, i, {}, |z.c.outs|);
    assert SlotOk(cells, z, plan[x].slots[s], At(cells, z, x).ins[s], true);
    assert z.base <= At(cells, z, y).outs[t].value;
    var src := plan[x].slots[s].src;
    match src
    case From(o, u) => assert At(cells, z, o).outs[u] == At(cells, z, y).outs[t];
    case _ =>
  }

  lemma {:induction false} RankOf(cells: seq<Cell>, z: Site, plan: seq<Spec>, rank: seq<nat>, top: nat, r: nat, y: nat,
                                  t: nat, e: nat)
    requires |rank| == |plan| && OutsOk(cells, z, plan, top) && AtRank(cells, z, plan, rank, r, y, t, e)
    ensures z.base <= e
    ensures forall x: nat, u: nat {:trigger At(cells, z, x).outs[u]} ::
      Inner(plan, x) && u < |At(cells, z, x).outs| && At(cells, z, x).outs[u] == Some(e) ==> x == y && u == t
  {
    assert z.base <= At(cells, z, y).outs[t].value;
  }

  lemma {:induction false} RankSetHolds(cells: seq<Cell>, z: Site, plan: seq<Spec>, rank: seq<nat>, i: nat, top: nat,
                                        r: nat, v: Valuation, w: Valuation, x: nat)
    requires Finished(cells, z, plan, rank, i, top) && RankHolds(cells, z, plan, rank, r, v)
    requires w == RankSet(cells, z, plan, rank, r, v)
    requires Inner(plan, x) && rank[x] <= r
    ensures Holds(At(cells, z, x), w)
  {
    var k := At(cells, z, x);
    assert GateOk(cells, z, plan[x], x, i, {}, |z.c.outs|);
    forall s | 0 <= s < |k.ins| ensures Val(k.ins[s], w) == Val(k.ins[s], v) {
      if k.ins[s].Some? && exists y: nat, t: nat :: AtRank(cells, z, plan, rank, r, y, t, k.ins[s].value) {
        var y: nat, t: nat :| AtRank(cells, z, plan, rank, r, y, t, k.ins[s].value);
        SlotNet(cells, z, plan, rank, i, top, x, s, r, y, t, k.ins[s].value);
      }
    }
    assert Vals(k.ins, w) == Vals(k.ins, v);
    forall u: nat | u < |k.outs| && u < |WordOf(k, w)| && k.outs[u].Some?
      ensures w(k.outs[u].value) == WordOf(k, w)[u] {
      RankSetOut(cells, z, plan, rank, i, top, r, v, w, x, u);
    }
  }

  lemma {:induction false} RankSetOut(cells: seq<Cell>, z: Site, plan: seq<Spec>, rank: seq<nat>, i: nat, top: nat,
                                      r: nat, v: Valuation, w: Valuation, x: nat, u: nat)
    requires Finished(cells, z, plan, rank, i, top) && RankHolds(cells, z, plan, rank, r, v)
    requires w == RankSet(cells, z, plan, rank, r, v)
    requires Inner(plan, x) && rank[x] <= r && u < |At(cells, z, x).outs| && At(cells, z, x).outs[u].Some?
    requires u < |WordOf(At(cells, z, x), v)|
    ensures w(At(cells, z, x).outs[u].value) == WordOf(At(cells, z, x), v)[u]
  {
    var e := At(cells, z, x).outs[u].value;
    assert GateOk(cells, z, plan[x], x, i, {}, |z.c.outs|);
    if rank[x] == r {
      assert AtRank(cells, z, plan, rank, r, x, u, e);
      var y: nat, t: nat :| AtRank(cells, z, plan, rank, r, y, t, e)
        && w(e) == (t < |WordOf(At(cells, z, y), v)| && WordOf(At(cells, z, y), v)[t]);
      assert At(cells, z, y).outs[t] == At(cells, z, x).outs[u];
    } else {
      assert Holds(At(cells, z, x), v);
      forall y: nat, t: nat ensures !AtRank(cells, z, plan, rank, r, y, t, e) {
        if AtRank(cells, z, plan, rank, r, y, t, e) { RankOf(cells, z, plan, rank, top, r, y, t, e); }
      }
    }
  }

  /** Whatever the old nets are, values for the new ones make all inner gates hold. */
  lemma {:induction false} Complete(cells: seq<Cell>, z: Site, plan: seq<Spec>, rank: seq<nat>, i: nat, top: nat,
                                    r: nat, v: Valuation) returns (w: Valuation)
    requires Finished(cells, z, plan, rank, i, top)
    ensures AgreeBelow(z.base, v, w) && RankHolds(cells, z, plan, rank, r, w)
  {
    if r == 0 {
      w := v;
    } else {
      var u := Complete(cells, z, plan, rank, i, top, r - 1, v);
      w := RankSet(cells, z, plan, rank, r - 1, u);
      forall e: nat | e < z.base ensures w(e) == v(e) {
        var q: nat := r - 1;
        forall x: nat, t: nat ensures !AtRank(cells, z, plan, rank, q, x, t, e) {
          if AtRank(cells, z, plan, rank, q, x, t, e) { RankOf(cells, z, plan, rank, top, q, x, t, e); }
        }
      }
      forall x: nat {:trigger At(cells, z, x)} | Inner(plan, x) && rank[x] < r ensures Holds(At(cells, z, x), w) {
        RankSetHolds(cells, z, plan, rank, i, top, r - 1, u, w, x);
      }
    }
  }

  ghost predicate InnerHold(cells: seq<Cell>, z: Site, plan: seq<Spec>, v: Valuation) {
    forall x: nat {:trigger At(cells, z, x)} :: Inner(plan, x) ==> Holds(At(cells, z, x), v)
  }

  /** Every gate that took an output computes that bit of what the node computes. */
  ghost predicate TakersRight(cells: seq<Cell>, z: Site, plan: seq<Spec>, v: Valuation) {
    && |WordOf(z.c, v)| == |z.c.outs|
    && forall x: nat {:trigger At(cells, z, x)} ::
      x < |plan| && plan[x].takes.Some? && plan[x].takes.value < |z.c.outs| ==>
         WordOf(At(cells, z, x), v) == [WordOf(z.c, v)[plan[x].takes.value]]
  }

  /** Every output pin of the node is taken. */
  predicate AllTaken(z: Site, plan: seq<Spec>, taker: seq<nat>) {
    |taker| == |z.c.outs| && forall j {:trigger taker[j]} :: 0 <= j < |taker| ==>
      taker[j] < |plan| && plan[taker[j]].takes == Some(j)
  }

  lemma {:induction false} TakersHold(cells: seq<Cell>, z: Site, plan: seq<Spec>, rank: seq<nat>, i: nat, top: nat,
                                      taker: seq<nat>, v: Valuation)
    requires Finished(cells, z, plan, rank, i, top) && AllTaken(z, plan, taker) && TakersRight(cells, z, plan, v)
    ensures Holds(z.c, v) <==> forall x: nat {:trigger At(cells, z, x)} :: x < |plan| && plan[x].takes.Some? ==>
      Holds(At(cells, z, x), v)
  {
    forall x: nat {:trigger At(cells, z, x)} | x < |plan| && plan[x].takes.Some?
      ensures Holds(At(cells, z, x), v) <==>
        v(z.c.outs[plan[x].takes.value].value) == WordOf(z.c, v)[plan[x].takes.value]
    {
      assert GateOk(cells, z, plan[x], x, i, {}, |z.c.outs|);
      TakerHolds(At(cells, z, x), z.c.outs[plan[x].takes.value].value, WordOf(z.c, v)[plan[x].takes.value], v);
    }
    if forall x: nat {:trigger At(cells, z, x)} :: x < |plan| && plan[x].takes.Some? ==> Holds(At(cells, z, x), v) {
      forall j | 0 <= j < |z.c.outs| ensures v(z.c.outs[j].value) == WordOf(z.c, v)[j] {
        assert Holds(At(cells, z, taker[j]), v);
      }
    }
  }

  lemma {:induction false} TakerHolds(k: Cell, e: nat, bit: bool, v: Valuation)
    requires k.outs == [Some(e)] && Combinational(k.kind) && WordOf(k, v) == [bit]
    ensures Holds(k, v) <==> v(e) == bit
  {
    if Holds(k, v) { assert k.outs[0].Some?; }
  }

  function MaxRank(rank: seq<nat>): (m: nat)
    ensures forall x :: 0 <= x < |rank| ==> rank[x] < m
  {
    if rank == [] then 0 else
      var m := MaxRank(rank[1..]);
      assert forall x :: 0 < x < |rank| ==> rank[x] == rank[1..][x - 1];
      if rank[0] < m then m else rank[0] + 1
  }

  /** The finished network, in place of the node it computes, keeps every behaviour. */
  lemma {:induction false} NetworkLowers(a: NL, b: NL, n: nat, z: Site, plan: seq<Spec>, rank: seq<nat>, i: nat,
                                         taker: seq<nat>)
    requires WellFormed(a) && n < |a.cells| && z == SiteOf(a, n) && b == a.(cells := b.cells, nets := b.nets)
    requires Finished(b.cells, z, plan, rank, i, b.nets) && AllTaken(z, plan, taker)
    requires OtherCells(a.cells, b.cells, n) && NodeLeft(b.cells[n], z.c, |z.c.outs|)
    requires forall v: Valuation :: Constants(a.zero, a.one, v) && InnerHold(b.cells, z, plan, v) ==>
      TakersRight(b.cells, z, plan, v)
    ensures Lowers(a, b) && WellFormed(b) && Undriving(b.cells[n])
  {
    forall v: Valuation | Consistent(b, v) ensures Consistent(a, v) {
      forall x: nat {:trigger At(b.cells, z, x)} | x < |plan|
        ensures Holds(At(b.cells, z, x), v) { assert At(b.cells, z, x) == b.cells[z.c0 + x]; }
      TakersHold(b.cells, z, plan, rank, i, b.nets, taker, v);
      forall k | 0 <= k < |a.cells| ensures Holds(a.cells[k], v) { if k != n { assert a.cells[k] == b.cells[k]; } }
    }
    forall v: Valuation | Consistent(a, v) ensures Extends(a, b, v) {
      var w := Complete(b.cells, z, plan, rank, i, b.nets, MaxRank(rank), v);
      assert InnerHold(b.cells, z, plan, w);
      assert Holds(a.cells[n], v);
      HoldsAgrees(z.c, z.base, v, w);
      TakersHold(b.cells, z, plan, rank, i, b.nets, taker, w);
      NetworkConsistent(a, b, n, z, plan, v, w);
    }
    NetworkInRange(a, b, n, z, plan, rank, i);
    NewCells(a, b, n, z, plan, rank, i);
  }

  lemma {:induction false} NetworkConsistent(a: NL, b: NL, n: nat, z: Site, plan: seq<Spec>, v: Valuation, w: Valuation)
    requires WellFormed(a) && n < |a.cells| && z == SiteOf(a, n) && b == a.(cells := b.cells, nets := b.nets)
    requires |b.cells| == |a.cells| + |plan|
    requires OtherCells(a.cells, b.cells, n) && NodeLeft(b.cells[n], z.c, |z.c.outs|) && Consistent(a, v)
    requires AgreeBelow(a.nets, v, w)
    requires forall x: nat {:trigger At(b.cells, z, x)} :: x < |plan| ==> Holds(At(b.cells, z, x), w)
    ensures Consistent(b, w)
  {
    forall k | 0 <= k < |b.cells| ensures Holds(b.cells[k], w) {
      if k >= |a.cells| {
        assert At(b.cells, z, k - |a.cells|) == b.cells[k];
      } else if k != n {
        assert Holds(a.cells[k], v) && b.cells[k] == a.cells[k];
        HoldsAgrees(a.cells[k], a.nets, v, w);
      }
    }
  }

  lemma {:induction false} NewCells(a: NL, b: NL, n: nat, z: Site, plan: seq<Spec>, rank: seq<nat>, i: nat)
    requires n < |a.cells| && z == SiteOf(a, n) && Finished(b.cells, z, plan, rank, i, b.nets)
    requires OtherCells(a.cells, b.cells, n) && NodeLeft(b.cells[n], z.c, |z.c.outs|)
    ensures SameSequential(a, b)
  {
    forall k | |a.cells| <= k < |b.cells| ensures Combinational(b.cells[k].kind) {
      var x: nat := k - |a.cells|;
      assert GateOk(b.cells, z, plan[x], x, i, {}, |z.c.outs|) && At(b.cells, z, x) == b.cells[k];
    }
  }

  lemma {:induction false} NetworkInRange(a: NL, b: NL, n: nat, z: Site, plan: seq<Spec>, rank: seq<nat>, i: nat)
    requires WellFormed(a) && n < |a.cells| && z == SiteOf(a, n) && b == a.(cells := b.cells, nets := b.nets)
    requires Finished(b.cells, z, plan, rank, i, b.nets) && OtherCells(a.cells, b.cells, n)
    requires NodeLeft(b.cells[n], z.c, |z.c.outs|)
    ensures WellFormed(b)
  {
    forall k | 0 <= k < |b.cells| ensures InRange(b.cells[k], b.nets) {
      if k < |a.cells| {
        assert InRange(a.cells[k], a.nets);
      } else {
        var x: nat := k - |a.cells|;
        assert At(b.cells, z, x) == b.cells[k];
        GateInRange(b.cells, z, plan, rank, i, b.nets, x);
      }
    }
  }

  lemma {:induction false} GateInRange(cells: seq<Cell>, z: Site, plan: seq<Spec>, rank: seq<nat>, i: nat, top: nat,
                                       x: nat)
    requires Finished(cells, z, plan, rank, i, top) && x < |plan|
    ensures InRange(At(cells, z, x), top)
  {
    var k := At(cells, z, x);
    assert GateOk(cells, z, plan[x], x, i, {}, |z.c.outs|);
    forall s | 0 <= s < |k.ins| && k.ins[s].Some? ensures k.ins[s].value < top {
      assert SlotOk(cells, z, plan[x].slots[s], k.ins[s], true);
      match plan[x].slots[s].src
      case From(o, t) => assert At(cells, z, o).outs[t] == k.ins[s];
      case Operand(j) => assert z.c.ins[j].value < z.base;
      case _ =>
    }
  }
}
